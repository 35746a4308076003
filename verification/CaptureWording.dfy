/**
  What the store refuses of a checkpoint and what it keeps, limit by limit.
  Sources: packages/lians-easy/lians_easy/task_contract.py, `checkpoint`, `_clean_text`,
  `_clean_list` and `_clean_decisions`; experiments/cross-agent-continuity/continuity_experiment.py,
  the checkpoint part of `capture`.
*/
module CaptureWording {
  import opened Prelude
  import opened DecisionUpsert
  import opened SessionCapture

  /** Blank once cleaned, or longer than `limit`. */
  predicate Unfit(clean: string -> string, text: string, limit: nat) {
    |clean(text)| == 0 || |clean(text)| > limit
  }

  predicate SomeUnfit(clean: string -> string, texts: seq<string>, limit: nat) {
    exists i :: 0 <= i < |texts| && Unfit(clean, texts[i], limit)
  }

  /** What a checkpoint can fall over: every limit of every field. */
  datatype Fault =
    | Summary | Action | EvidenceText | EvidenceSource | Blockers | Artifacts | Questions | Client
    | ManyBlockers | ManyArtifacts | ManyQuestions | ManyDecisions | DecisionText | DecisionReason | DecisionSource

  predicate Has(clean: string -> string, s: Session, decisions: seq<Decision>, fault: Fault) {
    match fault
    case Summary => Unfit(clean, s.summary, 4000)
    case Action => s.action.Some? && Unfit(clean, s.action.value, 1000)
    case EvidenceText => exists id :: id in s.evidence && Unfit(clean, s.evidence[id].text, 4000)
    case EvidenceSource => exists id :: id in s.evidence && Unfit(clean, s.evidence[id].source, 1000)
    case Blockers => SomeUnfit(clean, s.blockers, 1000)
    case Artifacts => SomeUnfit(clean, s.artifacts, 1000)
    case Questions => SomeUnfit(clean, s.questions, 1000)
    case Client => Unfit(clean, s.client, 80)
    case ManyBlockers => |s.blockers| > 20
    case ManyArtifacts => |s.artifacts| > 50
    case ManyQuestions => |s.questions| > 20
    case ManyDecisions => |decisions| > 20
    case DecisionText => exists i :: 0 <= i < |decisions| && Unfit(clean, decisions[i].text, 1000)
    case DecisionReason => exists i :: 0 <= i < |decisions| && Unfit(clean, decisions[i].reason, 1000)
    case DecisionSource => exists i :: 0 <= i < |decisions| && Unfit(clean, decisions[i].source, 1000)
  }

  /** A checkpoint is refused exactly if it has one of these faults. */
  lemma RefusedIff(clean: string -> string, s: Session, decisions: seq<Decision>)
    ensures !Accepts(clean, s, decisions) <==> exists fault :: Has(clean, s, decisions, fault)
  {
    if !Accepts(clean, s, decisions) {
      var fault := FirstFault(clean, s, decisions);
    }
  }

  lemma FirstFault(clean: string -> string, s: Session, decisions: seq<Decision>) returns (fault: Fault)
    requires !Accepts(clean, s, decisions)
    ensures Has(clean, s, decisions, fault)
  {
    if !Fits(clean, s.summary, 4000) { fault := Summary; }
    else if s.action.Some? && !Fits(clean, s.action.value, 1000) { fault := Action; }
    else if id :| id in s.evidence && !Fits(clean, s.evidence[id].text, 4000) { fault := EvidenceText; }
    else if id :| id in s.evidence && !Fits(clean, s.evidence[id].source, 1000) { fault := EvidenceSource; }
    else if |s.blockers| > 20 { fault := ManyBlockers; }
    else if |s.artifacts| > 50 { fault := ManyArtifacts; }
    else if |s.questions| > 20 { fault := ManyQuestions; }
    else if SomeUnfit(clean, s.blockers, 1000) { fault := Blockers; }
    else if SomeUnfit(clean, s.artifacts, 1000) { fault := Artifacts; }
    else if SomeUnfit(clean, s.questions, 1000) { fault := Questions; }
    else if !Fits(clean, s.client, 80) { fault := Client; }
    else if |decisions| > 20 { fault := ManyDecisions; }
    else if i :| 0 <= i < |decisions| && !Fits(clean, decisions[i].text, 1000) { fault := DecisionText; }
    else if i :| 0 <= i < |decisions| && !Fits(clean, decisions[i].reason, 1000) { fault := DecisionReason; }
    else { fault := DecisionSource; }
  }

  /** Of all artifacts in order of first mention the last hundred are kept. */
  lemma MergedInWords(earlier: seq<string>, added: seq<string>)
    ensures var all, kept := Dedup(earlier + added), MergedArtifacts(earlier, added);
            kept == if |all| > 100 then all[|all| - 100..] else all
    ensures |MergedArtifacts(earlier, added)| == if |Elements(earlier + added)| > 100 then 100 else |Elements(earlier + added)|
  {
    DedupMeaning(earlier + added);
  }
}
