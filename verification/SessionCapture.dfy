/**
  Capturing a session into the state of a task.
  Sources: experiments/cross-agent-continuity/continuity_experiment.py, the checkpoint part of
  `capture`; packages/lians-easy/lians_easy/task_contract.py, `checkpoint`, `_clean_text`,
  `_clean_list` and `_clean_decisions`.

  `clean` is the store's `_clean_text`: it strips a text and joins its words by single blanks.
  The experiment's own `_clean_text` only strips, and it is the stripped texts that are given here.
*/
module SessionCapture {
  import opened Prelude
  import opened KeyedList
  import opened DecisionUpsert

  const MAX_ARTIFACTS: nat := 100

  datatype Evidence = Evidence(text: string, source: string)

  datatype Session = Session(
    summary: string,
    action: Option<string>,
    evidence: map<string, Evidence>,
    blockers: seq<string>,
    artifacts: seq<string>,
    questions: seq<string>,
    client: string,
    decisions: seq<Item>,
    changes: seq<Item>,
    sourceRef: string)

  datatype TaskState = TaskState(
    summary: string,
    action: Option<string>,
    evidence: map<string, Evidence>,
    blockers: seq<string>,
    artifacts: seq<string>,
    questions: seq<string>,
    client: string,
    decisions: seq<Decision>)

  function Artifacts(before: Option<TaskState>): seq<string> {
    if before.Some? then before.value.artifacts else []
  }

  /** The decisions of the task once the session's are upserted. */
  function Listed(before: Option<TaskState>, s: Session): seq<Decision> {
    Upsert(Filed, if before.Some? then before.value.decisions else [], Entries(s.decisions, s.changes, s.sourceRef))
  }

  /** `same_checkpoint`: the state already is what the session says, compared text by text. */
  predicate Same(before: Option<TaskState>, s: Session) {
    before == Some(TaskState(s.summary, s.action, s.evidence, s.blockers, s.artifacts, s.questions, s.client,
                             Listed(before, s)))
  }

  // ---- what the store makes of a checkpoint ------------------------------------------

  function CleanAll(clean: string -> string, texts: seq<string>): (cleaned: seq<string>)
    ensures |cleaned| == |texts|
  {
    seq(|texts|, i requires 0 <= i < |texts| => clean(texts[i]))
  }

  function CleanEvidence(clean: string -> string, evidence: map<string, Evidence>): map<string, Evidence> {
    map id | id in evidence :: Evidence(clean(evidence[id].text), clean(evidence[id].source))
  }

  function Last(n: nat, list: seq<string>): seq<string> {
    if |list| <= n then list else list[|list| - n..]
  }

  /** The last hundred of the earlier and the new artifacts, each where it first occurred. */
  function MergedArtifacts(earlier: seq<string>, added: seq<string>): seq<string> {
    Last(MAX_ARTIFACTS, Dedup(earlier + added))
  }

  predicate Fits(clean: string -> string, text: string, maximum: nat) {
    clean(text) != "" && |clean(text)| <= maximum
  }

  predicate AllFit(clean: string -> string, texts: seq<string>, count: nat, maximum: nat) {
    |texts| <= count && forall i :: 0 <= i < |texts| ==> Fits(clean, texts[i], maximum)
  }

  /** The store takes at most twenty decisions, each with a reason. */
  predicate DecisionsFit(clean: string -> string, decisions: seq<Decision>) {
    && |decisions| <= 20
    && forall i :: 0 <= i < |decisions| ==>
         Fits(clean, decisions[i].text, 1_000) && Fits(clean, decisions[i].reason, 1_000) && Fits(clean, decisions[i].source, 1_000)
  }

  /** `checkpoint` raises on anything else. */
  predicate Accepts(clean: string -> string, s: Session, decisions: seq<Decision>) {
    && Fits(clean, s.summary, 4_000)
    && (s.action.Some? ==> Fits(clean, s.action.value, 1_000))
    && (forall id :: id in s.evidence ==> Fits(clean, s.evidence[id].text, 4_000) && Fits(clean, s.evidence[id].source, 1_000))
    && AllFit(clean, s.blockers, 20, 1_000)
    && AllFit(clean, s.artifacts, 50, 1_000)
    && AllFit(clean, s.questions, 20, 1_000)
    && Fits(clean, s.client, 80)
    && DecisionsFit(clean, decisions)
  }

  /** Evidence and artifacts accumulate, a missing action keeps the earlier one, the rest is replaced. */
  function Checkpointed(clean: string -> string, before: Option<TaskState>, s: Session, decisions: seq<Decision>): TaskState {
    TaskState(
      clean(s.summary),
      if s.action.Some? then Some(clean(s.action.value)) else if before.Some? then before.value.action else None,
      (if before.Some? then before.value.evidence else map[]) + CleanEvidence(clean, s.evidence),
      CleanAll(clean, s.blockers),
      MergedArtifacts(Artifacts(before), CleanAll(clean, s.artifacts)),
      CleanAll(clean, s.questions),
      clean(s.client),
      decisions)
  }

  predicate Raises(clean: string -> string, before: Option<TaskState>, s: Session) {
    !Same(before, s) && !Accepts(clean, s, Listed(before, s))
  }

  /** The state a capture leaves. */
  function Captured(clean: string -> string, before: Option<TaskState>, s: Session): TaskState {
    if Same(before, s) then before.value else Checkpointed(clean, before, s, Listed(before, s))
  }

  /** The state of a task; `writes` counts the stored versions. */
  class Task {
    const clean: string -> string
    var state: Option<TaskState>
    var writes: nat

    constructor (clean: string -> string)
      ensures this.clean == clean && state == None && writes == 0
    {
      this.clean, state, writes := clean, None, 0;
    }

    /** How the store merges the decisions is left open: `Capture` corrects the result. */
    method Checkpoint(s: Session, decisions: seq<Decision>, merge: (seq<Decision>, seq<Decision>) -> seq<Decision>)
      returns (raised: bool)
      modifies this`state, this`writes
      ensures raised <==> !Accepts(clean, s, decisions)
      ensures raised ==> state == old(state) && writes == old(writes)
      ensures !raised ==> writes == old(writes) + 1
                          && exists merged :: state == Some(Checkpointed(clean, old(state), s, merged))
      ensures !raised ==>
                && state.Some? && state.value.summary == clean(s.summary) && state.value.client == clean(s.client)
                && state.value.action == (if s.action.Some? then Some(clean(s.action.value))
                                          else if old(state).Some? then old(state).value.action else None)
                && |state.value.blockers| == |s.blockers|
                && (forall i :: 0 <= i < |s.blockers| ==> state.value.blockers[i] == clean(s.blockers[i]))
                && |state.value.questions| == |s.questions|
                && (forall i :: 0 <= i < |s.questions| ==> state.value.questions[i] == clean(s.questions[i]))
    {
      raised := !Accepts(clean, s, decisions);
      if !raised {
        var merged := merge(if state.Some? then state.value.decisions else [], decisions);
        state := Some(Checkpointed(clean, state, s, merged));
        writes := writes + 1;
      }
    }

    /** A capture raises, or leaves the captured state; it stores no version exactly if nothing differs. */
    method Capture(s: Session, merge: (seq<Decision>, seq<Decision>) -> seq<Decision>) returns (raised: bool)
      modifies this`state, this`writes
      ensures raised <==> Raises(clean, old(state), s)
      ensures raised ==> state == old(state) && writes == old(writes)
      ensures !raised ==> state == Some(Captured(clean, old(state), s))
      ensures !raised ==> (writes == old(writes) <==> Same(old(state), s))
    {
      var decisions := UpsertDecisions(if state.Some? then state.value.decisions else [], s.decisions, s.changes, s.sourceRef);
      var same := state == Some(TaskState(s.summary, s.action, s.evidence, s.blockers, s.artifacts, s.questions, s.client, decisions));
      raised := false;
      if !same {
        raised := Checkpoint(s, decisions, merge);
        if raised {
          return;
        }
      }
      if state.value.decisions != decisions {
        state := Some(state.value.(decisions := decisions));
        writes := writes + 1;
      }
    }
  }

  // ---- capturing twice ---------------------------------------------------------------

  /** The second time the same decisions are upserted into themselves. */
  lemma ListedAgain(clean: string -> string, before: Option<TaskState>, s: Session)
    ensures Captured(clean, before, s).decisions == Listed(before, s)
    ensures Listed(Some(Captured(clean, before, s)), s) == Listed(before, s)
  {
    EntriesSelfFiled(s.decisions, s.changes, s.sourceRef);
    UpsertIdempotent(Filed, if before.Some? then before.value.decisions else [], Entries(s.decisions, s.changes, s.sourceRef));
  }

  lemma {:induction false} DedupAbsorbs<T>(list: seq<T>, more: seq<T>)
    requires Distinct(list) && forall x :: x in more ==> x in list
    ensures Dedup(list + more) == list
  {
    if more == [] {
      assert list + more == list;
      DedupDistinct(list);
    } else {
      var init, last := more[..|more| - 1], more[|more| - 1];
      assert (list + more)[..|list + more| - 1] == list + init;
      assert last in more && forall x :: x in init ==> x in more;
      DedupAbsorbs(list, init);
    }
  }

  lemma MergedIsShort(earlier: seq<string>, added: seq<string>)
    ensures Distinct(MergedArtifacts(earlier, added)) && |MergedArtifacts(earlier, added)| <= MAX_ARTIFACTS
    ensures forall x :: x in added && x !in MergedArtifacts(earlier, added) ==> |MergedArtifacts(earlier, added)| == MAX_ARTIFACTS
  {
    DedupMeaning(earlier + added);
    forall x | x in added && x !in MergedArtifacts(earlier, added)
      ensures |MergedArtifacts(earlier, added)| == MAX_ARTIFACTS
    {
      InDedup(earlier + added, x);
    }
  }

  /** Merging the same artifacts again changes nothing exactly if the cap cut none of them off. */
  lemma MergeStableIff(earlier: seq<string>, added: seq<string>)
    ensures var merged := MergedArtifacts(earlier, added);
            MergedArtifacts(merged, added) == merged <==> forall x :: x in added ==> x in merged
  {
    var merged := MergedArtifacts(earlier, added);
    MergedIsShort(earlier, added);
    if forall x :: x in added ==> x in merged {
      DedupAbsorbs(merged, added);
    } else {
      var x :| x in added && x !in merged;
      var list := Dedup(merged + added);
      DedupGrows(merged, added);
      DedupDistinct(merged);
      DedupMeaning(merged + added);
      InDedup(merged + added, x);
      assert |list| > |merged| == MAX_ARTIFACTS;
      var last := list[|list| - 1];
      assert last !in merged by {
        assert forall i :: 0 <= i < |merged| ==> merged[i] == list[i];
      }
      assert MergedArtifacts(merged, added)[MAX_ARTIFACTS - 1] == last;
      assert merged[MAX_ARTIFACTS - 1] in merged;
    }
  }

  /** The cap can do so: a full list drops its oldest artifact, though the session names it again. */
  lemma CapForgets(earlier: seq<string>, novel: string)
    requires Distinct(earlier) && |earlier| == MAX_ARTIFACTS && novel !in earlier
    ensures earlier[0] !in MergedArtifacts(earlier, [earlier[0], novel])
  {
    var list := earlier + [earlier[0], novel];
    assert list[..|list| - 1] == earlier + [earlier[0]];
    DedupAbsorbs(earlier, [earlier[0]]);
    assert Dedup(list) == earlier + [novel];
    assert MergedArtifacts(earlier, [earlier[0], novel]) == earlier[1..] + [novel];
  }

  /** If the second capture has nothing to store, none of the artifacts was cut off. */
  lemma QuietKeepsArtifacts(clean: string -> string, before: Option<TaskState>, s: Session)
    requires |s.artifacts| < MAX_ARTIFACTS && !Same(before, s) && Same(Some(Captured(clean, before, s)), s)
    ensures forall x :: x in CleanAll(clean, s.artifacts) ==> x in MergedArtifacts(Artifacts(before), CleanAll(clean, s.artifacts))
  {
    MergedIsShort(Artifacts(before), CleanAll(clean, s.artifacts));
  }

  /**
    A second capture of the session leaves the state as it is exactly if the first one did not
    have to store anything, or the cap of a hundred cut none of its artifacts off.
  */
  lemma CaptureIdempotentIff(clean: string -> string, before: Option<TaskState>, s: Session)
    requires !Raises(clean, before, s)
    ensures var after := Captured(clean, before, s);
            Captured(clean, Some(after), s) == after <==>
              || Same(before, s)
              || forall x :: x in CleanAll(clean, s.artifacts) ==> x in MergedArtifacts(Artifacts(before), CleanAll(clean, s.artifacts))
  {
    var after := Captured(clean, before, s);
    ListedAgain(clean, before, s);
    if !Same(before, s) {
      MergeStableIff(Artifacts(before), CleanAll(clean, s.artifacts));
      if Same(Some(after), s) {
        QuietKeepsArtifacts(clean, before, s);
      } else {
        assert after.evidence + CleanEvidence(clean, s.evidence) == after.evidence;
      }
    }
  }

  /** Storing changes none of the session's texts, and none of its artifacts occurs twice. */
  predicate Verbatim(clean: string -> string, s: Session) {
    && clean(s.summary) == s.summary
    && (s.action.Some? ==> clean(s.action.value) == s.action.value)
    && CleanEvidence(clean, s.evidence) == s.evidence
    && CleanAll(clean, s.blockers) == s.blockers
    && CleanAll(clean, s.artifacts) == s.artifacts && Distinct(s.artifacts)
    && CleanAll(clean, s.questions) == s.questions
    && clean(s.client) == s.client
  }

  /** Nothing of the earlier state outlives the session: no evidence, action or artifact besides its own. */
  predicate Covers(s: Session, before: Option<TaskState>) {
    before.Some? ==>
      && before.value.evidence.Keys <= s.evidence.Keys
      && (s.action.None? ==> before.value.action.None?)
      && Dedup(before.value.artifacts) <= s.artifacts
  }

  /** The merged artifacts are the session's exactly if the earlier ones begin its list. */
  lemma MergesToAddedIff(earlier: seq<string>, added: seq<string>)
    requires |added| < MAX_ARTIFACTS
    ensures MergedArtifacts(earlier, added) == added <==> Distinct(added) && Dedup(earlier) <= added
  {
    var list := Dedup(earlier + added);
    DedupGrows(earlier, added);
    DedupMeaning(earlier + added);
    MergedIsShort(earlier, added);
    if Distinct(added) && Dedup(earlier) <= added {
      forall x | x in earlier ensures x in added {
        InDedup(earlier, x);
      }
      SameAsAdded(earlier, added);
    }
  }

  lemma {:induction false} SameAsAdded(earlier: seq<string>, added: seq<string>)
    requires Distinct(added) && Dedup(earlier) <= added
    ensures Dedup(earlier + added) == added
  {
    var n := |Dedup(earlier)|;
    assert added == added[..n] + added[n..] && added[..n] == Dedup(earlier);
    forall x | x in added[..n] ensures x in earlier {
      InDedup(earlier, x);
    }
    PrefixAbsorbed(earlier, added, n);
    RestAppended(earlier, added, n, |added|);
    assert added[..|added|] == added;
  }

  /** Repeating what was there adds nothing. */
  lemma {:induction false} PrefixAbsorbed(earlier: seq<string>, added: seq<string>, n: nat)
    requires n <= |added| && forall x :: x in added[..n] ==> x in earlier
    ensures Dedup(earlier + added[..n]) == Dedup(earlier)
  {
    if n == 0 {
      assert earlier + added[..0] == earlier;
    } else {
      var list := earlier + added[..n];
      assert added[n - 1] in added[..n];
      assert forall x :: x in added[..n - 1] ==> x in added[..n];
      assert list[..|list| - 1] == earlier + added[..n - 1];
      PrefixAbsorbed(earlier, added, n - 1);
      InDedup(earlier, added[n - 1]);
    }
  }

  lemma {:induction false} RestAppended(earlier: seq<string>, added: seq<string>, n: nat, m: nat)
    requires Distinct(added) && n <= m <= |added| && added[..n] == Dedup(earlier)
    requires Dedup(earlier + added[..n]) == Dedup(earlier)
    ensures Dedup(earlier + added[..m]) == added[..m]
    decreases m
  {
    if m > n {
      var init, last := added[..m - 1], added[m - 1];
      RestAppended(earlier, added, n, m - 1);
      assert added[..m] == init + [last];
      assert earlier + added[..m] == earlier + init + [last];
      DedupAppend(earlier + init, last);
      assert forall j :: 0 <= j < |init| ==> init[j] == added[j];
      assert last !in init;
    }
  }

  lemma EvidenceMergesIff(clean: string -> string, earlier: map<string, Evidence>, added: map<string, Evidence>)
    ensures earlier + CleanEvidence(clean, added) == added <==>
              CleanEvidence(clean, added) == added && earlier.Keys <= added.Keys
  {
    var cleaned := CleanEvidence(clean, added);
    assert cleaned.Keys == added.Keys;
    if earlier + cleaned == added {
      assert forall id :: id in added ==> (earlier + cleaned)[id] == cleaned[id];
      assert cleaned == added;
      assert forall id :: id in earlier ==> id in earlier + cleaned;
    } else if earlier.Keys <= added.Keys {
      assert (earlier + cleaned).Keys == cleaned.Keys;
      assert earlier + cleaned == cleaned;
    }
  }

  /** What the store keeps is clean. */
  predicate Stored(clean: string -> string, state: Option<TaskState>) {
    state.Some? ==> forall i :: 0 <= i < |state.value.artifacts| ==> clean(state.value.artifacts[i]) == state.value.artifacts[i]
  }

  lemma CaptureStores(clean: string -> string, before: Option<TaskState>, s: Session)
    requires (forall x :: clean(clean(x)) == clean(x)) && Stored(clean, before)
    ensures Stored(clean, Some(Captured(clean, before, s)))
  {
    if !Same(before, s) {
      var added := CleanAll(clean, s.artifacts);
      var merged := MergedArtifacts(Artifacts(before), added);
      forall i | 0 <= i < |merged| ensures clean(merged[i]) == merged[i] {
        assert merged[i] in Dedup(Artifacts(before) + added);
        InDedup(Artifacts(before) + added, merged[i]);
      }
    }
  }

  /** Artifacts that are stored as the session lists them are clean, distinct, and begun by the earlier ones. */
  lemma ArtifactsAsListedIff(clean: string -> string, before: Option<TaskState>, added: seq<string>)
    requires (forall x :: clean(clean(x)) == clean(x)) && Stored(clean, before) && |added| < MAX_ARTIFACTS
    ensures MergedArtifacts(Artifacts(before), CleanAll(clean, added)) == added <==>
              CleanAll(clean, added) == added && Distinct(added) && Dedup(Artifacts(before)) <= added
  {
    var earlier, cleaned := Artifacts(before), CleanAll(clean, added);
    MergesToAddedIff(earlier, added);
    if MergedArtifacts(earlier, cleaned) == added {
      forall i | 0 <= i < |added| ensures clean(added[i]) == added[i] {
        assert added[i] in Dedup(earlier + cleaned);
        InDedup(earlier + cleaned, added[i]);
      }
      assert cleaned == added;
    }
  }

  /**
    After a capture that did not raise, capturing the session again stores no further version
    exactly if already the first stored none, or the session is stored verbatim and nothing of
    the earlier state outlives it.
  */
  lemma QuietAgainIff(clean: string -> string, before: Option<TaskState>, s: Session)
    requires (forall x :: clean(clean(x)) == clean(x)) && Stored(clean, before) && !Raises(clean, before, s)
    ensures Same(Some(Captured(clean, before, s)), s) <==> Same(before, s) || (Verbatim(clean, s) && Covers(s, before))
  {
    ListedAgain(clean, before, s);
    if !Same(before, s) {
      ArtifactsAsListedIff(clean, before, s.artifacts);
      EvidenceMergesIff(clean, if before.Some? then before.value.evidence else map[], s.evidence);
    }
  }

  /** Two captures of one session in a row, and whether the second stored nothing. */
  method CaptureTwice(task: Task, s: Session, merge: (seq<Decision>, seq<Decision>) -> seq<Decision>)
    returns (raised: bool, quiet: bool)
    requires (forall x :: task.clean(task.clean(x)) == task.clean(x)) && Stored(task.clean, task.state)
    modifies task`state, task`writes
    ensures raised <==> Raises(task.clean, old(task.state), s)
    ensures !raised ==> (quiet <==> Same(old(task.state), s) || (Verbatim(task.clean, s) && Covers(s, old(task.state))))
  {
    ghost var before := task.state;
    raised := task.Capture(s, merge);
    if raised {
      quiet := true;
      return;
    }
    QuietAgainIff(task.clean, before, s);
    ListedAgain(task.clean, before, s);
    var writes := task.writes;
    var again := task.Capture(s, merge);
    quiet := task.writes == writes;
  }
}
