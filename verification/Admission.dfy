/**
  Risk tags and the admission decision.
  Source: agentmem/src/lians/admission.py, `detect_risk_tags`, `is_too_vague` and `evaluate`.
*/
module Admission {
  import opened Prelude
  import opened Luhn

  datatype Tag = Ssn | Email | Mrn | Npi | CreditCard | Mnpi | InjectionTag | Vague | BlockedSource

  const PATTERN_TAGS: seq<Tag> := [Ssn, Email, Mrn, Npi]
  const MIN_DURABLE_TOKENS: nat := 3

  /** The regular expressions: which patterns occur, the card-like runs, and the tokens. */
  datatype Rules = Rules(
    occurs: (Tag, string) -> bool,
    cards: string -> seq<string>,
    tokens: string -> seq<string>)

  datatype Mode = Off | Monitor | Enforce

  datatype Action = Admit | Reject | Review

  datatype Decision = Decision(action: Action, tags: seq<Tag>, reasons: seq<string>)

  /** What each tag says of a text. */
  predicate Carries(rules: Rules, content: string, tag: Tag) {
    match tag
    case CreditCard => exists i :: 0 <= i < |rules.cards(content)| && Accepted(Digits(rules.cards(content)[i]))
    case Vague => |Elements(rules.tokens(content))| < MIN_DURABLE_TOKENS
    case BlockedSource => false
    case _ => rules.occurs(tag, content)
  }

  /** Personal, health or material non-public information. */
  predicate HighRisk(tag: Tag) {
    tag.Ssn? || tag.Email? || tag.Mrn? || tag.Npi? || tag.CreditCard? || tag.Mnpi?
  }

  /** The tags as they are written. */
  function TagName(tag: Tag): string {
    match tag
    case Ssn => "pii:ssn" case Email => "pii:email" case Mrn => "phi:mrn" case Npi => "phi:npi"
    case CreditCard => "pii:credit_card" case Mnpi => "mnpi" case InjectionTag => "injection"
    case Vague => "vague" case BlockedSource => "source:blocked"
  }

  /** High risk are the tags that begin with "pii:" or "phi:", and "mnpi". */
  lemma HighRiskByName(tag: Tag)
    ensures HighRisk(tag) <==> "pii:" <= TagName(tag) || "phi:" <= TagName(tag) || TagName(tag) == "mnpi"
  {
    assert "pii:" <= "pii:ssn" && "pii:" <= "pii:email" && "pii:" <= "pii:credit_card";
    assert "phi:" <= "phi:mrn" && "phi:" <= "phi:npi";
    assert TagName(InjectionTag)[0] == 'i' && TagName(Vague)[0] == 'v' && TagName(BlockedSource)[0] == 's' && TagName(Mnpi)[0] == 'm';
    assert "pii:"[0] == 'p' && "phi:"[0] == 'p';
  }

  predicate Unsafe(tag: Tag) {
    tag.InjectionTag? || tag.BlockedSource?
  }

  /** None of the tags for which enforcement never stores anything. */
  predicate Clean(tags: seq<Tag>) {
    forall t :: t in tags ==> !Unsafe(t) && !t.Vague?
  }

  predicate Sensitive(tags: seq<Tag>) {
    exists t :: t in tags && HighRisk(t)
  }

  /** The order in which tags are looked for. */
  function Place(tag: Tag): nat {
    match tag
    case Ssn => 0 case Email => 1 case Mrn => 2 case Npi => 3 case CreditCard => 4
    case Mnpi => 5 case InjectionTag => 6 case Vague => 7 case BlockedSource => 8
  }

  /** Each tag once and in its place, and all before place `n`. */
  predicate InPlace(tags: seq<Tag>, n: nat) {
    && (forall i :: 0 <= i < |tags| ==> Place(tags[i]) < n)
    && forall i, j :: 0 <= i < j < |tags| ==> Place(tags[i]) < Place(tags[j])
  }

  method AddTag(tags: seq<Tag>, hit: bool, t: Tag) returns (longer: seq<Tag>)
    requires InPlace(tags, Place(t))
    ensures InPlace(longer, Place(t) + 1)
    ensures forall x :: x in longer <==> x in tags || (hit && x == t)
  {
    longer := if hit then tags + [t] else tags;
  }

  method DetectRiskTags(rules: Rules, content: string) returns (tags: seq<Tag>)
    ensures forall t :: t in tags <==> Carries(rules, content, t)
    ensures InPlace(tags, Place(BlockedSource))
  {
    tags := DetectPatterns(rules, content);
    var hit := HasCard(rules.cards(content));
    tags := AddTag(tags, hit, CreditCard);
    tags := AddTag(tags, rules.occurs(Mnpi, content), Mnpi);
    tags := AddTag(tags, rules.occurs(InjectionTag, content), InjectionTag);
    tags := AddTag(tags, |Elements(rules.tokens(content))| < MIN_DURABLE_TOKENS, Vague);
  }

  /** The four patterns of personal and health data. */
  method DetectPatterns(rules: Rules, content: string) returns (tags: seq<Tag>)
    ensures forall t :: t in tags <==> (t == Ssn || t == Email || t == Mrn || t == Npi) && rules.occurs(t, content)
    ensures InPlace(tags, Place(CreditCard))
  {
    tags := [];
    for i := 0 to |PATTERN_TAGS|
      invariant InPlace(tags, i)
      invariant forall t :: t in tags <==> t in PATTERN_TAGS[..i] && rules.occurs(t, content)
    {
      assert PATTERN_TAGS[..i + 1] == PATTERN_TAGS[..i] + [PATTERN_TAGS[i]];
      tags := AddTag(tags, rules.occurs(PATTERN_TAGS[i], content), PATTERN_TAGS[i]);
    }
    assert PATTERN_TAGS[..|PATTERN_TAGS|] == PATTERN_TAGS;
  }

  /** Stops at the first card-like run with a valid check digit. */
  method HasCard(cards: seq<string>) returns (hit: bool)
    ensures hit <==> exists i :: 0 <= i < |cards| && Accepted(Digits(cards[i]))
  {
    hit := false;
    for i := 0 to |cards|
      invariant forall j :: 0 <= j < i ==> !Accepted(Digits(cards[j]))
    {
      hit := LuhnOk(cards[i]);
      if hit {
        return;
      }
    }
  }

  /** The tags of a write: those of its content, and its source's. */
  predicate Tagged(rules: Rules, content: string, blocked: bool, t: Tag) {
    Carries(rules, content, t) || (blocked && t == BlockedSource)
  }

  /** An injection pattern, a blocked source, or fewer than three different tokens. */
  predicate NeverStored(rules: Rules, content: string, blocked: bool) {
    rules.occurs(InjectionTag, content) || blocked || |Elements(rules.tokens(content))| < 3
  }

  /** A social security number, e-mail address, record or provider number, valid card, or inside information. */
  predicate Confidential(rules: Rules, content: string) {
    || rules.occurs(Ssn, content) || rules.occurs(Email, content) || rules.occurs(Mrn, content)
    || rules.occurs(Npi, content) || rules.occurs(Mnpi, content)
    || exists i :: 0 <= i < |rules.cards(content)| && Accepted(Digits(rules.cards(content)[i]))
  }

  /** What the tags of a write say of its content. */
  lemma TagsMean(rules: Rules, content: string, blocked: bool, tags: seq<Tag>)
    requires forall t :: t in tags <==> Tagged(rules, content, blocked, t)
    ensures Clean(tags) <==> !NeverStored(rules, content, blocked)
    ensures Sensitive(tags) <==> Confidential(rules, content)
  {
    assert InjectionTag in tags <==> Tagged(rules, content, blocked, InjectionTag);
    assert BlockedSource in tags <==> Tagged(rules, content, blocked, BlockedSource);
    assert Vague in tags <==> Tagged(rules, content, blocked, Vague);
    assert CreditCard in tags <==> Tagged(rules, content, blocked, CreditCard);
    assert Ssn in tags <==> Tagged(rules, content, blocked, Ssn);
    assert Email in tags <==> Tagged(rules, content, blocked, Email);
    assert Mrn in tags <==> Tagged(rules, content, blocked, Mrn);
    assert Npi in tags <==> Tagged(rules, content, blocked, Npi);
    assert Mnpi in tags <==> Tagged(rules, content, blocked, Mnpi);
  }

  /**
    In enforce mode a write is refused exactly if an injection pattern occurs, its source is blocked
    or it is vague; of the others exactly those with confidential content are held.
  */
  lemma EnforcedIff(rules: Rules, content: string, blocked: bool, d: Decision)
    requires (forall t :: t in d.tags <==> Tagged(rules, content, blocked, t)) && Follows(Enforce, d)
    ensures d.action == if NeverStored(rules, content, blocked) then Reject
                        else if Confidential(rules, content) then Review else Admit
  {
    TagsMean(rules, content, blocked, d.tags);
  }

  /** In enforce mode unsafe or vague writes are rejected, sensitive ones held, and others admitted. */
  predicate Follows(mode: Mode, d: Decision) {
    && (d.action == Reject <==> mode == Enforce && !Clean(d.tags))
    && (d.action == Review <==> mode == Enforce && Clean(d.tags) && Sensitive(d.tags))
    && (d.action == Admit <==> d.reasons == [])
  }

  method Evaluate(rules: Rules, content: string, source: string, mode: Mode, blockedSources: set<string>) returns (d: Decision)
    ensures forall t :: t in d.tags <==> Tagged(rules, content, source != "" && source in blockedSources, t)
    ensures InPlace(d.tags, 9)
    ensures Follows(mode, d)
    ensures d.action == if mode != Enforce then Admit
                        else if NeverStored(rules, content, source != "" && source in blockedSources) then Reject
                        else if Confidential(rules, content) then Review else Admit
  {
    var tags := DetectRiskTags(rules, content);
    var blocked := source != "" && source in blockedSources;
    tags := AddTag(tags, blocked, BlockedSource);
    if mode == Off {
      return Decision(Admit, tags, []);
    }
    d := Decide(tags, source, mode);
    TagsMean(rules, content, blocked, tags);
  }

  const HELD := "sensitive data (PII/PHI/MNPI) requires review before admission"
  const TOO_VAGUE := "too vague to be a durable memory"
  const INJECTED := "prompt-injection / instruction-override detected"

  function OnBlockList(source: string): string {
    "source '" + source + "' is on the block list"
  }

  /** The reasons given for what is refused, in their order. */
  method RefusalReasons(tags: seq<Tag>, source: string) returns (reasons: seq<string>)
    ensures reasons == (if InjectionTag in tags then [INJECTED] else []) + (if BlockedSource in tags then [OnBlockList(source)] else [])
    ensures InjectionTag in tags || BlockedSource in tags ==> reasons != []
  {
    reasons := [];
    if InjectionTag in tags {
      reasons := reasons + [INJECTED];
    }
    if BlockedSource in tags {
      reasons := reasons + [OnBlockList(source)];
    }
  }

  /** The decision on a write with these tags. */
  method Decide(tags: seq<Tag>, source: string, mode: Mode) returns (d: Decision)
    ensures d.tags == tags && Follows(mode, d)
    ensures d.action.Review? ==> d.reasons == [HELD]
    ensures d.action.Reject? ==>
              d.reasons == if InjectionTag in tags || BlockedSource in tags
                           then (if InjectionTag in tags then [INJECTED] else []) + (if BlockedSource in tags then [OnBlockList(source)] else [])
                           else [TOO_VAGUE]
  {
    var unsafe := InjectionTag in tags || BlockedSource in tags;
    var highRisk := exists t :: t in tags && HighRisk(t);
    if mode == Enforce {
      if unsafe {
        var reasons := RefusalReasons(tags, source);
        return Decision(Reject, tags, reasons);
      }
      if Vague in tags {
        return Decision(Reject, tags, [TOO_VAGUE]);
      }
      if highRisk {
        return Decision(Review, tags, [HELD]);
      }
    }
    return Decision(Admit, tags, []);
  }
}
