/**
  The prompt hook's run and its receipt, and the benchmark's check of that receipt.
  Sources: integrations/codex/user_prompt_submit_recall.py, `process_event` and `_finish`;
  agentmem/benchmarks/codex_sol_installed_plugin_ab.py, `_receipt_violations`.
*/
module HookReceipt {
  import opened Prelude
  import opened JsonText
  import opened ContextRenderer

  const MAX_CONTEXT_TOKENS: nat := 768
  const HOOK_MIN_SCORE: real := 0.45

  datatype Settings = Settings(backend: string, maxTokens: nat, minScore: real)

  datatype Query = Query(text: string, origin: string)

  /** A hook event; a prompt that is not a string is `None`. */
  datatype Event = Event(name: string, prompt: Option<string>)

  /** What retrieval does when asked: raises, or replies; a malformed memory list is `None`. */
  datatype Recall =
    | Raised
    | Reply(transport: string, memories: Option<seq<Memory>>, degraded: bool, windowComplete: bool, graphComplete: bool)

  datatype Status = Injected | NoMatch | BelowThreshold | SkippedBudget | SkippedDegraded | SkippedInvalidInput | SkippedError

  datatype Receipt = Receipt(
    promptHash: string,
    queryHash: string,
    queryOrigin: string,
    contextHash: string,
    backend: string,
    transport: string,
    memoryCount: nat,
    tokenEstimate: nat,
    truncated: bool,
    degraded: bool,
    windowComplete: bool,
    graphComplete: bool,
    injected: bool,
    status: Status,
    topScore: Option<real>)

  predicate Blank(s: string) {
    forall c :: c in s ==> IsSpace(c)
  }

  function PromptText(event: Event): string {
    if event.prompt.Some? then event.prompt.value else ""
  }

  function QueryOf(event: Event, find: string -> Query): Query {
    if event.prompt.Some? then find(event.prompt.value) else Query("", "invalid")
  }

  predicate Asks(event: Event, query: Query) {
    event.name == "UserPromptSubmit" && !Blank(query.text)
  }

  /** A record of the first memory worth showing fits behind the prefix, whole or cut. */
  predicate HasRoom(shown: seq<Memory>, maxTokens: nat) {
    shown != [] && !Refused(Lines(PREFIX, []), shown[0], 4 * maxTokens)
  }

  predicate SoundReply(recall: Recall) {
    recall.Reply? && recall.memories.Some? ==> forall m :: m in recall.memories.value ==> Sanitized(m)
  }

  /** The decision on a well-formed reply. */
  function Verdict(memories: seq<Memory>, degraded: bool, settings: Settings): Status {
    if degraded then SkippedDegraded
    else if memories == [] then NoMatch
    else if Eligible(memories, settings.minScore) == [] then BelowThreshold
    else if HasRoom(Shown(Eligible(memories, settings.minScore)), settings.maxTokens) then Injected
    else SkippedBudget
  }

  /** The decision of a run, from its inputs alone. */
  function Outcome(event: Event, query: Query, settings: Settings, recall: Recall): Status {
    if !Asks(event, query) then SkippedInvalidInput
    else if recall.Raised? || recall.memories.None? then SkippedError
    else Verdict(recall.memories.value, recall.degraded, settings)
  }

  /**
    Every decision and what calls for it: the event and its query, the reply, its flag, its
    memories, their scores, and the room for the first one with any content.
  */
  lemma OutcomeInWords(event: Event, query: Query, settings: Settings, recall: Recall)
    ensures var asks := event.name == "UserPromptSubmit" && exists i :: 0 <= i < |query.text| && !IsSpace(query.text[i]);
            var status := Outcome(event, query, settings, recall);
            && (status == SkippedInvalidInput <==> !asks)
            && (status == SkippedError <==> asks && (recall == Raised || recall.memories == None))
            && (asks && recall != Raised && recall.memories != None ==>
                  var memories := recall.memories.value;
                  var clearing := exists i :: 0 <= i < |memories| && Clears(memories[i], settings.minScore);
                  var room := HasRoom(Shown(Eligible(memories, settings.minScore)), settings.maxTokens);
                  && (status == SkippedDegraded <==> recall.degraded)
                  && (status == NoMatch <==> !recall.degraded && |memories| == 0)
                  && (status == BelowThreshold <==> !recall.degraded && |memories| > 0 && !clearing)
                  && (status == SkippedBudget <==> !recall.degraded && clearing && !room)
                  && (status == Injected <==> !recall.degraded && clearing && room))
  {
    assert Blank(query.text) <==> !exists i :: 0 <= i < |query.text| && !IsSpace(query.text[i]);
    if recall.Reply? && recall.memories.Some? {
      SomeEligibleIff(recall.memories.value, settings.minScore);
    }
  }

  lemma {:induction false} SomeEligibleIff(memories: seq<Memory>, minScore: real)
    ensures Eligible(memories, minScore) != [] <==> exists i :: 0 <= i < |memories| && Clears(memories[i], minScore)
  {
    if memories != [] {
      SomeEligibleIff(memories[..|memories| - 1], minScore);
    }
  }

  /** The injected context is the rendering of the reply, and the receipt describes it. */
  predicate Describes(receipt: Receipt, context: string, memories: seq<Memory>, settings: Settings,
                      sha256: string -> string, r: Rendered, cut: Option<nat>) {
    && Renders(PREFIX, memories, settings.minScore, 4 * settings.maxTokens, r, cut)
    && context == r.context
    && receipt.memoryCount == r.count
    && receipt.truncated == r.truncated
    && receipt.topScore == r.topScore
    && receipt.contextHash == sha256(context)
    && receipt.tokenEstimate == (|context| + 3) / 4
  }

  /** The reply's own flags, once there is a well-formed reply; otherwise the defaults. */
  predicate Reports(event: Event, query: Query, recall: Recall, receipt: Receipt) {
    var replied := Asks(event, query) && recall.Reply?;
    && (receipt.transport == "daemon" <==> replied && recall.transport == "daemon")
    && (receipt.transport == "daemon" || receipt.transport == "direct")
    && (if replied && recall.memories.Some?
        then
          && receipt.degraded == recall.degraded
          && receipt.windowComplete == recall.windowComplete && receipt.graphComplete == recall.graphComplete
        else !receipt.degraded && receipt.windowComplete && receipt.graphComplete)
  }

  /** What the receipt says of an injection is backed by the reply, and it says nothing of one otherwise. */
  predicate Backed(event: Event, settings: Settings, query: Query, recall: Recall, sha256: string -> string, receipt: Receipt) {
    && receipt.promptHash == sha256(PromptText(event)) && receipt.queryHash == sha256(query.text)
    && receipt.backend == settings.backend && receipt.queryOrigin == query.origin
    && Reports(event, query, recall, receipt)
    && (receipt.injected <==> receipt.status == Injected)
    && (if receipt.injected
        then
          && 1 <= receipt.memoryCount && 1 <= receipt.tokenEstimate <= settings.maxTokens && !receipt.degraded
          && recall.Reply? && recall.memories.Some?
          && Eligible(recall.memories.value, settings.minScore) != []
          && receipt.topScore == TopScore(recall.memories.value)
        else receipt.memoryCount == 0 && receipt.tokenEstimate == 0 && receipt.contextHash == sha256(""))
  }

  /** Renders the memories of a reply and settles what the hook does with the rendering. */
  method RenderReply(memories: seq<Memory>, degraded: bool, settings: Settings)
    returns (r: Rendered, status: Status)
    requires forall m :: m in memories ==> Sanitized(m)
    ensures exists cut :: Renders(PREFIX, memories, settings.minScore, 4 * settings.maxTokens, r, cut)
    ensures status == Verdict(memories, degraded, settings)
    ensures status == Injected ==> r.count > 0 && 0 < |r.context| <= 4 * settings.maxTokens
    ensures status == Injected ==> Eligible(memories, settings.minScore) != [] && r.topScore == TopScore(memories)
  {
    r := RenderContext(memories, settings.minScore, settings.maxTokens);
    ghost var cut :| Renders(PREFIX, memories, settings.minScore, 4 * settings.maxTokens, r, cut);
    RoomIff(memories, settings, r, cut);
    if degraded {
      status := SkippedDegraded;
    } else if memories == [] {
      status := NoMatch;
    } else if r.eligible == 0 {
      status := BelowThreshold;
    } else if r.context == "" {
      status := SkippedBudget;
    } else {
      status := Injected;
    }
  }

  /** The part of the run that starts once a well-formed reply is in. */
  method FinishReply(base: Receipt, memories: seq<Memory>, recall: Recall, settings: Settings, sha256: string -> string)
    returns (context: Option<string>, receipt: Receipt)
    requires recall.Reply? && forall m :: m in memories ==> Sanitized(m)
    requires base.memoryCount == 0 && base.tokenEstimate == 0 && base.contextHash == sha256("") && !base.injected
    ensures receipt.status == Verdict(memories, recall.degraded, settings)
    ensures receipt.promptHash == base.promptHash && receipt.queryHash == base.queryHash
    ensures receipt.backend == base.backend && receipt.queryOrigin == base.queryOrigin && receipt.transport == base.transport
    ensures receipt.degraded == recall.degraded
    ensures receipt.windowComplete == recall.windowComplete && receipt.graphComplete == recall.graphComplete
    ensures receipt.injected <==> receipt.status == Injected
    ensures context.Some? <==> receipt.status == Injected
    ensures context.Some? ==> exists r, cut :: Describes(receipt, context.value, memories, settings, sha256, r, cut)
    ensures context.Some? ==>
              && 1 <= receipt.memoryCount && 1 <= receipt.tokenEstimate <= settings.maxTokens
              && Eligible(memories, settings.minScore) != [] && receipt.topScore == TopScore(memories)
    ensures context.None? ==>
              receipt.memoryCount == 0 && receipt.tokenEstimate == 0 && receipt.contextHash == sha256("")
  {
    context := None;
    var r, status := RenderReply(memories, recall.degraded, settings);
    receipt := base.(degraded := recall.degraded, windowComplete := recall.windowComplete,
      graphComplete := recall.graphComplete, truncated := r.truncated, topScore := r.topScore, status := status);
    if status == Injected {
      receipt := receipt.(contextHash := sha256(r.context), memoryCount := r.count,
        tokenEstimate := (|r.context| + 3) / 4, injected := true);
      context := Some(r.context);
      ghost var cut :| Renders(PREFIX, memories, settings.minScore, 4 * settings.maxTokens, r, cut);
      assert Describes(receipt, r.context, memories, settings, sha256, r, cut);
    }
  }

  method ProcessEvent(event: Event, settings: Settings, find: string -> Query, recall: Recall,
                      sha256: string -> string)
    returns (context: Option<string>, receipt: Receipt)
    requires SoundReply(recall)
    ensures receipt.status == Outcome(event, QueryOf(event, find), settings, recall)
    ensures Backed(event, settings, QueryOf(event, find), recall, sha256, receipt)
    ensures context.Some? <==> receipt.status == Injected
    ensures context.Some? ==>
              exists r, cut :: Describes(receipt, context.value, recall.memories.value, settings, sha256, r, cut)
    ensures var query := if event.prompt.Some? then find(event.prompt.value) else Query("", "invalid");
            && receipt.promptHash == sha256(if event.prompt.Some? then event.prompt.value else "")
            && receipt.queryHash == sha256(query.text) && receipt.queryOrigin == query.origin
            && receipt.backend == settings.backend
            && receipt.transport == if receipt.status != SkippedInvalidInput && recall.Reply? && recall.transport == "daemon"
                                    then "daemon" else "direct"
    ensures context.Some? ==>
              && receipt.contextHash == sha256(context.value) && receipt.tokenEstimate == (|context.value| + 3) / 4
              && receipt.memoryCount >= 1 && |context.value| <= 4 * settings.maxTokens
    ensures context.None? ==>
              receipt.contextHash == sha256("") && receipt.tokenEstimate == 0 && receipt.memoryCount == 0
  {
    var query := QueryOf(event, find);
    context := None;
    receipt := Receipt(sha256(PromptText(event)), sha256(query.text), query.origin, sha256(""),
                       settings.backend, "direct", 0, 0, false, false, true, true, false, SkippedInvalidInput, None);
    if !Asks(event, query) {
      return;
    }
    if recall.Raised? {
      receipt := receipt.(status := SkippedError);
      return;
    }
    if recall.transport == "direct" || recall.transport == "daemon" {
      receipt := receipt.(transport := recall.transport);
    }
    if recall.memories.None? {
      receipt := receipt.(status := SkippedError);
      return;
    }
    context, receipt := FinishReply(receipt, recall.memories.value, recall, settings, sha256);
  }

  lemma {:induction false} JoinGrows(lines: seq<string>, n: nat)
    requires 0 < n <= |lines|
    ensures |JoinLines(lines[..n])| <= |JoinLines(lines)|
    decreases |lines|
  {
    if n == |lines| {
      assert lines[..n] == lines;
    } else {
      JoinGrows(lines[..|lines| - 1], n);
      assert lines[..|lines| - 1][..n] == lines[..n];
    }
  }

  /** Some record is printed exactly when the first one has room, whole or cut. */
  lemma RoomForFirst(prefix: string, shown: seq<Memory>, budget: nat, count: nat, cut: Option<nat>)
    requires Filled(prefix, shown, budget, count, cut) && forall m :: m in shown ==> Sanitized(m)
    requires count > 0 ==> |JoinLines(FilledLines(prefix, shown, count, cut))| <= budget
    ensures count > 0 <==> shown != [] && !Refused(Lines(prefix, []), shown[0], budget)
  {
    if count == 0 {
      assert shown[..0] == [];
    } else if cut.Some? && count == 1 {
      assert shown[..0] == [] && shown[0] in shown;
      ShorterFits(Lines(prefix, []), shown[0].content, shown[0].suffix, budget, 0, cut.value);
    } else {
      var lines := FilledLines(prefix, shown, count, cut);
      JoinGrows(lines, 2);
      FirstLines(prefix, shown, count, cut);
    }
  }

  lemma FirstLines(prefix: string, shown: seq<Memory>, count: nat, cut: Option<nat>)
    requires 0 < count <= |shown|
    requires cut.Some? ==> count > 1 && cut.value <= |shown[count - 1].content|
    ensures FilledLines(prefix, shown, count, cut)[..2] == Lines(prefix, []) + [Record(shown[0].content, shown[0].suffix)]
  {
    FilledLine(prefix, shown, count, cut, 0);
  }

  /** Nothing is rendered exactly when there is no room for the first memory worth showing. */
  lemma RoomIff(memories: seq<Memory>, settings: Settings, r: Rendered, cut: Option<nat>)
    requires Renders(PREFIX, memories, settings.minScore, 4 * settings.maxTokens, r, cut)
    requires |r.context| <= 4 * settings.maxTokens && forall m :: m in memories ==> Sanitized(m)
    ensures r.count > 0 <==> HasRoom(Shown(Eligible(memories, settings.minScore)), settings.maxTokens)
  {
    EligibleIn(memories, settings.minScore);
    RoomForFirst(PREFIX, Shown(Eligible(memories, settings.minScore)), 4 * settings.maxTokens, r.count, cut);
  }

  /** A run of the benchmark: with project memory (the candidate) or without (the baseline). */
  datatype RunSpec = RunSpec(prompt: string, candidate: bool)

  datatype Requirement =
    | PromptHash | LocalRuntime | NotDegraded | WindowComplete | GraphComplete
    | MemoryInjected | SomeMemory | WithinTokens | Relevant | ExplicitQuery
    | NothingInjected | NoMemory

  /** What is required of receipts in either mode, in the candidate mode, and in the baseline mode. */
  predicate Required(spec: RunSpec, q: Requirement) {
    match q
    case MemoryInjected | SomeMemory | WithinTokens | Relevant | ExplicitQuery => spec.candidate
    case NothingInjected | NoMemory => !spec.candidate
    case _ => true
  }

  predicate Meets(spec: RunSpec, receipt: Receipt, sha256: string -> string, q: Requirement) {
    match q
    case PromptHash => receipt.promptHash == sha256(spec.prompt)
    case LocalRuntime => receipt.backend == "local"
    case NotDegraded => !receipt.degraded
    case WindowComplete => receipt.windowComplete
    case GraphComplete => receipt.graphComplete
    case MemoryInjected => receipt.status == Injected && receipt.injected
    case SomeMemory => receipt.memoryCount >= 1
    case WithinTokens => 1 <= receipt.tokenEstimate <= MAX_CONTEXT_TOKENS
    case Relevant => receipt.topScore.Some? && receipt.topScore.value >= HOOK_MIN_SCORE
    case ExplicitQuery => receipt.queryOrigin == "explicit_tag"
    case NothingInjected => receipt.status == NoMatch && !receipt.injected
    case NoMemory => receipt.memoryCount == 0
  }

  /** The order in which the requirements of a mode are looked at. */
  function Rank(q: Requirement): nat {
    match q
    case PromptHash => 0 case LocalRuntime => 1 case NotDegraded => 2 case WindowComplete => 3 case GraphComplete => 4
    case MemoryInjected => 5 case SomeMemory => 6 case WithinTokens => 7 case Relevant => 8 case ExplicitQuery => 9
    case NothingInjected => 5 case NoMemory => 6
  }

  predicate Violated(spec: RunSpec, receipt: Receipt, sha256: string -> string, q: Requirement) {
    Required(spec, q) && !Meets(spec, receipt, sha256, q)
  }

  /** The list holds the violated ones among the first `n` requirements, each once and in their order. */
  predicate ListsViolated(spec: RunSpec, receipt: Receipt, sha256: string -> string, list: seq<Requirement>, n: nat) {
    && (forall q :: q in list <==> Rank(q) < n && Violated(spec, receipt, sha256, q))
    && forall i, j :: 0 <= i < j < |list| ==> Rank(list[i]) < Rank(list[j])
  }

  /** One `if` of the source: `bad` is its condition, `q` what it finds violated. */
  method AddIf(bad: bool, q: Requirement, ghost spec: RunSpec, ghost receipt: Receipt, ghost sha256: string -> string, list: seq<Requirement>)
    returns (longer: seq<Requirement>)
    requires Required(spec, q) && (bad <==> !Meets(spec, receipt, sha256, q))
    requires ListsViolated(spec, receipt, sha256, list, Rank(q))
    ensures ListsViolated(spec, receipt, sha256, longer, Rank(q) + 1)
  {
    longer := list;
    if bad {
      longer := longer + [q];
    }
    assert forall p :: Rank(p) == Rank(q) && Required(spec, p) ==> p == q;
    assert forall i :: 0 <= i < |list| ==> longer[i] == list[i] && list[i] in list;
  }

  /** Every requirement of the mode is met. */
  ghost predicate Passes(spec: RunSpec, receipt: Receipt, sha256: string -> string) {
    forall q :: !Violated(spec, receipt, sha256, q)
  }

  /** The violations are the requirements of the mode that are not met, in their order. */
  method ReceiptViolations(spec: RunSpec, receipt: Receipt, sha256: string -> string) returns (violations: seq<Requirement>)
    ensures forall q :: q in violations <==> Violated(spec, receipt, sha256, q)
    ensures forall i, j :: 0 <= i < j < |violations| ==> Rank(violations[i]) < Rank(violations[j])
    ensures violations == [] <==> Passes(spec, receipt, sha256)
  {
    violations := CommonViolations(spec, receipt, sha256);
    if spec.candidate {
      violations := CandidateViolations(spec, receipt, sha256, violations);
    } else {
      violations := BaselineViolations(spec, receipt, sha256, violations);
    }
    assert violations != [] ==> violations[0] in violations;
  }

  method CommonViolations(spec: RunSpec, receipt: Receipt, sha256: string -> string) returns (violations: seq<Requirement>)
    ensures ListsViolated(spec, receipt, sha256, violations, 5)
  {
    violations := [];
    violations := AddIf(receipt.promptHash != sha256(spec.prompt), PromptHash, spec, receipt, sha256, violations);
    violations := AddIf(receipt.backend != "local", LocalRuntime, spec, receipt, sha256, violations);
    violations := AddIf(receipt.degraded, NotDegraded, spec, receipt, sha256, violations);
    violations := AddIf(!receipt.windowComplete, WindowComplete, spec, receipt, sha256, violations);
    violations := AddIf(!receipt.graphComplete, GraphComplete, spec, receipt, sha256, violations);
  }

  method CandidateViolations(spec: RunSpec, receipt: Receipt, sha256: string -> string, common: seq<Requirement>)
    returns (violations: seq<Requirement>)
    requires spec.candidate && ListsViolated(spec, receipt, sha256, common, 5)
    ensures ListsViolated(spec, receipt, sha256, violations, 10)
  {
    violations := common;
    violations := AddIf(receipt.status != Injected || !receipt.injected, MemoryInjected, spec, receipt, sha256, violations);
    violations := AddIf(receipt.memoryCount < 1, SomeMemory, spec, receipt, sha256, violations);
    violations := AddIf(!(1 <= receipt.tokenEstimate <= MAX_CONTEXT_TOKENS), WithinTokens, spec, receipt, sha256, violations);
    violations := AddIf(receipt.topScore.None? || receipt.topScore.value < HOOK_MIN_SCORE, Relevant, spec, receipt, sha256, violations);
    violations := AddIf(receipt.queryOrigin != "explicit_tag", ExplicitQuery, spec, receipt, sha256, violations);
  }

  method BaselineViolations(spec: RunSpec, receipt: Receipt, sha256: string -> string, common: seq<Requirement>)
    returns (violations: seq<Requirement>)
    requires !spec.candidate && ListsViolated(spec, receipt, sha256, common, 5)
    ensures ListsViolated(spec, receipt, sha256, violations, 7)
  {
    violations := common;
    violations := AddIf(receipt.status != NoMatch || receipt.injected, NothingInjected, spec, receipt, sha256, violations);
    violations := AddIf(receipt.memoryCount != 0, NoMemory, spec, receipt, sha256, violations);
  }

  /** If a memory reaches a positive threshold, so does the top score. */
  lemma {:induction false} TopScoreClears(memories: seq<Memory>, minScore: real)
    requires minScore > 0.0 && Eligible(memories, minScore) != []
    ensures TopScore(memories).Some? && TopScore(memories).value >= minScore
  {
    var init := memories[..|memories| - 1];
    if Eligible(init, minScore) != [] {
      TopScoreClears(init, minScore);
    }
  }

  /**
    The producer meets the consumer: under the benchmark's own settings every candidate receipt
    that reports an injection passes, once the search was complete and the query explicit.
  */
  lemma CandidatePasses(event: Event, settings: Settings, query: Query, recall: Recall, sha256: string -> string, receipt: Receipt)
    requires Backed(event, settings, query, recall, sha256, receipt) && event.prompt.Some?
    requires settings.backend == "local" && settings.maxTokens <= MAX_CONTEXT_TOKENS && settings.minScore >= HOOK_MIN_SCORE
    ensures Passes(RunSpec(event.prompt.value, true), receipt, sha256) <==>
              && receipt.injected && receipt.windowComplete && receipt.graphComplete
              && receipt.queryOrigin == "explicit_tag"
  {
    var spec := RunSpec(event.prompt.value, true);
    if receipt.injected {
      TopScoreClears(recall.memories.value, settings.minScore);
    }
    assert Meets(spec, receipt, sha256, PromptHash) && Meets(spec, receipt, sha256, LocalRuntime);
    if Passes(spec, receipt, sha256) {
      assert !Violated(spec, receipt, sha256, MemoryInjected) && !Violated(spec, receipt, sha256, WindowComplete);
      assert !Violated(spec, receipt, sha256, GraphComplete) && !Violated(spec, receipt, sha256, ExplicitQuery);
    }
  }

  /** A baseline receipt passes exactly on an empty reply from a complete, undegraded local search. */
  lemma BaselinePasses(event: Event, settings: Settings, query: Query, recall: Recall, sha256: string -> string, receipt: Receipt)
    requires Backed(event, settings, query, recall, sha256, receipt) && event.prompt.Some?
    requires receipt.status == Outcome(event, query, settings, recall)
    ensures Passes(RunSpec(event.prompt.value, false), receipt, sha256) <==>
              && settings.backend == "local" && Asks(event, query)
              && recall.Reply? && recall.memories == Some([])
              && !recall.degraded && recall.windowComplete && recall.graphComplete
  {
    BaselineAsks(RunSpec(event.prompt.value, false), receipt, sha256);
  }

  /** What a candidate receipt must say, in numbers. */
  lemma CandidateAsks(spec: RunSpec, receipt: Receipt, sha256: string -> string)
    requires spec.candidate
    ensures Passes(spec, receipt, sha256) <==>
              && receipt.promptHash == sha256(spec.prompt)
              && receipt.backend == "local" && !receipt.degraded && receipt.windowComplete && receipt.graphComplete
              && receipt.status == Injected && receipt.injected && receipt.memoryCount > 0
              && 0 < receipt.tokenEstimate < 769
              && receipt.topScore.Some? && receipt.topScore.value >= 0.45
              && receipt.queryOrigin == "explicit_tag"
  {
    if Passes(spec, receipt, sha256) {
      assert !Violated(spec, receipt, sha256, PromptHash) && !Violated(spec, receipt, sha256, LocalRuntime);
      assert !Violated(spec, receipt, sha256, NotDegraded) && !Violated(spec, receipt, sha256, WindowComplete);
      assert !Violated(spec, receipt, sha256, GraphComplete) && !Violated(spec, receipt, sha256, MemoryInjected);
      assert !Violated(spec, receipt, sha256, SomeMemory) && !Violated(spec, receipt, sha256, WithinTokens);
      assert !Violated(spec, receipt, sha256, Relevant) && !Violated(spec, receipt, sha256, ExplicitQuery);
    }
  }

  /** The order of the list. */
  lemma RankInWords()
    ensures Rank(PromptHash) < Rank(LocalRuntime) < Rank(NotDegraded) < Rank(WindowComplete) < Rank(GraphComplete)
    ensures Rank(GraphComplete) < Rank(MemoryInjected) < Rank(SomeMemory) < Rank(WithinTokens) < Rank(Relevant) < Rank(ExplicitQuery)
    ensures Rank(GraphComplete) < Rank(NothingInjected) < Rank(NoMemory)
  {
  }

  lemma BaselineAsks(spec: RunSpec, receipt: Receipt, sha256: string -> string)
    requires !spec.candidate && receipt.promptHash == sha256(spec.prompt)
    ensures Passes(spec, receipt, sha256) <==>
              && receipt.backend == "local" && !receipt.degraded && receipt.windowComplete && receipt.graphComplete
              && receipt.status == NoMatch && !receipt.injected && receipt.memoryCount == 0
  {
    if Passes(spec, receipt, sha256) {
      assert !Violated(spec, receipt, sha256, LocalRuntime) && !Violated(spec, receipt, sha256, NotDegraded);
      assert !Violated(spec, receipt, sha256, WindowComplete) && !Violated(spec, receipt, sha256, GraphComplete);
      assert !Violated(spec, receipt, sha256, NothingInjected) && !Violated(spec, receipt, sha256, NoMemory);
    }
  }
}
