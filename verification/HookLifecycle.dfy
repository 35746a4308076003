/**
  The fail-fast monitor and the final validator of installed-hook notifications.
  Source: agentmem/benchmarks/codex_sol_installed_plugin_ab.py, `_HookLifecycleMonitor`,
  `_validate_hook_lifecycle`, `_matches_turn`, `_run_app_server_turn`.
*/
module HookLifecycle {
  import opened Prelude

  /**
    A JSON value as the code distinguishes it: missing or null, a string, another scalar, or an
    object or list, which cannot be hashed, so that testing it for membership in a set raises.
  */
  datatype Val = Absent | Text(s: string) | Scalar(n: int) | Compound(n: int)

  /** `sourcePath`: not a string, a path that cannot be resolved, or its resolved key. */
  datatype SourcePath = NotText | Unresolvable | Resolved(key: string)

  datatype Run = Run(
    id: Val,
    eventName: Val,
    status: Val,
    source: Val,
    handlerType: Val,
    scope: Val,
    executionMode: Val,
    sourcePath: SourcePath,
    pluginId: Val,
    key: Val)

  /** None where the message has no object under `params` or `run`. */
  datatype Params = Params(threadId: Val, turnId: Val, run: Option<Run>)
  datatype Message = Message(method_: Val, params: Option<Params>)

  const STARTED := "hook/started"
  const COMPLETED := "hook/completed"
  const RESPONSE := "rawResponse/completed"

  datatype Hook = SessionStart | UserPromptSubmit

  function EventName(h: Hook): string {
    match h case SessionStart => "sessionStart" case UserPromptSubmit => "userPromptSubmit"
  }

  function Scope(h: Hook): string {
    match h case SessionStart => "thread" case UserPromptSubmit => "turn"
  }

  function HookNamed(v: Val): Option<Hook> {
    if v == Text(EventName(SessionStart)) then Some(SessionStart)
    else if v == Text(EventName(UserPromptSubmit)) then Some(UserPromptSubmit)
    else None
  }

  /** The thread under measurement, the key of the installed hooks.json, and the plugin's identity. */
  datatype Context = Context(thread: string, source: string, pluginId: string)

  predicate IsHookMessage(m: Message) {
    (m.method_ == Text(STARTED) || m.method_ == Text(COMPLETED)) && m.params.Some? && m.params.value.run.Some?
  }

  predicate InThread(c: Context, m: Message)
    requires m.params.Some?
  {
    m.params.value.threadId == Text(c.thread)
  }

  function RunOf(m: Message): Run
    requires IsHookMessage(m)
  {
    m.params.value.run.value
  }

  predicate ExactSource(c: Context, r: Run) {
    r.sourcePath == Resolved(c.source)
  }

  predicate NonEmptyText(v: Val) {
    v.Text? && v.s != ""
  }

  predicate MatchesTurn(c: Context, turn: string, m: Message) {
    m.params.Some? && InThread(c, m) && m.params.value.turnId == Text(turn)
  }

  predicate IsProviderResponse(c: Context, turn: string, m: Message) {
    m.method_ == Text(RESPONSE) && MatchesTurn(c, turn, m)
  }

  // ---- the monitor -------------------------------------------------------------------

  datatype FailureKind = InvalidSource | InvalidIdentity | NonCompletedStatus
  datatype Attribution = MatchingStart | InstalledSource | ExplicitIdentity
  datatype Observation =
    | Quiet
    | Failed(hook: Hook, kind: FailureKind, attribution: Attribution)
    | TypeErrorRaised

  predicate StartsWith(s: string, prefix: string) {
    prefix <= s
  }

  predicate ExplicitLians(c: Context, r: Run) {
    || r.pluginId == Text(c.pluginId)
    || (r.key.Text? && StartsWith(r.key.s, c.pluginId + ":hooks/hooks.json:"))
  }

  /** A start the monitor remembers. */
  predicate Tracks(c: Context, m: Message) {
    && IsHookMessage(m)
    && m.method_ == Text(STARTED)
    && InThread(c, m)
    && ExactSource(c, RunOf(m))
    && HookNamed(RunOf(m).eventName).Some?
    && NonEmptyText(RunOf(m).id)
  }

  function TrackedAfter(c: Context, started: map<string, Hook>, m: Message): map<string, Hook> {
    if Tracks(c, m) then started[RunOf(m).id.s := HookNamed(RunOf(m).eventName).value] else started
  }

  function TrackedHook(started: map<string, Hook>, r: Run): Option<Hook> {
    if r.id.Text? && r.id.s in started then Some(started[r.id.s]) else None
  }

  /** Everything a completion of hook `h` must carry besides its source, thread and turn. */
  predicate CommandRun(h: Hook, r: Run) {
    && NonEmptyText(r.id)
    && r.source == Text("plugin")
    && r.handlerType == Text("command")
    && r.scope == Text(Scope(h))
    && r.executionMode == Text("sync")
  }

  /** UserPromptSubmit must name the bound turn; SessionStart may name it or none. */
  predicate TurnAllowed(h: Hook, turn: Option<string>, turnId: Val) {
    match h
    case UserPromptSubmit => turn.Some? && turnId == Text(turn.value)
    case SessionStart => turnId == Absent || (turn.Some? && turnId == Text(turn.value))
  }

  /** The verdict on a completion attributed to hook `h`. */
  function JudgeCompletion(c: Context, turn: Option<string>, m: Message, h: Hook, via: Attribution): Observation
    requires IsHookMessage(m)
  {
    var r, turnId := RunOf(m), m.params.value.turnId;
    if !ExactSource(c, r) then Failed(h, InvalidSource, via)
    else if !InThread(c, m) || r.eventName != Text(EventName(h)) then Failed(h, InvalidIdentity, via)
    else if h.SessionStart? && turnId.Compound? then TypeErrorRaised
    else if !TurnAllowed(h, turn, turnId) then Failed(h, InvalidIdentity, via)
    else if r.status != Text("completed") then Failed(h, NonCompletedStatus, via)
    else if !CommandRun(h, r) then Failed(h, InvalidIdentity, via)
    else Quiet
  }

  /** What the monitor answers to `m` after tracking `started`, with `turn` bound or not. */
  function Judge(c: Context, turn: Option<string>, started: map<string, Hook>, m: Message): Observation {
    if m.params.None? || m.method_ == Text(RESPONSE) then Quiet
    else if m.method_.Compound? then TypeErrorRaised
    else if !IsHookMessage(m) then Quiet
    else
      var r := RunOf(m);
      if m.method_ == Text(STARTED) then
        if InThread(c, m) && ExactSource(c, r) && r.eventName.Compound? then TypeErrorRaised else Quiet
      else if TrackedHook(started, r).Some? then
        JudgeCompletion(c, turn, m, TrackedHook(started, r).value, MatchingStart)
      else if InThread(c, m) && r.eventName.Compound? then TypeErrorRaised
      else if InThread(c, m) && HookNamed(r.eventName).Some? && (ExactSource(c, r) || ExplicitLians(c, r)) then
        JudgeCompletion(c, turn, m, HookNamed(r.eventName).value,
                        if ExactSource(c, r) then InstalledSource else ExplicitIdentity)
      else Quiet
  }

  /** The runs tracked after a whole prefix. */
  function Tracked(c: Context, prefix: seq<Message>): map<string, Hook> {
    if prefix == [] then map[]
    else TrackedAfter(c, Tracked(c, prefix[..|prefix| - 1]), prefix[|prefix| - 1])
  }

  class HookLifecycleMonitor {
    const context: Context
    var turnId: Option<string>
    var startedRuns: map<string, Hook>
    var providerResponseObserved: bool

    constructor (context: Context)
      ensures this.context == context
      ensures turnId == None && startedRuns == Tracked(context, []) && !providerResponseObserved
    {
      this.context := context;
      turnId, startedRuns, providerResponseObserved := None, map[], false;
    }

    method BindTurn(turn: string)
      modifies this`turnId
      ensures turnId == Some(turn)
    {
      turnId := Some(turn);
    }

    method Observe(m: Message) returns (o: Observation)
      modifies this`startedRuns, this`providerResponseObserved
      ensures o == Judge(context, turnId, old(startedRuns), m)
      ensures startedRuns == TrackedAfter(context, old(startedRuns), m)
      ensures providerResponseObserved ==
              (old(providerResponseObserved) || (turnId.Some? && IsProviderResponse(context, turnId.value, m)))
    {
      if m.params.None? {
        return Quiet;
      }
      var params := m.params.value;
      if m.method_ == Text(RESPONSE) {
        if turnId.Some? && params.threadId == Text(context.thread) && params.turnId == Text(turnId.value) {
          providerResponseObserved := true;
        }
        return Quiet;
      }
      if m.method_.Compound? {
        return TypeErrorRaised;
      }
      if (m.method_ != Text(STARTED) && m.method_ != Text(COMPLETED)) || params.run.None? {
        return Quiet;
      }
      var run := params.run.value;
      var currentThread := params.threadId == Text(context.thread);
      var exactSource := ExactSource(context, run);
      var tracked := TrackedHook(startedRuns, run);
      if m.method_ == Text(STARTED) {
        if currentThread && exactSource {
          if run.eventName.Compound? {
            return TypeErrorRaised;
          }
          var reported := HookNamed(run.eventName);
          if reported.Some? && NonEmptyText(run.id) {
            startedRuns := startedRuns[run.id.s := reported.value];
          }
        }
        return Quiet;
      }
      var hook, attribution;
      if tracked.Some? {
        hook, attribution := tracked.value, MatchingStart;
      } else {
        if currentThread && run.eventName.Compound? {
          return TypeErrorRaised;
        }
        var reported := HookNamed(run.eventName);
        if !currentThread || reported.None? || !(exactSource || ExplicitLians(context, run)) {
          return Quiet;
        }
        hook, attribution := reported.value, if exactSource then InstalledSource else ExplicitIdentity;
      }
      if !exactSource {
        return Failed(hook, InvalidSource, attribution);
      }
      if !currentThread || run.eventName != Text(EventName(hook)) {
        return Failed(hook, InvalidIdentity, attribution);
      }
      if hook.UserPromptSubmit? {
        if turnId.None? || params.turnId != Text(turnId.value) {
          return Failed(hook, InvalidIdentity, attribution);
        }
      } else {
        if params.turnId.Compound? {
          return TypeErrorRaised;
        }
        if params.turnId != Absent && !(turnId.Some? && params.turnId == Text(turnId.value)) {
          return Failed(hook, InvalidIdentity, attribution);
        }
      }
      if run.status != Text("completed") {
        return Failed(hook, NonCompletedStatus, attribution);
      }
      if !CommandRun(hook, run) {
        return Failed(hook, InvalidIdentity, attribution);
      }
      return Quiet;
    }
  }

  /** What a monitor bound to `turn` answers to event `i` after observing all events before it. */
  function JudgeAt(c: Context, turn: Option<string>, events: seq<Message>, i: nat): Observation
    requires i < |events|
  {
    Judge(c, turn, Tracked(c, events[..i]), events[i])
  }

  lemma TrackedStep(c: Context, events: seq<Message>, i: nat)
    requires i < |events|
    ensures Tracked(c, events[..i + 1]) == TrackedAfter(c, Tracked(c, events[..i]), events[i])
  {
    assert events[..i + 1][..i] == events[..i];
  }

  /** Feed the events not seen yet to the monitor and stop at the first that is not quiet. */
  method InspectNewEvents(monitor: HookLifecycleMonitor, events: seq<Message>, seen: nat)
    returns (count: nat, o: Observation)
    requires seen <= |events| && monitor.startedRuns == Tracked(monitor.context, events[..seen])
    modifies monitor`startedRuns, monitor`providerResponseObserved
    ensures seen <= count <= |events| && monitor.startedRuns == Tracked(monitor.context, events[..count])
    ensures o.Quiet? ==> count == |events|
    ensures !o.Quiet? ==> seen < count && o == JudgeAt(monitor.context, monitor.turnId, events, count - 1)
    ensures forall i :: seen <= i < (if o.Quiet? then count else count - 1) ==>
              JudgeAt(monitor.context, monitor.turnId, events, i).Quiet?
  {
    count, o := seen, Quiet;
    while count < |events|
      invariant o.Quiet?
      invariant seen <= count <= |events| && monitor.startedRuns == Tracked(monitor.context, events[..count])
      invariant forall i :: seen <= i < count ==> JudgeAt(monitor.context, monitor.turnId, events, i).Quiet?
    {
      TrackedStep(monitor.context, events, count);
      o := monitor.Observe(events[count]);
      assert o == JudgeAt(monitor.context, monitor.turnId, events, count);
      count := count + 1;
      if !o.Quiet? {
        return;
      }
    }
  }

  // ---- the validator -----------------------------------------------------------------

  /** A notification of the installed hooks in the measured thread. */
  predicate Relevant(c: Context, m: Message) {
    && IsHookMessage(m)
    && InThread(c, m)
    && HookNamed(RunOf(m).eventName).Some?
    && ExactSource(c, RunOf(m))
  }

  /** The validator raises on this event instead of judging it. */
  predicate Unreadable(c: Context, m: Message) {
    || m.method_.Compound?
    || (IsHookMessage(m) && InThread(c, m)
        && (RunOf(m).eventName.Compound?
            || (HookNamed(RunOf(m).eventName).Some? && RunOf(m).sourcePath.Unresolvable?)))
  }

  predicate RightTurn(turn: string, m: Message)
    requires IsHookMessage(m) && HookNamed(RunOf(m).eventName).Some?
  {
    TurnAllowed(HookNamed(RunOf(m).eventName).value, Some(turn), m.params.value.turnId)
  }

  predicate IsStart(c: Context, h: Hook, m: Message) {
    && Relevant(c, m) && m.method_ == Text(STARTED) && HookNamed(RunOf(m).eventName) == Some(h)
  }

  predicate IsCompletion(c: Context, h: Hook, m: Message) {
    && Relevant(c, m) && m.method_ == Text(COMPLETED) && HookNamed(RunOf(m).eventName) == Some(h)
  }

  /** A start and a completion of `h` that describe one successful run. */
  predicate Pair(c: Context, h: Hook, start: Message, completion: Message) {
    && IsStart(c, h, start) && IsCompletion(c, h, completion)
    && CommandRun(h, RunOf(start)) && CommandRun(h, RunOf(completion))
    && RunOf(start).id == RunOf(completion).id
    && RunOf(start).status == Text("running") && RunOf(completion).status == Text("completed")
  }

  /** No event makes the validator raise, and each relevant one names this turn as its hook must. */
  ghost predicate Readable(c: Context, turn: string, events: seq<Message>) {
    && (forall i :: 0 <= i < |events| ==> !Unreadable(c, events[i]))
    && (forall i :: 0 <= i < |events| && Relevant(c, events[i]) ==> RightTurn(turn, events[i]))
  }

  /** Positions `a < b < p < q` hold the four notifications, and nothing else is relevant. */
  ghost predicate Shape(c: Context, turn: string, events: seq<Message>, a: nat, b: nat, p: nat, q: nat) {
    && a < b < p < q < |events|
    && (forall i :: 0 <= i < |events| ==> (Relevant(c, events[i]) <==> i == a || i == b || i == p || i == q))
    && Pair(c, SessionStart, events[a], events[b])
    && Pair(c, UserPromptSubmit, events[p], events[q])
    && (forall i :: 0 <= i < |events| && IsProviderResponse(c, turn, events[i]) ==> q < i)
  }

  /**
    The relevant notifications are exactly SessionStart started, SessionStart completed,
    UserPromptSubmit started, UserPromptSubmit completed, in that order, each pair one run of
    this turn, and no provider response of the turn comes before the last.
  */
  ghost predicate Lifecycle(c: Context, turn: string, events: seq<Message>) {
    && Readable(c, turn, events)
    && exists a, b, p, q :: Shape(c, turn, events, a, b, p, q)
  }

  datatype Phase = Started | Completed
  datatype Slot = Slot(hook: Hook, phase: Phase)

  function SlotOf(c: Context, m: Message): Option<Slot> {
    if Relevant(c, m) then
      Some(Slot(HookNamed(RunOf(m).eventName).value, if m.method_ == Text(STARTED) then Started else Completed))
    else None
  }

  /** The positions of slot `s`, in order. */
  function Positions(c: Context, events: seq<Message>, s: Slot): seq<nat> {
    if events == [] then []
    else
      var n := |events| - 1;
      Positions(c, events[..n], s) + if SlotOf(c, events[n]) == Some(s) then [n] else []
  }

  lemma {:induction false} PositionsMeaning(c: Context, events: seq<Message>, s: Slot)
    ensures forall i :: i in Positions(c, events, s) <==> 0 <= i < |events| && SlotOf(c, events[i]) == Some(s)
    ensures forall i, j :: 0 <= i < j < |Positions(c, events, s)| ==>
              Positions(c, events, s)[i] < Positions(c, events, s)[j]
  {
    if events != [] {
      var init := events[..|events| - 1];
      PositionsMeaning(c, init, s);
      assert forall i :: 0 <= i < |init| ==> events[i] == init[i];
      assert forall k :: 0 <= k < |Positions(c, init, s)| ==> Positions(c, init, s)[k] in Positions(c, init, s);
    }
  }

  datatype Reason =
    | TypeError | PathError | WrongTurn | NotOnePair | CompletedBeforeStart | NotOneRun
    | NotSuccessful | NotPluginCommand | WrongScopeOrMode | OutOfOrder | AfterProviderResponse

  datatype Verdict =
    | Accepted(positions: seq<nat>, completedBeforeFirstResponse: bool)
    | Rejected(reason: Reason)

  /** The per-hook checks on the positions collected for it. */
  predicate PairAt(c: Context, h: Hook, events: seq<Message>, starts: seq<nat>, completions: seq<nat>) {
    && |starts| == 1 && |completions| == 1
    && starts[0] < completions[0] < |events|
    && Pair(c, h, events[starts[0]], events[completions[0]])
  }

  /** Check one hook's pair; None when it passes. */
  method CheckPair(c: Context, h: Hook, events: seq<Message>, starts: seq<nat>, completions: seq<nat>)
    returns (problem: Option<Reason>)
    requires starts == Positions(c, events, Slot(h, Started)) && completions == Positions(c, events, Slot(h, Completed))
    ensures problem.None? <==> PairAt(c, h, events, starts, completions)
  {
    if |starts| != 1 || |completions| != 1 {
      return Some(NotOnePair);
    }
    PositionsMeaning(c, events, Slot(h, Started));
    PositionsMeaning(c, events, Slot(h, Completed));
    assert starts[0] in starts && completions[0] in completions;
    if starts[0] >= completions[0] {
      return Some(CompletedBeforeStart);
    }
    var start, completion := RunOf(events[starts[0]]), RunOf(events[completions[0]]);
    if !NonEmptyText(start.id) || completion.id != start.id {
      return Some(NotOneRun);
    }
    if start.status != Text("running") || completion.status != Text("completed") {
      return Some(NotSuccessful);
    }
    for k := 0 to 2
      invariant k > 0 ==> CommandRun(h, start)
      invariant k > 1 ==> CommandRun(h, completion)
    {
      var run := if k == 0 then start else completion;
      if run.source != Text("plugin") || run.handlerType != Text("command") {
        return Some(NotPluginCommand);
      }
      if run.scope != Text(Scope(h)) || run.executionMode != Text("sync") {
        return Some(WrongScopeOrMode);
      }
    }
    return None;
  }

  /** What one event contributes: an objection, a slot, or nothing. */
  method Classify(c: Context, turn: string, m: Message) returns (problem: Option<Reason>, slot: Option<Slot>)
    ensures problem.None? <==> !Unreadable(c, m) && (Relevant(c, m) ==> RightTurn(turn, m))
    ensures problem.None? ==> slot == SlotOf(c, m)
  {
    if m.method_.Compound? {
      return Some(TypeError), None;
    }
    if (m.method_ != Text(STARTED) && m.method_ != Text(COMPLETED))
       || m.params.None? || m.params.value.threadId != Text(c.thread) || m.params.value.run.None? {
      return None, None;
    }
    var run := m.params.value.run.value;
    if run.eventName.Compound? {
      return Some(TypeError), None;
    }
    var hook := HookNamed(run.eventName);
    if hook.None? || run.sourcePath.NotText? {
      return None, None;
    }
    if run.sourcePath.Unresolvable? {
      return Some(PathError), None;
    }
    if run.sourcePath.key != c.source {
      return None, None;
    }
    if !TurnAllowed(hook.value, Some(turn), m.params.value.turnId) {
      return Some(if hook.value.SessionStart? && m.params.value.turnId.Compound? then TypeError else WrongTurn), None;
    }
    return None, Some(Slot(hook.value, if m.method_ == Text(STARTED) then Started else Completed));
  }

  /** The first pass: file each relevant event under its hook and phase. */
  method Collect(c: Context, turn: string, events: seq<Message>)
    returns (problem: Option<Reason>, matched: map<Slot, seq<nat>>)
    ensures problem.None? <==> Readable(c, turn, events)
    ensures problem.None? ==> forall s: Slot :: s in matched && matched[s] == Positions(c, events, s)
  {
    problem := None;
    matched :=
      map[Slot(SessionStart, Started) := [], Slot(SessionStart, Completed) := [],
          Slot(UserPromptSubmit, Started) := [], Slot(UserPromptSubmit, Completed) := []];
    assert forall s: Slot :: s in matched && matched[s] == [] by {
      forall s: Slot
        ensures s in matched && matched[s] == []
      {
        match s case Slot(hook, phase) =>
          match hook { case SessionStart => case UserPromptSubmit => }
          match phase { case Started => case Completed => }
      }
    }
    for i := 0 to |events|
      invariant problem.None?
      invariant forall s: Slot :: s in matched && matched[s] == Positions(c, events[..i], s)
      invariant Readable(c, turn, events[..i])
    {
      assert events[..i + 1][..i] == events[..i];
      var slot;
      problem, slot := Classify(c, turn, events[i]);
      if problem.Some? {
        return;
      }
      if slot.Some? {
        matched := matched[slot.value := matched[slot.value] + [i]];
      }
    }
    assert events[..|events|] == events;
  }

  method FirstResponse(c: Context, turn: string, events: seq<Message>) returns (first: Option<nat>)
    ensures first.None? <==> forall k :: 0 <= k < |events| ==> !IsProviderResponse(c, turn, events[k])
    ensures first.Some? ==>
              && first.value < |events| && IsProviderResponse(c, turn, events[first.value])
              && forall k :: 0 <= k < first.value ==> !IsProviderResponse(c, turn, events[k])
  {
    for i := 0 to |events|
      invariant forall k :: 0 <= k < i ==> !IsProviderResponse(c, turn, events[k])
    {
      if IsProviderResponse(c, turn, events[i]) {
        return Some(i);
      }
    }
    return None;
  }

  method ValidateHookLifecycle(c: Context, turn: string, events: seq<Message>) returns (verdict: Verdict)
    ensures verdict.Accepted? <==> Lifecycle(c, turn, events)
    ensures verdict.Accepted? ==>
              && |verdict.positions| == 4
              && Shape(c, turn, events, verdict.positions[0], verdict.positions[1], verdict.positions[2], verdict.positions[3])
              && (verdict.completedBeforeFirstResponse <==>
                  exists i :: 0 <= i < |events| && IsProviderResponse(c, turn, events[i]))
  {
    verdict := CheckOrder(c, turn, events);
    ShapeIff(c, turn, events);
  }

  method CheckOrder(c: Context, turn: string, events: seq<Message>) returns (verdict: Verdict)
    ensures verdict.Accepted? <==> Readable(c, turn, events) && Ordered(c, turn, events)
    ensures verdict.Accepted? ==>
              && verdict.positions == FirstPositions(c, turn, events)
              && (verdict.completedBeforeFirstResponse <==>
                  exists i :: 0 <= i < |events| && IsProviderResponse(c, turn, events[i]))
  {
    var problem, matched := Collect(c, turn, events);
    if problem.Some? {
      return Rejected(problem.value);
    }
    var a, b := matched[Slot(SessionStart, Started)], matched[Slot(SessionStart, Completed)];
    var p, q := matched[Slot(UserPromptSubmit, Started)], matched[Slot(UserPromptSubmit, Completed)];
    problem := CheckPair(c, SessionStart, events, a, b);
    if problem.Some? {
      return Rejected(problem.value);
    }
    problem := CheckPair(c, UserPromptSubmit, events, p, q);
    if problem.Some? {
      return Rejected(problem.value);
    }
    if b[0] >= p[0] {
      return Rejected(OutOfOrder);
    }
    var first := FirstResponse(c, turn, events);
    assert NoResponseUpTo(c, turn, events, q[0]) <==> first.None? || q[0] < first.value;
    if first.Some? && q[0] >= first.value {
      return Rejected(AfterProviderResponse);
    }
    return Accepted([a[0], b[0], p[0], q[0]], first.Some?);
  }

  /** The conjunction of the validator's checks on the collected positions. */
  ghost predicate Ordered(c: Context, turn: string, events: seq<Message>) {
    var a, b := Positions(c, events, Slot(SessionStart, Started)), Positions(c, events, Slot(SessionStart, Completed));
    var p, q := Positions(c, events, Slot(UserPromptSubmit, Started)), Positions(c, events, Slot(UserPromptSubmit, Completed));
    && PairAt(c, SessionStart, events, a, b)
    && PairAt(c, UserPromptSubmit, events, p, q)
    && b[0] < p[0]
    && NoResponseUpTo(c, turn, events, q[0])
  }

  ghost predicate NoResponseUpTo(c: Context, turn: string, events: seq<Message>, k: nat) {
    forall i :: 0 <= i < |events| && IsProviderResponse(c, turn, events[i]) ==> k < i
  }

  ghost function FirstPositions(c: Context, turn: string, events: seq<Message>): seq<nat>
    requires Ordered(c, turn, events)
  {
    [Positions(c, events, Slot(SessionStart, Started))[0], Positions(c, events, Slot(SessionStart, Completed))[0],
     Positions(c, events, Slot(UserPromptSubmit, Started))[0], Positions(c, events, Slot(UserPromptSubmit, Completed))[0]]
  }

  lemma ShapeIff(c: Context, turn: string, events: seq<Message>)
    ensures (exists a, b, p, q :: Shape(c, turn, events, a, b, p, q)) <==> Ordered(c, turn, events)
    ensures Ordered(c, turn, events) ==>
              var ps := FirstPositions(c, turn, events);
              Shape(c, turn, events, ps[0], ps[1], ps[2], ps[3])
  {
    if Ordered(c, turn, events) {
      OrderedShape(c, turn, events);
    }
    if a, b, p, q :| Shape(c, turn, events, a, b, p, q) {
      ShapeOrdered(c, turn, events, a, b, p, q);
    }
  }

  lemma ShapeOrdered(c: Context, turn: string, events: seq<Message>, a: nat, b: nat, p: nat, q: nat)
    requires Shape(c, turn, events, a, b, p, q)
    ensures Ordered(c, turn, events)
  {
    OnlyPosition(c, events, Slot(SessionStart, Started), a);
    OnlyPosition(c, events, Slot(SessionStart, Completed), b);
    OnlyPosition(c, events, Slot(UserPromptSubmit, Started), p);
    OnlyPosition(c, events, Slot(UserPromptSubmit, Completed), q);
  }

  lemma OnlyPosition(c: Context, events: seq<Message>, s: Slot, k: nat)
    requires k < |events| && SlotOf(c, events[k]) == Some(s)
    requires forall i :: 0 <= i < |events| && i != k ==> SlotOf(c, events[i]) != Some(s)
    ensures Positions(c, events, s) == [k]
  {
    PositionsMeaning(c, events, s);
    var at := Positions(c, events, s);
    assert k in at;
    assert |at| > 1 ==> at[0] < at[1];
    forall i | 0 <= i < |at|
      ensures at[i] == k
    {
      assert at[i] in at;
    }
  }

  lemma OrderedShape(c: Context, turn: string, events: seq<Message>)
    requires Ordered(c, turn, events)
    ensures var ps := FirstPositions(c, turn, events);
            Shape(c, turn, events, ps[0], ps[1], ps[2], ps[3])
  {
    forall i | 0 <= i < |events| && Relevant(c, events[i])
      ensures i in Positions(c, events, SlotOf(c, events[i]).value)
    {
      PositionsMeaning(c, events, SlotOf(c, events[i]).value);
    }
  }

  // ---- agreement of monitor and validator --------------------------------------------

  /** A completed notification from the exact installed source in the measured thread. */
  predicate InstalledCompletion(c: Context, m: Message) {
    IsHookMessage(m) && m.method_ == Text(COMPLETED) && InThread(c, m) && ExactSource(c, RunOf(m))
  }

  /** The event that last filed run `id`. */
  lemma {:induction false} LastStart(c: Context, prefix: seq<Message>, id: string) returns (j: nat)
    requires id in Tracked(c, prefix)
    ensures j < |prefix| && Tracks(c, prefix[j]) && RunOf(prefix[j]).id == Text(id)
    ensures HookNamed(RunOf(prefix[j]).eventName) == Some(Tracked(c, prefix)[id])
    ensures forall k :: j < k < |prefix| ==> !(Tracks(c, prefix[k]) && RunOf(prefix[k]).id == Text(id))
  {
    var n := |prefix| - 1;
    if Tracks(c, prefix[n]) && RunOf(prefix[n]).id == Text(id) {
      j := n;
    } else {
      j := LastStart(c, prefix[..n], id);
    }
  }

  /** A run filed under one hook and completed under the other leaves the two hooks out of order. */
  lemma CrossedRun(c: Context, turn: string, prefix: seq<Message>, m: Message, suffix: seq<Message>)
    requires InstalledCompletion(c, m) && Relevant(c, m)
    requires TrackedHook(Tracked(c, prefix), RunOf(m)).Some?
    requires TrackedHook(Tracked(c, prefix), RunOf(m)) != HookNamed(RunOf(m).eventName)
    ensures !Lifecycle(c, turn, prefix + [m] + suffix)
  {
    var events, n, id := prefix + [m] + suffix, |prefix|, RunOf(m).id.s;
    var j := LastStart(c, prefix, id);
    assert events[n] == m && events[j] == prefix[j];
    assert Relevant(c, events[n]) && Relevant(c, events[j]);
  }

  /** A relevant completion the monitor objects to on its own account fails the validator's checks too. */
  lemma UnfitCompletion(c: Context, turn: string, events: seq<Message>, n: nat, via: Attribution)
    requires n < |events| && InstalledCompletion(c, events[n]) && Relevant(c, events[n])
    requires !JudgeCompletion(c, Some(turn), events[n], HookNamed(RunOf(events[n]).eventName).value, via).Quiet?
    ensures !Lifecycle(c, turn, events)
  {
    assert Relevant(c, events[n]);
  }

  /**
    Fail-fast raises no false alarm: once the turn is bound, an objection to a completion of
    either hook from the exact installed source in this thread means that the validator rejects
    the trace however it continues, also when the run id was filed again under the other hook.
  */
  lemma NoFalseAlarm(c: Context, turn: string, prefix: seq<Message>, m: Message, suffix: seq<Message>)
    requires InstalledCompletion(c, m) && HookNamed(RunOf(m).eventName).Some?
    requires !Judge(c, Some(turn), Tracked(c, prefix), m).Quiet?
    ensures !Lifecycle(c, turn, prefix + [m] + suffix)
  {
    var tracked, reported := TrackedHook(Tracked(c, prefix), RunOf(m)), HookNamed(RunOf(m).eventName);
    if tracked.Some? && tracked != reported {
      CrossedRun(c, turn, prefix, m, suffix);
    } else {
      var events := prefix + [m] + suffix;
      assert events[|prefix|] == m;
      UnfitCompletion(c, turn, events, |prefix|, if tracked.Some? then MatchingStart else InstalledSource);
    }
  }

  // ---- exactly which messages can raise a false alarm --------------------------------

  /** Whatever came before, an objection to `m` dooms the trace; `bound` is the turn as the monitor knows it. */
  ghost predicate AlarmIsFinal(c: Context, bound: Option<string>, turn: string, m: Message) {
    forall prefix, suffix :: !Judge(c, bound, Tracked(c, prefix), m).Quiet? ==> !Lifecycle(c, turn, prefix + [m] + suffix)
  }

  /** The monitor has been quiet, objects to `m`, and the validator accepts the trace around it. */
  ghost predicate FalseAlarm(c: Context, bound: Option<string>, turn: string, prefix: seq<Message>, m: Message, suffix: seq<Message>) {
    && (forall i :: 0 <= i < |prefix| ==> JudgeAt(c, bound, prefix, i).Quiet?)
    && !Judge(c, bound, Tracked(c, prefix), m).Quiet?
    && Lifecycle(c, turn, prefix + [m] + suffix)
  }

  /**
    A completion that the validator passes over (foreign thread or source, or neither hook named)
    and the monitor may not: its run id may be tracked, or it claims the plugin's identity.
  */
  predicate Stray(c: Context, m: Message) {
    && IsHookMessage(m) && m.method_ == Text(COMPLETED)
    && !Relevant(c, m) && !Unreadable(c, m)
    && (NonEmptyText(RunOf(m).id)
        || (InThread(c, m) && HookNamed(RunOf(m).eventName).Some? && ExplicitLians(c, RunOf(m))))
  }

  /** A faultless completion that names its turn, which a monitor not yet bound cannot know. */
  predicate Early(c: Context, turn: string, m: Message) {
    && Relevant(c, m) && m.method_ == Text(COMPLETED)
    && m.params.value.turnId == Text(turn) && RunOf(m).status == Text("completed")
    && CommandRun(HookNamed(RunOf(m).eventName).value, RunOf(m))
  }

  function CommandRunOf(c: Context, h: Hook, id: string, status: string): Run {
    Run(Text(id), Text(EventName(h)), Text(status), Text("plugin"), Text("command"), Text(Scope(h)), Text("sync"),
        Resolved(c.source), Text(c.pluginId), Absent)
  }

  /** A faultless notification; only UserPromptSubmit names the turn. */
  function Notification(c: Context, turn: string, phase: string, h: Hook, id: string): Message {
    Message(Text(phase), Some(Params(Text(c.thread), if h.SessionStart? then Absent else Text(turn),
            Some(CommandRunOf(c, h, id, if phase == STARTED then "running" else "completed")))))
  }

  /** A faultless lifecycle whose runs have the given id. */
  function GoodTrace(c: Context, turn: string, id: string): seq<Message> {
    [Notification(c, turn, STARTED, SessionStart, id),
     Notification(c, turn, COMPLETED, SessionStart, id),
     Notification(c, turn, STARTED, UserPromptSubmit, id),
     Notification(c, turn, COMPLETED, UserPromptSubmit, id)]
  }

  lemma TrackedOne(c: Context, m: Message)
    ensures Tracked(c, [m]) == TrackedAfter(c, map[], m)
  {
    assert [m][..0] == [];
  }

  lemma StartIsQuiet(c: Context, bound: Option<string>, turn: string, id: string)
    requires id != ""
    ensures JudgeAt(c, bound, [GoodTrace(c, turn, id)[0]], 0).Quiet?
    ensures Tracked(c, [GoodTrace(c, turn, id)[0]]) == map[id := SessionStart]
  {
    TrackedOne(c, GoodTrace(c, turn, id)[0]);
  }

  /** A stray message changes nothing for the validator. */
  lemma StrayAccepted(c: Context, turn: string, m: Message, id: string)
    requires Stray(c, m) && id != ""
    ensures var good := GoodTrace(c, turn, id);
            Lifecycle(c, turn, [good[0]] + [m] + good[1..])
  {
    var good := GoodTrace(c, turn, id);
    var events := [good[0]] + [m] + good[1..];
    assert events == [good[0], m, good[1], good[2], good[3]];
    assert Shape(c, turn, events, 0, 2, 3, 4);
  }

  lemma StrayObjected(c: Context, bound: Option<string>, m: Message, id: string)
    requires Stray(c, m) && (NonEmptyText(RunOf(m).id) ==> id == RunOf(m).id.s)
    ensures !Judge(c, bound, map[id := SessionStart], m).Quiet?
  {
  }

  lemma StrayAlarm(c: Context, bound: Option<string>, turn: string, m: Message) returns (prefix: seq<Message>, suffix: seq<Message>)
    requires Stray(c, m)
    ensures FalseAlarm(c, bound, turn, prefix, m, suffix)
  {
    var id := if NonEmptyText(RunOf(m).id) then RunOf(m).id.s else "run";
    var good := GoodTrace(c, turn, id);
    prefix, suffix := [good[0]], good[1..];
    StartIsQuiet(c, bound, turn, id);
    StrayObjected(c, bound, m, id);
    StrayAccepted(c, turn, m, id);
  }

  lemma EarlySessionStart(c: Context, turn: string, m: Message) returns (prefix: seq<Message>, suffix: seq<Message>)
    requires Early(c, turn, m) && HookNamed(RunOf(m).eventName) == Some(SessionStart)
    ensures FalseAlarm(c, None, turn, prefix, m, suffix)
  {
    var id := RunOf(m).id.s;
    var good := GoodTrace(c, turn, id);
    prefix, suffix := [good[0]], good[2..];
    StartIsQuiet(c, None, turn, id);
    var events := prefix + [m] + suffix;
    assert events == [good[0], m, good[2], good[3]];
    assert Shape(c, turn, events, 0, 1, 2, 3);
  }

  lemma EarlyUserPromptSubmit(c: Context, turn: string, m: Message) returns (prefix: seq<Message>, suffix: seq<Message>)
    requires Early(c, turn, m) && HookNamed(RunOf(m).eventName) == Some(UserPromptSubmit)
    ensures FalseAlarm(c, None, turn, prefix, m, suffix)
  {
    var id := RunOf(m).id.s;
    var good := GoodTrace(c, turn, id);
    prefix, suffix := good[..3], [];
    StartIsQuiet(c, None, turn, id);
    assert good[..1] == [good[0]] && good[..3][..1] == good[..1] && good[..3][..2] == good[..2] && good[..3][..0] == [];
    TrackedStep(c, good, 1);
    TrackedStep(c, good, 2);
    LastReplaced(c, turn, id, m);
    assert prefix + [m] + suffix == [good[0], good[1], good[2], m];
  }

  lemma LastReplaced(c: Context, turn: string, id: string, m: Message)
    requires Early(c, turn, m) && HookNamed(RunOf(m).eventName) == Some(UserPromptSubmit) && RunOf(m).id == Text(id)
    ensures var good := GoodTrace(c, turn, id);
            Shape(c, turn, [good[0], good[1], good[2], m], 0, 1, 2, 3) && Lifecycle(c, turn, [good[0], good[1], good[2], m])
  {
    var good := GoodTrace(c, turn, id);
    assert Shape(c, turn, [good[0], good[1], good[2], m], 0, 1, 2, 3);
  }

  /** An objection that is neither stray nor early is shared by the validator. */
  lemma OtherAlarmsAreFinal(c: Context, bound: Option<string>, turn: string, prefix: seq<Message>, m: Message, suffix: seq<Message>)
    requires bound.None? || bound == Some(turn)
    requires !Stray(c, m) && (bound.None? ==> !Early(c, turn, m))
    requires !Judge(c, bound, Tracked(c, prefix), m).Quiet?
    ensures !Lifecycle(c, turn, prefix + [m] + suffix)
  {
    var events := prefix + [m] + suffix;
    assert events[|prefix|] == m;
    if !Unreadable(c, m) {
      NotStray(c, bound, prefix, m);
      if Judge(c, Some(turn), Tracked(c, prefix), m).Quiet? {
        UnboundObjection(c, turn, prefix, m);
      } else {
        NoFalseAlarm(c, turn, prefix, m, suffix);
      }
    }
  }

  /** Only a relevant completion is left to object to. */
  lemma NotStray(c: Context, bound: Option<string>, prefix: seq<Message>, m: Message)
    requires !Stray(c, m) && !Unreadable(c, m) && !Judge(c, bound, Tracked(c, prefix), m).Quiet?
    ensures Relevant(c, m) && m.method_ == Text(COMPLETED)
  {
    if IsHookMessage(m) && RunOf(m).id.Text? && RunOf(m).id.s in Tracked(c, prefix) {
      var j := LastStart(c, prefix, RunOf(m).id.s);
    }
  }

  /** What only the unbound monitor objects to is early. */
  lemma UnboundObjection(c: Context, turn: string, prefix: seq<Message>, m: Message)
    requires Relevant(c, m) && m.method_ == Text(COMPLETED)
    requires !Judge(c, None, Tracked(c, prefix), m).Quiet? && Judge(c, Some(turn), Tracked(c, prefix), m).Quiet?
    ensures Early(c, turn, m)
  {
  }

  /**
    Exactly which messages can raise a false alarm, for a monitor bound to the turn and for one
    that is not bound yet: stray completions, and for the latter also faultless ones that name
    the turn. A false alarm can then be the monitor's very first objection.
  */
  lemma AlarmIsFinalIff(c: Context, bound: Option<string>, turn: string, m: Message)
    requires bound.None? || bound == Some(turn)
    ensures AlarmIsFinal(c, bound, turn, m) <==> !Stray(c, m) && (bound.None? ==> !Early(c, turn, m))
    ensures AlarmIsFinal(c, bound, turn, m) <==> !exists prefix, suffix :: FalseAlarm(c, bound, turn, prefix, m, suffix)
  {
    if Stray(c, m) {
      var prefix, suffix := StrayAlarm(c, bound, turn, m);
    } else if bound.None? && Early(c, turn, m) {
      if HookNamed(RunOf(m).eventName) == Some(SessionStart) {
        var prefix, suffix := EarlySessionStart(c, turn, m);
      } else {
        var prefix, suffix := EarlyUserPromptSubmit(c, turn, m);
      }
    } else {
      forall prefix, suffix | !Judge(c, bound, Tracked(c, prefix), m).Quiet?
        ensures !Lifecycle(c, turn, prefix + [m] + suffix)
      {
        OtherAlarmsAreFinal(c, bound, turn, prefix, m, suffix);
      }
    }
  }
}
