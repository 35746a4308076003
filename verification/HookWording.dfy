/**
  The hook notifications by the words they carry on the wire: what the validator accepts and what
  the monitor objects to, in the strings themselves.
  Source: agentmem/benchmarks/codex_sol_installed_plugin_ab.py, `_HOOK_LIFECYCLE_SPECS`,
  `_HookLifecycleMonitor` and `_validate_hook_lifecycle`.
*/
module HookWording {
  import opened Prelude
  import opened HookLifecycle

  /** A notification of the installed plugin's hook in the measured thread, word by word. */
  predicate Says(c: Context, m: Message, how: string, event: string, scope: string, status: string, id: string) {
    && m.method_ == Text(how)
    && m.params.Some? && m.params.value.threadId == Text(c.thread) && m.params.value.run.Some?
    && var r := m.params.value.run.value;
       && r.id == Text(id) && id != "" && r.eventName == Text(event) && r.status == Text(status)
       && r.source == Text("plugin") && r.handlerType == Text("command")
       && r.scope == Text(scope) && r.executionMode == Text("sync") && r.sourcePath == Resolved(c.source)
  }

  /** SessionStart may leave its turn out. */
  predicate SessionTurn(turn: string, m: Message) {
    m.params.Some? && (m.params.value.turnId == Absent || m.params.value.turnId == Text(turn))
  }

  predicate PromptTurn(turn: string, m: Message) {
    m.params.Some? && m.params.value.turnId == Text(turn)
  }

  /** The four notifications at these positions. */
  predicate FourWords(c: Context, turn: string, events: seq<Message>, a: nat, b: nat, p: nat, q: nat, x: string, y: string) {
    && a < b < p < q < |events|
    && Says(c, events[a], "hook/started", "sessionStart", "thread", "running", x) && SessionTurn(turn, events[a])
    && Says(c, events[b], "hook/completed", "sessionStart", "thread", "completed", x) && SessionTurn(turn, events[b])
    && Says(c, events[p], "hook/started", "userPromptSubmit", "turn", "running", y) && PromptTurn(turn, events[p])
    && Says(c, events[q], "hook/completed", "userPromptSubmit", "turn", "completed", y) && PromptTurn(turn, events[q])
  }

  /** A message the validator passes over: readable, and no notification of the installed hooks. */
  predicate Aside(c: Context, m: Message) {
    && !m.method_.Compound?
    && (m.method_ == Text("hook/started") || m.method_ == Text("hook/completed") ==>
          && m.params.Some? && m.params.value.run.Some? && m.params.value.threadId == Text(c.thread) ==>
            var r := m.params.value.run.value;
            && !r.eventName.Compound?
            && (r.eventName == Text("sessionStart") || r.eventName == Text("userPromptSubmit") ==>
                  r.sourcePath.NotText? || (r.sourcePath.Resolved? && r.sourcePath.key != c.source)))
  }

  /** A provider response of the turn. */
  predicate Answer(c: Context, turn: string, m: Message) {
    && m.method_ == Text("rawResponse/completed")
    && m.params.Some? && m.params.value.threadId == Text(c.thread) && m.params.value.turnId == Text(turn)
  }

  /** Besides the four there are only asides, and no answer before the last of the four. */
  predicate OnlyAsides(c: Context, turn: string, events: seq<Message>, a: nat, b: nat, p: nat, q: nat) {
    && (forall i :: 0 <= i < |events| && i != a && i != b && i != p && i != q ==> Aside(c, events[i]))
    && (forall i :: 0 <= i < |events| && Answer(c, turn, events[i]) ==> q < i)
  }

  lemma AsideIff(c: Context, m: Message)
    ensures Aside(c, m) <==> !Unreadable(c, m) && !Relevant(c, m)
  {
  }

  lemma AnswerIff(c: Context, turn: string, m: Message)
    ensures Answer(c, turn, m) <==> IsProviderResponse(c, turn, m)
  {
  }

  lemma SaysIsPart(c: Context, turn: string, m: Message, h: Hook, id: string)
    ensures h.SessionStart? ==>
      (Says(c, m, "hook/started", "sessionStart", "thread", "running", id) && SessionTurn(turn, m) <==>
       IsStart(c, h, m) && CommandRun(h, RunOf(m)) && RunOf(m).status == Text("running") && RunOf(m).id == Text(id) && RightTurn(turn, m))
    ensures h.SessionStart? ==>
      (Says(c, m, "hook/completed", "sessionStart", "thread", "completed", id) && SessionTurn(turn, m) <==>
       IsCompletion(c, h, m) && CommandRun(h, RunOf(m)) && RunOf(m).status == Text("completed") && RunOf(m).id == Text(id) && RightTurn(turn, m))
    ensures h.UserPromptSubmit? ==>
      (Says(c, m, "hook/started", "userPromptSubmit", "turn", "running", id) && PromptTurn(turn, m) <==>
       IsStart(c, h, m) && CommandRun(h, RunOf(m)) && RunOf(m).status == Text("running") && RunOf(m).id == Text(id) && RightTurn(turn, m))
    ensures h.UserPromptSubmit? ==>
      (Says(c, m, "hook/completed", "userPromptSubmit", "turn", "completed", id) && PromptTurn(turn, m) <==>
       IsCompletion(c, h, m) && CommandRun(h, RunOf(m)) && RunOf(m).status == Text("completed") && RunOf(m).id == Text(id) && RightTurn(turn, m))
  {
  }

  lemma FourWordsIsShape(c: Context, turn: string, events: seq<Message>, a: nat, b: nat, p: nat, q: nat, x: string, y: string)
    requires FourWords(c, turn, events, a, b, p, q, x, y) && OnlyAsides(c, turn, events, a, b, p, q)
    ensures Lifecycle(c, turn, events)
  {
    SaysIsPart(c, turn, events[a], SessionStart, x);
    SaysIsPart(c, turn, events[b], SessionStart, x);
    SaysIsPart(c, turn, events[p], UserPromptSubmit, y);
    SaysIsPart(c, turn, events[q], UserPromptSubmit, y);
    forall i | 0 <= i < |events|
      ensures !Unreadable(c, events[i]) && (Answer(c, turn, events[i]) <==> IsProviderResponse(c, turn, events[i]))
      ensures Relevant(c, events[i]) <==> i == a || i == b || i == p || i == q
    {
      AsideIff(c, events[i]);
      AnswerIff(c, turn, events[i]);
    }
    assert Shape(c, turn, events, a, b, p, q);
  }

  lemma ShapeIsFourWords(c: Context, turn: string, events: seq<Message>, a: nat, b: nat, p: nat, q: nat)
    requires Readable(c, turn, events) && Shape(c, turn, events, a, b, p, q)
    ensures exists x, y :: FourWords(c, turn, events, a, b, p, q, x, y)
    ensures OnlyAsides(c, turn, events, a, b, p, q)
  {
    var x, y := RunOf(events[a]).id.s, RunOf(events[p]).id.s;
    SaysIsPart(c, turn, events[a], SessionStart, x);
    SaysIsPart(c, turn, events[b], SessionStart, x);
    SaysIsPart(c, turn, events[p], UserPromptSubmit, y);
    SaysIsPart(c, turn, events[q], UserPromptSubmit, y);
    forall i | 0 <= i < |events|
      ensures i != a && i != b && i != p && i != q ==> Aside(c, events[i])
      ensures Answer(c, turn, events[i]) <==> IsProviderResponse(c, turn, events[i])
    {
      AsideIff(c, events[i]);
      AnswerIff(c, turn, events[i]);
    }
    assert FourWords(c, turn, events, a, b, p, q, x, y);
  }

  /**
    A trace is accepted exactly if it holds the four notifications, word by word and in order, and
    besides them only messages that concern neither hook, with no answer before the last of the four.
  */
  lemma AcceptedInWordsIff(c: Context, turn: string, events: seq<Message>)
    ensures Lifecycle(c, turn, events) <==>
            exists a, b, p, q, x, y :: FourWords(c, turn, events, a, b, p, q, x, y) && OnlyAsides(c, turn, events, a, b, p, q)
  {
    if Lifecycle(c, turn, events) {
      var a, b, p, q :| Shape(c, turn, events, a, b, p, q);
      ShapeIsFourWords(c, turn, events, a, b, p, q);
    }
    if a, b, p, q, x, y :| FourWords(c, turn, events, a, b, p, q, x, y) && OnlyAsides(c, turn, events, a, b, p, q) {
      FourWordsIsShape(c, turn, events, a, b, p, q, x, y);
    }
  }

  // ---- the monitor -------------------------------------------------------------------

  /** Not a hook notification at all. */
  predicate OtherMethod(m: Message) {
    !m.method_.Compound? && m.method_ != Text("hook/started") && m.method_ != Text("hook/completed")
  }

  /** The ordinary trace, amid other messages, is accepted, and a monitor bound to its turn stays quiet. */
  lemma OrdinaryTraceIsQuiet(c: Context, turn: string, events: seq<Message>, a: nat, b: nat, p: nat, q: nat, x: string, y: string)
    requires FourWords(c, turn, events, a, b, p, q, x, y)
    requires forall i :: 0 <= i < |events| && i != a && i != b && i != p && i != q ==> OtherMethod(events[i])
    requires forall i :: 0 <= i < |events| && Answer(c, turn, events[i]) ==> q < i
    ensures Lifecycle(c, turn, events)
    ensures forall i :: 0 <= i < |events| ==> JudgeAt(c, Some(turn), events, i).Quiet?
  {
    FourWordsIsShape(c, turn, events, a, b, p, q, x, y);
    forall i | 0 <= i < |events|
      ensures JudgeAt(c, Some(turn), events, i).Quiet?
    {
      AsideIff(c, events[i]);
      QuietOnAccepted(c, turn, events, i);
    }
  }

  /** On an accepted trace the bound monitor objects to no other method and to no relevant notification. */
  lemma QuietOnAccepted(c: Context, turn: string, events: seq<Message>, i: nat)
    requires Lifecycle(c, turn, events) && i < |events| && (OtherMethod(events[i]) || Relevant(c, events[i]))
    ensures JudgeAt(c, Some(turn), events, i).Quiet?
  {
    assert events == events[..i] + [events[i]] + events[i + 1..];
    NotStrayInWords(c, events[i]);
    AlarmIsFinalIff(c, Some(turn), turn, events[i]);
  }

  lemma NotStrayInWords(c: Context, m: Message)
    requires OtherMethod(m) || Relevant(c, m)
    ensures !Stray(c, m)
  {
  }

  /** The words of a hook. */
  predicate WordsOf(h: Hook, event: string, scope: string) {
    match h
    case SessionStart => event == "sessionStart" && scope == "thread"
    case UserPromptSubmit => event == "userPromptSubmit" && scope == "turn"
  }

  /** A hook/completed message with a run object. */
  predicate Completion(m: Message) {
    m.method_ == Text("hook/completed") && m.params.Some? && m.params.value.run.Some?
  }

  /** The turn a completion of `h` must name, to a monitor bound to `turn` or to none. */
  predicate NamesTurn(h: Hook, turn: Option<string>, turnId: Val) {
    (turn.Some? && turnId == Text(turn.value)) || (h.SessionStart? && turnId == Absent)
  }

  /** The plugin's identity, given explicitly. */
  predicate NamesPlugin(c: Context, r: Run) {
    r.pluginId == Text(c.pluginId) || (r.key.Text? && c.pluginId + ":hooks/hooks.json:" <= r.key.s)
  }

  /**
    A completion whose run id was tracked for hook `h` draws the objection that its first fault
    calls for: the source, then thread, event name and turn, then the status, then the rest.
  */
  lemma TrackedCompletionJudged(c: Context, turn: Option<string>, started: map<string, Hook>, m: Message, h: Hook, event: string, scope: string)
    requires Completion(m) && WordsOf(h, event, scope)
    requires var id := m.params.value.run.value.id; id.Text? && id.s in started && started[id.s] == h
    ensures var r, turnId, o := m.params.value.run.value, m.params.value.turnId, Judge(c, turn, started, m);
            var placed := m.params.value.threadId == Text(c.thread) && r.eventName == Text(event);
            && (o == Failed(h, InvalidSource, MatchingStart) <==> r.sourcePath != Resolved(c.source))
            && (o == TypeErrorRaised <==>
                  r.sourcePath == Resolved(c.source) && placed && h.SessionStart? && turnId.Compound?)
            && (o == Failed(h, NonCompletedStatus, MatchingStart) <==>
                  r.sourcePath == Resolved(c.source) && placed && NamesTurn(h, turn, turnId) && r.status != Text("completed"))
            && (o == Quiet <==>
                  Says(c, m, "hook/completed", event, scope, "completed", r.id.s) && NamesTurn(h, turn, turnId))
            && (o == Quiet || o == TypeErrorRaised || (o.Failed? && o.hook == h && o.attribution == MatchingStart))
  {
  }

  /**
    One whose run id was not tracked is judged only in the measured thread, under one of the two
    event names, and if it comes from the installed file or names the plugin; then in the same way.
  */
  lemma UntrackedCompletionJudged(c: Context, turn: Option<string>, started: map<string, Hook>, m: Message, h: Hook, event: string, scope: string)
    requires Completion(m) && WordsOf(h, event, scope)
    requires var r := m.params.value.run.value; (r.id.Text? ==> r.id.s !in started) && r.eventName == Text(event)
    ensures var r, turnId, o := m.params.value.run.value, m.params.value.turnId, Judge(c, turn, started, m);
            var exact, inThread := r.sourcePath == Resolved(c.source), m.params.value.threadId == Text(c.thread);
            && (o == Failed(h, InvalidSource, ExplicitIdentity) <==> inThread && !exact && NamesPlugin(c, r))
            && (o == TypeErrorRaised <==> inThread && exact && h.SessionStart? && turnId.Compound?)
            && (o == Failed(h, NonCompletedStatus, InstalledSource) <==>
                  inThread && exact && NamesTurn(h, turn, turnId) && r.status != Text("completed"))
            && (o == Failed(h, InvalidIdentity, InstalledSource) <==>
                  && inThread && exact && !(h.SessionStart? && turnId.Compound?)
                  && (!NamesTurn(h, turn, turnId)
                      || (r.status == Text("completed")
                          && !(r.id.Text? && Says(c, m, "hook/completed", event, scope, "completed", r.id.s)))))
            && (o == Quiet || o == TypeErrorRaised || (o.Failed? && o.hook == h))
            && (!inThread || (!exact && !NamesPlugin(c, r)) ==> o == Quiet)
  {
  }

  /** A completion under neither name, and not tracked, is passed over. */
  lemma UnrelatedCompletionIgnored(c: Context, turn: Option<string>, started: map<string, Hook>, m: Message)
    requires Completion(m)
    requires var r := m.params.value.run.value;
             && (r.id.Text? ==> r.id.s !in started) && !r.eventName.Compound?
             && r.eventName != Text("sessionStart") && r.eventName != Text("userPromptSubmit")
    ensures Judge(c, turn, started, m) == Quiet
  {
  }

  /** Exactly the starts that name an installed hook are tracked, each under its own name. */
  lemma TrackedIff(c: Context, started: map<string, Hook>, m: Message, id: string, h: Hook)
    ensures id in TrackedAfter(c, started, m) && TrackedAfter(c, started, m)[id] == h <==>
              if && m.method_ == Text("hook/started") && m.params.Some? && m.params.value.run.Some?
                 && m.params.value.threadId == Text(c.thread)
                 && var r := m.params.value.run.value;
                    && r.sourcePath == Resolved(c.source) && r.id == Text(id) && id != ""
                    && (r.eventName == Text("sessionStart") || r.eventName == Text("userPromptSubmit"))
              then m.params.value.run.value.eventName == Text(if h.SessionStart? then "sessionStart" else "userPromptSubmit")
              else id in started && started[id] == h
  {
  }
}
