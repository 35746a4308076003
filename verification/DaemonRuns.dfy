/**
  Runs of the runtime directory: what can happen, from an empty directory on, and when a token
  can still be obtained.
  Source: integrations/codex/local_recall_daemon.py, `_read_or_create_token`, `_post`, `serve`
  and `_remove_owned_state`.
*/
module DaemonRuns {
  import opened Prelude
  import opened DaemonLifecycle

  lemma {:induction false} RunsAppend(inst: string -> string, w: World, actions: seq<Action>, a: Action)
    requires Runs(inst, w, actions) && Enabled(inst, After(inst, w, actions), a)
    ensures Runs(inst, w, actions + [a])
    ensures After(inst, w, actions + [a]) == Apply(inst, After(inst, w, actions), a)
    decreases |actions|
  {
    if actions == [] {
      assert actions + [a] == [a] && [a][1..] == [];
      assert Runs(inst, Apply(inst, w, a), []);
    } else {
      RunsAppend(inst, Apply(inst, w, actions[0]), actions[1..], a);
      assert (actions + [a])[1..] == actions[1..] + [a];
    }
  }

  lemma ReachesNext(inst: string -> string, w: World, a: Action)
    requires Reachable(inst, w) && Enabled(inst, w, a)
    ensures Reachable(inst, Apply(inst, w, a))
  {
    var actions :| Runs(inst, EMPTY, actions) && w == After(inst, EMPTY, actions);
    RunsAppend(inst, EMPTY, actions, a);
    assert Runs(inst, EMPTY, actions + [a]);
  }

  /** One daemon at this phase, alone in the runtime directory. */
  ghost function Alone(inst: string -> string, f: string, pid: nat, port: nat, t: string, phase: Phase): World {
    var key := (inst(f), pid);
    var record := Record(f, pid, port, 0);
    var written := if phase.WritingToken? then 0 else TOKEN_CHARS;
    World(map[0 := Daemon(f, pid, phase,
                          if phase.Locked? || phase.WritingToken? then None else Some(t),
                          if phase.Locked? || phase.WritingToken? || phase.HasToken? then 0 else port,
                          phase.Serving?)],
          map[], map[inst(f) := 0],
          if phase.Serving? then map[inst(f) := record] else map[],
          if phase.Staged? then map[key := record] else map[],
          if phase.Locked? then None else Some(TokenFile(t, written, AsDaemon(0))),
          if Listening(Daemon(f, pid, phase, None, port, false)) then map[port := DaemonAt(0)] else map[])
  }

  /** The way of a lone daemon from the lock to serving. */
  predicate Leads(phase: Phase, step: DaemonStep, next: Phase, port: nat, t: string) {
    || (phase == Locked && step == CreateToken(t) && next == WritingToken)
    || (phase == WritingToken && step == FinishToken(TOKEN_CHARS) && next == HasToken)
    || (phase == HasToken && step == Bind(port) && next == Bound)
    || (phase == Bound && step == Stage && next == Staged)
    || (phase == Staged && step == Publish && next == Serving)
  }

  lemma AloneGetsToken(inst: string -> string, f: string, pid: nat, port: nat, t: string, phase: Phase, step: DaemonStep, next: Phase)
    requires HexToken(t) && Leads(phase, step, next, port, t) && (phase.Locked? || phase.WritingToken?)
    ensures CanServe(inst, Alone(inst, f, pid, port, t, phase), 0, step)
    ensures Served(inst, Alone(inst, f, pid, port, t, phase), 0, step) == Alone(inst, f, pid, port, t, next)
  {
  }

  lemma AloneGetsServing(inst: string -> string, f: string, pid: nat, port: nat, t: string, phase: Phase, step: DaemonStep, next: Phase)
    requires Leads(phase, step, next, port, t) && !phase.Locked? && !phase.WritingToken?
    ensures CanServe(inst, Alone(inst, f, pid, port, t, phase), 0, step)
    ensures Served(inst, Alone(inst, f, pid, port, t, phase), 0, step) == Alone(inst, f, pid, port, t, next)
  {
  }

  lemma AloneMoves(inst: string -> string, f: string, pid: nat, port: nat, t: string, phase: Phase, step: DaemonStep, next: Phase)
    requires HexToken(t) && Leads(phase, step, next, port, t)
    requires Reachable(inst, Alone(inst, f, pid, port, t, phase))
    ensures Reachable(inst, Alone(inst, f, pid, port, t, next))
  {
    var w := Alone(inst, f, pid, port, t, phase);
    if phase.Locked? || phase.WritingToken? {
      AloneGetsToken(inst, f, pid, port, t, phase, step, next);
    } else {
      AloneGetsServing(inst, f, pid, port, t, phase, step, next);
    }
    ReachesNext(inst, w, Serve(0, step));
  }

  lemma GetsLock(inst: string -> string, f: string, pid: nat, port: nat, t: string)
    ensures Reachable(inst, Alone(inst, f, pid, port, t, Locked))
  {
    assert Runs(inst, EMPTY, []) && After(inst, EMPTY, []) == EMPTY;
    ReachesNext(inst, EMPTY, Serve(0, Start(f, pid)));
    assert Served(inst, EMPTY, 0, Start(f, pid)) == Alone(inst, f, pid, port, t, Locked);
  }

  lemma GetsToServe(inst: string -> string, f: string, pid: nat, port: nat, t: string)
    requires HexToken(t)
    ensures Reachable(inst, Alone(inst, f, pid, port, t, Serving))
  {
    GetsLock(inst, f, pid, port, t);
    AloneMoves(inst, f, pid, port, t, Locked, CreateToken(t), WritingToken);
    AloneMoves(inst, f, pid, port, t, WritingToken, FinishToken(TOKEN_CHARS), HasToken);
    AloneMoves(inst, f, pid, port, t, HasToken, Bind(port), Bound);
    AloneMoves(inst, f, pid, port, t, Bound, Stage, Staged);
    AloneMoves(inst, f, pid, port, t, Staged, Publish, Serving);
  }

  /** After a crash the state file survives, and a client picks up its port. */
  lemma StaleStateMisleads(inst: string -> string, f: string, pid: nat, port: nat, t: string) returns (w: World)
    requires HexToken(t)
    ensures Reachable(inst, w) && 0 in w.clients && w.clients[0].phase == Armed(port, t) && port !in w.listeners
  {
    GetsToServe(inst, f, pid, port, t);
    w := Alone(inst, f, pid, port, t, Serving);
    ReachesNext(inst, w, Serve(0, Crash));
    w := Apply(inst, w, Serve(0, Crash));
    ReachesNext(inst, w, Call(0, Ask(f)));
    w := Apply(inst, w, Call(0, Ask(f)));
    ReachesNext(inst, w, Call(0, FindState));
    w := Apply(inst, w, Call(0, FindState));
    ReachesNext(inst, w, Call(0, LoadToken));
    w := Apply(inst, w, Call(0, LoadToken));
  }

  lemma TwoSteps(inst: string -> string, w: World, a: Action, b: Action)
    requires Enabled(inst, w, a) && Enabled(inst, Apply(inst, w, a), b)
    ensures Runs(inst, w, [a, b]) && After(inst, w, [a, b]) == Apply(inst, Apply(inst, w, a), b)
  {
    var next := Apply(inst, w, a);
    assert Runs(inst, next, []) && After(inst, next, []) == next;
    RunsAppend(inst, next, [], b);
    assert [] + [b] == [b] && [a, b][1..] == [b];
  }

  lemma ThreeSteps(inst: string -> string, w: World, a: Action, b: Action, c: Action)
    requires Enabled(inst, w, a) && Enabled(inst, Apply(inst, w, a), b)
    requires Enabled(inst, Apply(inst, Apply(inst, w, a), b), c)
    ensures Runs(inst, w, [a, b, c])
    ensures After(inst, w, [a, b, c]) == Apply(inst, Apply(inst, Apply(inst, w, a), b), c)
  {
    TwoSteps(inst, w, a, b);
    RunsAppend(inst, w, [a, b], c);
    assert [a, b] + [c] == [a, b, c];
  }

  /** The failure: once the port of a stale state file is a stranger's, any JSON object it replies is taken. */
  lemma StrangerIsBelieved(inst: string -> string, w: World, c: nat, usable: bool)
    requires c in w.clients && w.clients[c].phase.Armed? && w.clients[c].phase.port !in w.listeners
    ensures var actions := [ForeignListen(w.clients[c].phase.port), Call(c, Post), Call(c, Receive(usable))];
            && Runs(inst, w, actions)
            && c in After(inst, w, actions).clients
            && After(inst, w, actions).clients[c].phase == if usable then Answered(Foreign) else Failed
  {
    ThreeSteps(inst, w, ForeignListen(w.clients[c].phase.port), Call(c, Post), Call(c, Receive(usable)));
  }

  /** A request that reaches a daemon before it serves is queued, and answered once it does. */
  lemma QueuedIsAnswered(inst: string -> string, w: World, c: nat, q: nat)
    requires Reachable(inst, w) && c in w.clients && w.clients[c].phase.Waiting?
    requires w.clients[c].phase.server == DaemonAt(q) && CanServe(inst, w, q, Publish)
    requires w.daemons[q].fingerprint == w.clients[c].fingerprint
    ensures Runs(inst, w, [Serve(q, Publish), Call(c, Receive(true))])
    ensures var next := After(inst, w, [Serve(q, Publish), Call(c, Receive(true))]);
            c in next.clients && next.clients[c].phase == Answered(DaemonAt(q))
  {
    ReachableInv(inst, w);
    assert Timely(w.daemons[q]);
    TwoSteps(inst, w, Serve(q, Publish), Call(c, Receive(true)));
  }

  lemma NextWorld(inst: string -> string, w: World, a: Action) returns (next: World)
    requires Reachable(inst, w) && Enabled(inst, w, a)
    ensures next == Apply(inst, w, a) && Reachable(inst, next)
  {
    next := Apply(inst, w, a);
    ReachesNext(inst, w, a);
  }

  /** A crashed daemon's state file, and a second daemon of the same fingerprint and process identifier. */
  predicate Restarted(inst: string -> string, w: World, f: string, pid: nat, port: nat, phase: Phase) {
    && 1 in w.daemons && w.daemons[1].fingerprint == f && w.daemons[1].pid == pid
    && w.daemons[1].phase == phase && !w.daemons[1].published
    && inst(f) in w.states && w.states[inst(f)] == Record(f, pid, port, 0)
  }

  lemma Restarts(inst: string -> string, f: string, pid: nat, port: nat, t: string) returns (w: World)
    requires HexToken(t)
    ensures Reachable(inst, w) && Restarted(inst, w, f, pid, port, HasToken) && w.listeners == map[]
  {
    GetsToServe(inst, f, pid, port, t);
    w := Alone(inst, f, pid, port, t, Serving);
    w := NextWorld(inst, w, Serve(0, Crash));
    w := NextWorld(inst, w, Serve(1, Start(f, pid)));
    w := NextWorld(inst, w, Serve(1, ReadToken));
  }

  /** A daemon unlinks what a crashed one left, when process identifier and port come round again. */
  lemma RecycledRemoval(inst: string -> string, f: string, pid: nat, port: nat, t: string) returns (w: World)
    requires HexToken(t)
    ensures Reachable(inst, w) && CanServe(inst, w, 1, Unlink) && Restarted(inst, w, f, pid, port, Removing)
  {
    w := Restarts(inst, f, pid, port, t);
    w := NextWorld(inst, w, Serve(1, Bind(port)));
    w := NextWorld(inst, w, Serve(1, Close));
    w := NextWorld(inst, w, Serve(1, Inspect));
  }

  // ---- when a token can still be obtained --------------------------------------------

  /** The token file is short, and the process that created it, alive or not, is no longer writing it. */
  predicate Wedged(w: World) {
    && w.token.Some? && w.token.value.written != TOKEN_CHARS
    && match w.token.value.creator
       case AsDaemon(p) => p in w.daemons && !w.daemons[p].phase.WritingToken?
       case AsClient(c) => c in w.clients && !w.clients[c].phase.Creating?
  }

  /** Nobody who had no token got one. */
  ghost predicate NoNewTokens(w: World, next: World) {
    && next.token == w.token
    && (forall p :: p in next.daemons && next.daemons[p].token.Some? ==> p in w.daemons && w.daemons[p].token.Some?)
    && (forall c :: c in next.clients && HasOwnToken(next.clients[c]) ==> c in w.clients && HasOwnToken(w.clients[c]))
  }

  lemma StepKeepsWedged(inst: string -> string, w: World, a: Action)
    requires Enabled(inst, w, a) && Wedged(w)
    ensures Wedged(Apply(inst, w, a)) && NoNewTokens(w, Apply(inst, w, a))
  {
  }

  /** If the creator of the token file is cut off before the end, no process gets a token ever after. */
  lemma {:induction false} WedgedForever(inst: string -> string, w: World, actions: seq<Action>)
    requires Runs(inst, w, actions) && Wedged(w)
    ensures Wedged(After(inst, w, actions)) && NoNewTokens(w, After(inst, w, actions))
    decreases |actions|
  {
    if actions != [] {
      StepKeepsWedged(inst, w, actions[0]);
      WedgedForever(inst, Apply(inst, w, actions[0]), actions[1..]);
    }
  }

  /** Some process has a token that had none. */
  ghost predicate Obtains(w: World, next: World) {
    || (exists p :: p in next.daemons && next.daemons[p].token.Some? && !(p in w.daemons && w.daemons[p].token.Some?))
    || (exists c :: c in next.clients && HasOwnToken(next.clients[c]) && !(c in w.clients && HasOwnToken(w.clients[c])))
  }

  /** A run of some length after which a process has obtained a token. */
  ghost predicate Obtainable(inst: string -> string, w: World) {
    exists actions :: Runs(inst, w, actions) && Obtains(w, After(inst, w, actions))
  }

  lemma {:induction false} RunsConcat(inst: string -> string, w: World, a: seq<Action>, b: seq<Action>)
    requires Runs(inst, w, a) && Runs(inst, After(inst, w, a), b)
    ensures Runs(inst, w, a + b) && After(inst, w, a + b) == After(inst, After(inst, w, a), b)
    decreases |a|
  {
    if a == [] {
      assert a + b == b;
    } else {
      RunsConcat(inst, Apply(inst, w, a[0]), a[1..], b);
      assert (a + b)[1..] == a[1..] + b;
    }
  }

  lemma FreshNumbers(w: World) returns (p: nat, pid: nat)
    ensures p !in w.daemons && forall q :: q in w.daemons ==> w.daemons[q].pid != pid
  {
    p := Above(w.daemons.Keys);
    var pids := set q | q in w.daemons :: w.daemons[q].pid;
    pid := Above(pids);
    assert p !in w.daemons.Keys;
    forall q | q in w.daemons ensures w.daemons[q].pid != pid {
      assert w.daemons[q].pid in pids;
    }
  }

  lemma OneStep(inst: string -> string, w: World, a: Action)
    requires Enabled(inst, w, a)
    ensures Runs(inst, w, [a]) && After(inst, w, [a]) == Apply(inst, w, a)
  {
    assert Runs(inst, Apply(inst, w, a), []);
    assert [a][1..] == [];
  }

  /** A new daemon can always get to its lock, at worst after the holder has crashed. */
  lemma CanLock(inst: string -> string, w: World) returns (actions: seq<Action>, p: nat)
    requires Inv(inst, w)
    ensures p !in w.daemons && Runs(inst, w, actions)
    ensures var next := After(inst, w, actions);
            p in next.daemons && next.daemons[p].phase.Locked? && next.token == w.token
  {
    var pid: nat;
    p, pid := FreshNumbers(w);
    if inst("") in w.locks {
      var q := w.locks[inst("")];
      var crashed := Apply(inst, w, Serve(q, Crash));
      actions := [Serve(q, Crash), Serve(p, Start("", pid))];
      assert crashed.daemons == w.daemons[q := w.daemons[q].(phase := Gone(true))];
      TwoSteps(inst, w, actions[0], actions[1]);
    } else {
      actions := [Serve(p, Start("", pid))];
      OneStep(inst, w, actions[0]);
    }
  }

  /** A locked daemon obtains a token if the file is missing or complete. */
  lemma LockedObtains(inst: string -> string, w: World, p: nat, t: string) returns (actions: seq<Action>)
    requires p in w.daemons && w.daemons[p].phase.Locked? && HexToken(t)
    requires w.token.None? || Readable(w)
    ensures Runs(inst, w, actions)
    ensures p in After(inst, w, actions).daemons && After(inst, w, actions).daemons[p].token.Some?
  {
    if w.token.None? {
      actions := [Serve(p, CreateToken(t)), Serve(p, FinishToken(TOKEN_CHARS))];
      TwoSteps(inst, w, actions[0], actions[1]);
    } else {
      actions := [Serve(p, ReadToken)];
      OneStep(inst, w, actions[0]);
    }
  }

  lemma NewDaemonObtains(inst: string -> string, w: World, t: string)
    requires Inv(inst, w) && HexToken(t) && (w.token.None? || Readable(w))
    ensures Obtainable(inst, w)
  {
    var first, p := CanLock(inst, w);
    var rest := LockedObtains(inst, After(inst, w, first), p, t);
    RunsConcat(inst, w, first, rest);
    assert Runs(inst, w, first + rest) && Obtains(w, After(inst, w, first + rest));
  }

  /** The creator of the token file, still at it, obtains the token by finishing. */
  lemma CreatorObtains(inst: string -> string, w: World)
    requires Inv(inst, w) && w.token.Some? && w.token.value.written != TOKEN_CHARS && !Wedged(w)
    ensures Obtainable(inst, w)
  {
    var a := match w.token.value.creator
      case AsDaemon(p) => Serve(p, FinishToken(TOKEN_CHARS))
      case AsClient(c) => Call(c, StoreToken(TOKEN_CHARS));
    if w.token.value.creator.AsDaemon? {
      assert Timely(w.daemons[w.token.value.creator.daemon]);
    }
    OneStep(inst, w, a);
    assert Runs(inst, w, [a]) && Obtains(w, After(inst, w, [a]));
  }

  /** From a reachable world some process can still obtain a token exactly if the file is not short with nobody writing it. */
  lemma ObtainableIff(inst: string -> string, w: World)
    requires Reachable(inst, w)
    ensures Obtainable(inst, w) <==> !Wedged(w)
  {
    ReachableInv(inst, w);
    if Wedged(w) {
      forall actions | Runs(inst, w, actions) ensures !Obtains(w, After(inst, w, actions)) {
        WedgedForever(inst, w, actions);
      }
    } else if w.token.Some? && w.token.value.written != TOKEN_CHARS {
      CreatorObtains(inst, w);
    } else {
      var t := seq(TOKEN_CHARS, _ => '0');
      NewDaemonObtains(inst, w, t);
    }
  }

  /** And the file does get wedged: its creator crashes before writing. */
  lemma WedgeHappens(inst: string -> string, f: string, pid: nat, port: nat, t: string) returns (w: World)
    requires HexToken(t)
    ensures Reachable(inst, w) && Wedged(w)
  {
    GetsLock(inst, f, pid, port, t);
    AloneMoves(inst, f, pid, port, t, Locked, CreateToken(t), WritingToken);
    w := NextWorld(inst, Alone(inst, f, pid, port, t, WritingToken), Serve(0, Crash));
  }

  // ---- what may happen at any time ---------------------------------------------------

  /**
    Nothing that daemons can do is left out: starts wherever the lock is free, crashes at any point,
    exceptions before the server exists, tokens written in full or in part, and any free port.
  */
  lemma AnyDaemonStep(inst: string -> string, w: World, p: nat, f: string, pid: nat, port: nat, t: string, written: nat)
    ensures p !in w.daemons && inst(f) !in w.locks
            && (forall q :: q in w.daemons && !w.daemons[q].phase.Gone? ==> w.daemons[q].pid != pid) ==>
              Enabled(inst, w, Serve(p, Start(f, pid)))
    ensures p in w.daemons && !w.daemons[p].phase.Gone? ==> Enabled(inst, w, Serve(p, Crash))
    ensures p in w.daemons && (w.daemons[p].phase == Locked || w.daemons[p].phase == WritingToken || w.daemons[p].phase == HasToken) ==>
              Enabled(inst, w, Serve(p, Abort))
    ensures p in w.daemons && w.daemons[p].phase == Locked && w.token == None && HexToken(t) ==>
              Enabled(inst, w, Serve(p, CreateToken(t)))
    ensures p in w.daemons && w.daemons[p].phase == WritingToken && w.token.Some? && w.token.value.creator == AsDaemon(p) && written <= 64 ==>
              Enabled(inst, w, Serve(p, FinishToken(written)))
    ensures p in w.daemons && w.daemons[p].phase == HasToken && port !in w.listeners ==> Enabled(inst, w, Serve(p, Bind(port)))
    ensures p in w.daemons && (w.daemons[p].phase == Bound || w.daemons[p].phase == Staged || w.daemons[p].phase == Serving) ==>
              Enabled(inst, w, Serve(p, Close))
    ensures p in w.daemons && w.daemons[p].phase == Closed ==> Enabled(inst, w, Serve(p, Inspect))
    ensures p in w.daemons && w.daemons[p].phase == Removing ==> Enabled(inst, w, Serve(p, Unlink))
    ensures p in w.daemons && w.daemons[p].phase == Leaving ==> Enabled(inst, w, Serve(p, Release))
  {
  }

  /** Nor what clients and strangers can do. */
  lemma AnyClientStep(inst: string -> string, w: World, c: nat, f: string, port: nat, t: string, written: nat)
    ensures c !in w.clients ==> Enabled(inst, w, Call(c, Ask(f)))
    ensures c in w.clients && !w.clients[c].phase.Answered? ==> Enabled(inst, w, Call(c, Fail))
    ensures c in w.clients && w.clients[c].phase.Found? && w.token == None && HexToken(t) ==> Enabled(inst, w, Call(c, DrawToken(t)))
    ensures c in w.clients && w.clients[c].phase.Creating? && w.token.Some? && w.token.value.creator == AsClient(c) && written <= 64 ==>
              Enabled(inst, w, Call(c, StoreToken(written)))
    ensures port !in w.listeners ==> Enabled(inst, w, ForeignListen(port))
    ensures port in w.listeners && w.listeners[port] == Foreign ==> Enabled(inst, w, ForeignClose(port))
    ensures c in w.clients && w.clients[c].phase.Waiting? && w.clients[c].phase.server == Foreign ==>
              Enabled(inst, w, Call(c, Receive(true))) && Enabled(inst, w, Call(c, Receive(false)))
  {
  }

  /** The token file of a client: empty when created, then as much of the token as was written. */
  lemma ClientWritesToken(inst: string -> string, w: World, c: nat, t: string, written: nat)
    requires c in w.clients && w.clients[c].phase.Found? && w.token == None && HexToken(t) && written <= 64
    ensures var drawn := Apply(inst, w, Call(c, DrawToken(t)));
            && drawn.token == Some(TokenFile(t, 0, AsClient(c)))
            && Enabled(inst, drawn, Call(c, StoreToken(written)))
            && Apply(inst, drawn, Call(c, StoreToken(written))).token == Some(TokenFile(t, written, AsClient(c)))
            && Apply(inst, drawn, Call(c, StoreToken(written))).clients[c].phase == Armed(w.clients[c].phase.port, t)
  {
  }

  /** The same of a daemon. */
  lemma DaemonWritesToken(inst: string -> string, w: World, p: nat, t: string, written: nat)
    requires p in w.daemons && w.daemons[p].phase == Locked && w.token == None && HexToken(t) && written <= 64
    ensures var created := Apply(inst, w, Serve(p, CreateToken(t)));
            && created.token == Some(TokenFile(t, 0, AsDaemon(p)))
            && Enabled(inst, created, Serve(p, FinishToken(written)))
            && Apply(inst, created, Serve(p, FinishToken(written))).token == Some(TokenFile(t, written, AsDaemon(p)))
            && Apply(inst, created, Serve(p, FinishToken(written))).daemons[p].token == Some(t)
  {
  }
}
