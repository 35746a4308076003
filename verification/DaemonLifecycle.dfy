/**
  Recall daemons, their clients, and the files they share in one runtime directory.
  Source: integrations/codex/local_recall_daemon.py, `_InstanceLock`,
  `_read_or_create_token`, `_read_state`, `_write_state`, `_remove_owned_state`,
  `serve`, `_RecallHandler.do_POST`, `_post` and `recall`.

  Processes are named by numbers that are never used again; the process identifiers
  they write into files are recycled, and so are ports.
*/
module DaemonLifecycle {
  import opened Prelude

  const TOKEN_CHARS: nat := 64

  /** What a state file says; `writer` is the process that wrote it (history, not content). */
  datatype Record = Record(fingerprint: string, pid: nat, port: nat, writer: nat)

  /** Where `serve` stands. */
  datatype Phase =
    | Locked          // holds the instance lock
    | WritingToken    // created the token file and is writing it
    | HasToken
    | Bound           // the server socket listens
    | Staged          // the temporary state file is written
    | Serving         // the state file is in place
    | Closed          // the server socket is closed
    | Removing        // has read its own state file and is about to unlink it
    | Leaving         // about to release the lock
    | Gone(crashed: bool)

  datatype Daemon = Daemon(fingerprint: string, pid: nat, phase: Phase, token: Option<string>, port: nat, published: bool)

  datatype ClientPhase =
    | Asking
    | Found(port: nat)
    | Creating(port: nat)
    | Armed(port: nat, token: string)
    | Waiting(server: Owner, token: string)
    | Answered(server: Owner)
    | Failed

  datatype Client = Client(fingerprint: string, phase: ClientPhase)

  datatype Owner = DaemonAt(id: nat) | Foreign

  datatype Actor = AsDaemon(daemon: nat) | AsClient(client: nat)

  /** The token file: the token its creator drew, and how much of it has been written. */
  datatype TokenFile = TokenFile(full: string, written: nat, creator: Actor)

  datatype World = World(
    daemons: map<nat, Daemon>,
    clients: map<nat, Client>,
    locks: map<string, nat>,
    states: map<string, Record>,
    temps: map<(string, nat), Record>,
    token: Option<TokenFile>,
    listeners: map<nat, Owner>)

  /** Steps of `serve`; `Crash` may come at any point, `Abort` is an exception before the server exists. */
  datatype DaemonStep =
    | Start(fingerprint: string, pid: nat)
    | ReadToken
    | CreateToken(full: string)
    | FinishToken(written: nat)
    | Bind(port: nat)
    | Stage
    | Publish
    | Close
    | Inspect
    | Unlink
    | Abort
    | Release
    | Crash

  /** Steps of `recall`; `usable` says whether a stranger's reply is a success with a JSON object. */
  datatype ClientStep =
    | Ask(fingerprint: string)
    | FindState
    | LoadToken
    | DrawToken(full: string)
    | StoreToken(written: nat)
    | Post
    | Receive(usable: bool)
    | Fail

  datatype Action =
    | Serve(p: nat, step: DaemonStep)
    | Call(c: nat, move: ClientStep)
    | ForeignListen(port: nat)
    | ForeignClose(port: nat)

  predicate Live(d: Daemon) {
    !d.phase.Gone?
  }

  predicate Listening(d: Daemon) {
    d.phase.Bound? || d.phase.Staged? || d.phase.Serving?
  }

  predicate HexToken(s: string) {
    |s| == TOKEN_CHARS && forall i :: 0 <= i < |s| ==> '0' <= s[i] <= '9' || 'a' <= s[i] <= 'f'
  }

  /** A reader accepts the token file only when it holds all of a token. */
  predicate Readable(w: World) {
    w.token.Some? && HexToken(w.token.value.full) && w.token.value.written == TOKEN_CHARS
  }

  /** `_read_state` yields the record of instance `i` to a reader with this fingerprint. */
  predicate ReadsState(w: World, i: string, fingerprint: string) {
    i in w.states && w.states[i].fingerprint == fingerprint
  }

  /** The check of `_remove_owned_state`. */
  predicate LooksOwn(w: World, i: string, d: Daemon) {
    ReadsState(w, i, d.fingerprint) && w.states[i].pid == d.pid && w.states[i].port == d.port
  }

  /** The handler's two checks: the token, then the fingerprint; only a serving daemon handles requests. */
  predicate Accepts(d: Daemon, fingerprint: string, token: string) {
    d.phase.Serving? && d.token == Some(token) && d.fingerprint == fingerprint
  }

  ghost predicate CanServe(inst: string -> string, w: World, p: nat, step: DaemonStep) {
    if step.Start? then
      && p !in w.daemons && inst(step.fingerprint) !in w.locks
      && forall q :: q in w.daemons && Live(w.daemons[q]) ==> w.daemons[q].pid != step.pid
    else
      && p in w.daemons
      && var d := w.daemons[p];
      match step
      case ReadToken => d.phase.Locked? && Readable(w)
      case CreateToken(full) => d.phase.Locked? && w.token.None? && HexToken(full)
      case FinishToken(written) => d.phase.WritingToken? && Created(w, AsDaemon(p)) && written <= TOKEN_CHARS
      case Bind(port) => d.phase.HasToken? && port !in w.listeners
      case Stage => d.phase.Bound? && Key(inst, d) !in w.temps
      case Publish => d.phase.Staged? && Key(inst, d) in w.temps
      case Close => Listening(d)
      case Inspect => d.phase.Closed?
      case Unlink => d.phase.Removing?
      case Abort => d.phase.Locked? || d.phase.WritingToken? || d.phase.HasToken?
      case Release => d.phase.Leaving?
      case Crash => Live(d)
  }

  ghost predicate CanCall(inst: string -> string, w: World, c: nat, move: ClientStep) {
    if move.Ask? then c !in w.clients
    else
      && c in w.clients
      && var client := w.clients[c];
      match move
      case FindState => client.phase.Asking? && ReadsState(w, inst(client.fingerprint), client.fingerprint)
      case LoadToken => client.phase.Found? && Readable(w)
      case DrawToken(full) => client.phase.Found? && w.token.None? && HexToken(full)
      case StoreToken(written) => client.phase.Creating? && Created(w, AsClient(c)) && written <= TOKEN_CHARS
      case Post => client.phase.Armed? && Reaches(w, client.phase.port)
      case Receive(_) => client.phase.Waiting? && Responds(w, client.phase.server)
      case Fail => !client.phase.Answered?
  }

  ghost predicate Enabled(inst: string -> string, w: World, a: Action) {
    match a
    case Serve(p, step) => CanServe(inst, w, p, step)
    case Call(c, move) => CanCall(inst, w, c, move)
    case ForeignListen(port) => port !in w.listeners
    case ForeignClose(port) => port in w.listeners && w.listeners[port] == Foreign
  }

  /** The temporary file's name: the instance and the process identifier. */
  function Key(inst: string -> string, d: Daemon): (string, nat) {
    (inst(d.fingerprint), d.pid)
  }

  predicate Created(w: World, actor: Actor) {
    w.token.Some? && w.token.value.creator == actor
  }

  predicate Reaches(w: World, port: nat) {
    port in w.listeners && (w.listeners[port].DaemonAt? ==> w.listeners[port].id in w.daemons)
  }

  /** A daemon handles requests, queued ones included, once it serves; a stranger may reply at any time. */
  predicate Responds(w: World, server: Owner) {
    server.DaemonAt? ==> server.id in w.daemons && w.daemons[server.id].phase.Serving?
  }

  /** The daemon after its step. */
  ghost function Moved(inst: string -> string, w: World, p: nat, step: DaemonStep): Daemon
    requires CanServe(inst, w, p, step)
  {
    if step.Start? then Daemon(step.fingerprint, step.pid, Locked, None, 0, false)
    else
      var d := w.daemons[p];
      match step
      case ReadToken => d.(phase := HasToken, token := Some(w.token.value.full))
      case CreateToken(_) => d.(phase := WritingToken)
      case FinishToken(_) => d.(phase := HasToken, token := Some(w.token.value.full))
      case Bind(port) => d.(phase := Bound, port := port)
      case Stage => d.(phase := Staged)
      case Publish => d.(phase := Serving, published := true)
      case Close => d.(phase := Closed)
      case Inspect => d.(phase := if LooksOwn(w, inst(d.fingerprint), d) then Removing else Leaving)
      case Unlink => d.(phase := Leaving)
      case Abort => d.(phase := Leaving)
      case Release => d.(phase := Gone(false))
      case Crash => d.(phase := Gone(true))
  }

  ghost function LocksAfter(inst: string -> string, w: World, p: nat, step: DaemonStep): map<string, nat>
    requires CanServe(inst, w, p, step)
  {
    match step
    case Start(fingerprint, _) => w.locks[inst(fingerprint) := p]
    case Release => w.locks - {inst(w.daemons[p].fingerprint)}
    case Crash => w.locks - {inst(w.daemons[p].fingerprint)}
    case _ => w.locks
  }

  ghost function StatesAfter(inst: string -> string, w: World, p: nat, step: DaemonStep): map<string, Record>
    requires CanServe(inst, w, p, step)
  {
    match step
    case Publish => w.states[inst(w.daemons[p].fingerprint) := w.temps[Key(inst, w.daemons[p])]]
    case Unlink => w.states - {inst(w.daemons[p].fingerprint)}
    case _ => w.states
  }

  ghost function TempsAfter(inst: string -> string, w: World, p: nat, step: DaemonStep): map<(string, nat), Record>
    requires CanServe(inst, w, p, step)
  {
    match step
    case Stage =>
      var d := w.daemons[p];
      w.temps[Key(inst, d) := Record(d.fingerprint, d.pid, d.port, p)]
    case Publish => w.temps - {Key(inst, w.daemons[p])}
    case _ => w.temps
  }

  ghost function TokenAfter(inst: string -> string, w: World, p: nat, step: DaemonStep): Option<TokenFile>
    requires CanServe(inst, w, p, step)
  {
    match step
    case CreateToken(full) => Some(TokenFile(full, 0, AsDaemon(p)))
    case FinishToken(written) => Some(w.token.value.(written := written))
    case _ => w.token
  }

  /** A crash closes the socket as `Close` does. */
  ghost function ListenersAfter(inst: string -> string, w: World, p: nat, step: DaemonStep): map<nat, Owner>
    requires CanServe(inst, w, p, step)
  {
    match step
    case Bind(port) => w.listeners[port := DaemonAt(p)]
    case Close => w.listeners - {w.daemons[p].port}
    case Crash => if Listening(w.daemons[p]) then w.listeners - {w.daemons[p].port} else w.listeners
    case _ => w.listeners
  }

  /** What the client makes of the reply: a daemon checks token and fingerprint, a stranger may say anything. */
  function Reply(w: World, client: Client, usable: bool): ClientPhase
    requires client.phase.Waiting? && Responds(w, client.phase.server)
  {
    match client.phase.server
    case Foreign => if usable then Answered(Foreign) else Failed
    case DaemonAt(q) =>
      if Accepts(w.daemons[q], client.fingerprint, client.phase.token) then Answered(DaemonAt(q)) else Failed
  }

  ghost function Advanced(inst: string -> string, w: World, c: nat, move: ClientStep): Client
    requires CanCall(inst, w, c, move)
  {
    if move.Ask? then Client(move.fingerprint, Asking)
    else
      var client := w.clients[c];
      match move
      case FindState => client.(phase := Found(w.states[inst(client.fingerprint)].port))
      case LoadToken => client.(phase := Armed(client.phase.port, w.token.value.full))
      case DrawToken(_) => client.(phase := Creating(client.phase.port))
      case StoreToken(_) => client.(phase := Armed(client.phase.port, w.token.value.full))
      case Post => client.(phase := Waiting(w.listeners[client.phase.port], client.phase.token))
      case Receive(usable) => client.(phase := Reply(w, client, usable))
      case Fail => client.(phase := Failed)
  }

  ghost function TokenThen(inst: string -> string, w: World, c: nat, move: ClientStep): Option<TokenFile>
    requires CanCall(inst, w, c, move)
  {
    match move
    case DrawToken(full) => Some(TokenFile(full, 0, AsClient(c)))
    case StoreToken(written) => Some(w.token.value.(written := written))
    case _ => w.token
  }

  ghost function Served(inst: string -> string, w: World, p: nat, step: DaemonStep): World
    requires CanServe(inst, w, p, step)
  {
    World(w.daemons[p := Moved(inst, w, p, step)], w.clients, LocksAfter(inst, w, p, step),
          StatesAfter(inst, w, p, step), TempsAfter(inst, w, p, step), TokenAfter(inst, w, p, step),
          ListenersAfter(inst, w, p, step))
  }

  ghost function Called(inst: string -> string, w: World, c: nat, move: ClientStep): World
    requires CanCall(inst, w, c, move)
  {
    w.(clients := w.clients[c := Advanced(inst, w, c, move)], token := TokenThen(inst, w, c, move))
  }

  ghost function Apply(inst: string -> string, w: World, a: Action): World
    requires Enabled(inst, w, a)
  {
    match a
    case Serve(p, step) => Served(inst, w, p, step)
    case Call(c, move) => Called(inst, w, c, move)
    case ForeignListen(port) => w.(listeners := w.listeners[port := Foreign])
    case ForeignClose(port) => w.(listeners := w.listeners - {port})
  }

  /** One live process per instance, and that process holds the instance's lock. */
  ghost predicate LocksInv(inst: string -> string, w: World) {
    && (forall i :: i in w.locks ==>
          w.locks[i] in w.daemons && Live(w.daemons[w.locks[i]]) && i == inst(w.daemons[w.locks[i]].fingerprint))
    && (forall p :: p in w.daemons && Live(w.daemons[p]) ==>
          inst(w.daemons[p].fingerprint) in w.locks && w.locks[inst(w.daemons[p].fingerprint)] == p)
  }

  /** The record was written by this daemon, about itself, for this instance. */
  ghost predicate Wrote(inst: string -> string, w: World, i: string, r: Record) {
    && r.writer in w.daemons
    && r == Record(w.daemons[r.writer].fingerprint, w.daemons[r.writer].pid, w.daemons[r.writer].port, r.writer)
    && i == inst(r.fingerprint)
  }

  /** In place since it was published and not yet unlinked. */
  predicate Current(d: Daemon) {
    d.published && (d.phase.Serving? || d.phase.Closed? || d.phase.Removing?)
  }

  /** A state file was written by a daemon that still has to remove it, or that crashed. */
  ghost predicate Explained(inst: string -> string, w: World, i: string)
    requires i in w.states
  {
    && Wrote(inst, w, i, w.states[i])
    && (Current(w.daemons[w.states[i].writer]) || w.daemons[w.states[i].writer].phase == Gone(true))
  }

  ghost predicate WritersInv(inst: string -> string, w: World) {
    forall i :: i in w.states ==> Explained(inst, w, i)
  }

  /** A published daemon's state file stays in place until it is unlinked by that daemon. */
  ghost predicate InPlaceInv(inst: string -> string, w: World) {
    forall p :: p in w.daemons && Current(w.daemons[p]) ==>
      inst(w.daemons[p].fingerprint) in w.states && w.states[inst(w.daemons[p].fingerprint)].writer == p
  }

  /** Between its check and its unlinking, what a daemon checked stays true. */
  ghost predicate CheckedInv(inst: string -> string, w: World) {
    forall p :: p in w.daemons && w.daemons[p].phase.Removing? ==>
      LooksOwn(w, inst(w.daemons[p].fingerprint), w.daemons[p])
  }

  predicate Timely(d: Daemon) {
    && (d.phase.Serving? ==> d.published)
    && (d.phase.HasToken? || Listening(d) ==> d.token.Some?)
    && (d.phase.Locked? || d.phase.WritingToken? ==> d.token.None?)
    && (d.published ==> d.phase.Serving? || d.phase.Closed? || d.phase.Removing? || d.phase.Leaving? || d.phase.Gone?)
  }

  ghost predicate TimelyInv(w: World) {
    forall p :: p in w.daemons ==> Timely(w.daemons[p])
  }

  ghost predicate TempsInv(inst: string -> string, w: World) {
    forall p :: p in w.daemons && w.daemons[p].phase.Staged? ==>
      var key := (inst(w.daemons[p].fingerprint), w.daemons[p].pid);
      key in w.temps && w.temps[key].writer == p && Wrote(inst, w, key.0, w.temps[key])
  }

  /** A port held by a daemon is that daemon's, and the daemon still listens. */
  ghost predicate ListenersInv(w: World) {
    forall port :: port in w.listeners && w.listeners[port].DaemonAt? ==>
      && w.listeners[port].id in w.daemons
      && Listening(w.daemons[w.listeners[port].id]) && w.daemons[w.listeners[port].id].port == port
  }

  /** A listening daemon holds its port. */
  ghost predicate SocketsInv(w: World) {
    forall p :: p in w.daemons && Listening(w.daemons[p]) ==>
      w.daemons[p].port in w.listeners && w.listeners[w.daemons[p].port] == DaemonAt(p)
  }

  /** The token of a daemon, or the one a client is about to present. */
  ghost predicate TokensInv(w: World) {
    && (w.token.Some? ==> HexToken(w.token.value.full) && w.token.value.written <= TOKEN_CHARS)
    && (forall p :: p in w.daemons && w.daemons[p].token.Some? ==>
          w.token.Some? && w.daemons[p].token.value == w.token.value.full)
    && (forall c :: c in w.clients && HasOwnToken(w.clients[c]) ==>
          w.token.Some? && w.clients[c].phase.token == w.token.value.full)
    && (w.token.Some? ==>
          match w.token.value.creator
          case AsDaemon(p) => p in w.daemons
          case AsClient(c) => c in w.clients)
  }

  predicate HasOwnToken(client: Client) {
    client.phase.Armed? || client.phase.Waiting?
  }

  /** A recall that a daemon answered was answered for the fingerprint the client asked with. */
  ghost predicate AnswersInv(w: World) {
    forall c :: c in w.clients && w.clients[c].phase.Answered? && w.clients[c].phase.server.DaemonAt? ==>
      w.clients[c].phase.server.id in w.daemons
      && w.daemons[w.clients[c].phase.server.id].fingerprint == w.clients[c].fingerprint
  }

  /** What holds of the daemons, their locks and their state files. */
  ghost predicate FilesInv(inst: string -> string, w: World) {
    && LocksInv(inst, w) && WritersInv(inst, w) && InPlaceInv(inst, w)
    && CheckedInv(inst, w) && TimelyInv(w) && TempsInv(inst, w)
  }

  ghost predicate Inv(inst: string -> string, w: World) {
    FilesInv(inst, w) && ListenersInv(w) && SocketsInv(w) && TokensInv(w) && AnswersInv(w)
  }

  /** A step changes neither what a daemon is called nor, before its end, that it lives. */
  lemma SameIdentity(inst: string -> string, w: World, p: nat, step: DaemonStep)
    requires CanServe(inst, w, p, step) && !step.Start?
    ensures Moved(inst, w, p, step).fingerprint == w.daemons[p].fingerprint
    ensures Moved(inst, w, p, step).pid == w.daemons[p].pid
    ensures Live(w.daemons[p])
    ensures Live(Moved(inst, w, p, step)) <==> !step.Release? && !step.Crash?
  {
  }

  lemma LocksKept(inst: string -> string, w: World, p: nat, step: DaemonStep)
    requires CanServe(inst, w, p, step) && LocksInv(inst, w)
    ensures LocksInv(inst, Served(inst, w, p, step))
  {
    if !step.Start? {
      SameIdentity(inst, w, p, step);
    }
  }

  lemma TempsKept(inst: string -> string, w: World, p: nat, step: DaemonStep)
    requires CanServe(inst, w, p, step) && LocksInv(inst, w) && TempsInv(inst, w)
    ensures TempsInv(inst, Served(inst, w, p, step))
  {
    if !step.Start? {
      SameIdentity(inst, w, p, step);
    }
  }

  lemma ListenersKept(inst: string -> string, w: World, p: nat, step: DaemonStep)
    requires CanServe(inst, w, p, step) && ListenersInv(w)
    ensures ListenersInv(Served(inst, w, p, step))
  {
  }

  lemma SocketsKept(inst: string -> string, w: World, p: nat, step: DaemonStep)
    requires CanServe(inst, w, p, step) && SocketsInv(w) && ListenersInv(w)
    ensures SocketsInv(Served(inst, w, p, step))
  {
  }

  lemma TokensKept(inst: string -> string, w: World, p: nat, step: DaemonStep)
    requires CanServe(inst, w, p, step) && TokensInv(w)
    ensures TokensInv(Served(inst, w, p, step))
  {
  }

  lemma TimelyKept(inst: string -> string, w: World, p: nat, step: DaemonStep)
    requires CanServe(inst, w, p, step) && TimelyInv(w)
    ensures TimelyInv(Served(inst, w, p, step))
  {
  }

  /** A record that stays is explained as before, unless its writer takes the step. */
  lemma ExplainedStill(inst: string -> string, w: World, p: nat, step: DaemonStep, i: string)
    requires CanServe(inst, w, p, step) && i in w.states && Explained(inst, w, i)
    requires i in StatesAfter(inst, w, p, step) && StatesAfter(inst, w, p, step)[i] == w.states[i]
    requires w.states[i].writer == p ==> !step.Inspect?
    ensures Explained(inst, Served(inst, w, p, step), i)
  {
  }

  /** A daemon whose file is in place and that checks it finds it its own. */
  lemma InspectsOwn(inst: string -> string, w: World, p: nat, i: string)
    requires CanServe(inst, w, p, Inspect) && i in w.states && Explained(inst, w, i) && w.states[i].writer == p
    ensures Explained(inst, Served(inst, w, p, Inspect), i)
  {
  }

  lemma WritersKept(inst: string -> string, w: World, p: nat, step: DaemonStep)
    requires CanServe(inst, w, p, step) && TempsInv(inst, w) && WritersInv(inst, w)
    ensures WritersInv(inst, Served(inst, w, p, step))
  {
    var next := Served(inst, w, p, step);
    forall i | i in next.states ensures Explained(inst, next, i) {
      if i in w.states && next.states[i] == w.states[i] {
        assert Explained(inst, w, i);
        if w.states[i].writer == p && step.Inspect? {
          InspectsOwn(inst, w, p, i);
        } else {
          ExplainedStill(inst, w, p, step, i);
        }
      } else {
        assert step.Publish?;
      }
    }
  }

  /** Another live daemon belongs to another instance. */
  lemma OtherInstance(inst: string -> string, w: World, p: nat, step: DaemonStep, q: nat)
    requires CanServe(inst, w, p, step) && LocksInv(inst, w) && q in w.daemons && q != p && Live(w.daemons[q])
    ensures inst(w.daemons[q].fingerprint) != inst(Moved(inst, w, p, step).fingerprint)
  {
    if !step.Start? {
      SameIdentity(inst, w, p, step);
    }
  }

  lemma OthersInPlace(inst: string -> string, w: World, p: nat, step: DaemonStep, q: nat)
    requires CanServe(inst, w, p, step) && LocksInv(inst, w) && InPlaceInv(inst, w)
    requires q in w.daemons && q != p && Current(w.daemons[q])
    ensures var i := inst(w.daemons[q].fingerprint);
            i in StatesAfter(inst, w, p, step) && StatesAfter(inst, w, p, step)[i].writer == q
  {
    OtherInstance(inst, w, p, step, q);
    if !step.Start? {
      SameIdentity(inst, w, p, step);
    }
  }

  lemma OwnInPlace(inst: string -> string, w: World, p: nat, step: DaemonStep)
    requires CanServe(inst, w, p, step) && !step.Start? && TempsInv(inst, w) && TimelyInv(w) && InPlaceInv(inst, w)
    requires Current(Moved(inst, w, p, step))
    ensures var i := inst(w.daemons[p].fingerprint);
            i in StatesAfter(inst, w, p, step) && StatesAfter(inst, w, p, step)[i].writer == p
  {
    assert Timely(w.daemons[p]);
  }

  lemma InPlaceKept(inst: string -> string, w: World, p: nat, step: DaemonStep)
    requires CanServe(inst, w, p, step) && LocksInv(inst, w) && TempsInv(inst, w) && TimelyInv(w) && InPlaceInv(inst, w)
    ensures InPlaceInv(inst, Served(inst, w, p, step))
  {
    var next := Served(inst, w, p, step);
    forall q | q in next.daemons && Current(next.daemons[q])
      ensures inst(next.daemons[q].fingerprint) in next.states
      ensures next.states[inst(next.daemons[q].fingerprint)].writer == q
    {
      if q == p {
        SameIdentity(inst, w, p, step);
        OwnInPlace(inst, w, p, step);
      } else {
        OthersInPlace(inst, w, p, step, q);
      }
    }
  }

  lemma CheckedKept(inst: string -> string, w: World, p: nat, step: DaemonStep)
    requires CanServe(inst, w, p, step) && LocksInv(inst, w) && CheckedInv(inst, w)
    ensures CheckedInv(inst, Served(inst, w, p, step))
  {
    if !step.Start? {
      SameIdentity(inst, w, p, step);
    }
  }

  lemma AnswersKept(inst: string -> string, w: World, p: nat, step: DaemonStep)
    requires CanServe(inst, w, p, step) && AnswersInv(w)
    ensures AnswersInv(Served(inst, w, p, step))
  {
    if !step.Start? {
      SameIdentity(inst, w, p, step);
    }
  }

  lemma FilesKept(inst: string -> string, w: World, p: nat, step: DaemonStep)
    requires CanServe(inst, w, p, step) && FilesInv(inst, w)
    ensures FilesInv(inst, Served(inst, w, p, step))
  {
    LocksKept(inst, w, p, step);
    TimelyKept(inst, w, p, step);
    WritersKept(inst, w, p, step);
    InPlaceKept(inst, w, p, step);
    CheckedKept(inst, w, p, step);
    TempsKept(inst, w, p, step);
  }

  /** The invariants about files do not mention clients, the token or ports. */
  lemma SameFiles(inst: string -> string, w: World, next: World)
    requires FilesInv(inst, w)
    requires next.daemons == w.daemons && next.locks == w.locks && next.states == w.states && next.temps == w.temps
    ensures FilesInv(inst, next)
  {
    forall i | i in next.states ensures Explained(inst, next, i) {
      assert Explained(inst, w, i);
    }
  }

  lemma CallKeepsTokens(inst: string -> string, w: World, c: nat, move: ClientStep)
    requires CanCall(inst, w, c, move) && TokensInv(w)
    ensures TokensInv(Called(inst, w, c, move))
  {
  }

  lemma CallKeepsAnswers(inst: string -> string, w: World, c: nat, move: ClientStep)
    requires CanCall(inst, w, c, move) && AnswersInv(w)
    ensures AnswersInv(Called(inst, w, c, move))
  {
  }

  lemma ServeKeepsInv(inst: string -> string, w: World, p: nat, step: DaemonStep)
    requires CanServe(inst, w, p, step) && Inv(inst, w)
    ensures Inv(inst, Served(inst, w, p, step))
  {
    FilesKept(inst, w, p, step);
    ListenersKept(inst, w, p, step);
    SocketsKept(inst, w, p, step);
    TokensKept(inst, w, p, step);
    AnswersKept(inst, w, p, step);
  }

  lemma CallKeepsInv(inst: string -> string, w: World, c: nat, move: ClientStep)
    requires CanCall(inst, w, c, move) && Inv(inst, w)
    ensures Inv(inst, Called(inst, w, c, move))
  {
    SameFiles(inst, w, Called(inst, w, c, move));
    CallKeepsTokens(inst, w, c, move);
    CallKeepsAnswers(inst, w, c, move);
  }

  /** Every step of a daemon, a client or a stranger keeps the invariant. */
  lemma StepKeepsInv(inst: string -> string, w: World, a: Action)
    requires Enabled(inst, w, a) && Inv(inst, w)
    ensures Inv(inst, Apply(inst, w, a))
  {
    match a
    case Serve(p, step) => ServeKeepsInv(inst, w, p, step);
    case Call(c, move) => CallKeepsInv(inst, w, c, move);
    case ForeignListen(port) => SameFiles(inst, w, w.(listeners := w.listeners[port := Foreign]));
    case ForeignClose(port) => SameFiles(inst, w, w.(listeners := w.listeners - {port}));
  }

  const EMPTY := World(map[], map[], map[], map[], map[], None, map[])

  /** The actions are possible one after the other. */
  ghost predicate Runs(inst: string -> string, w: World, actions: seq<Action>)
    decreases |actions|
  {
    actions == [] || (Enabled(inst, w, actions[0]) && Runs(inst, Apply(inst, w, actions[0]), actions[1..]))
  }

  ghost function After(inst: string -> string, w: World, actions: seq<Action>): World
    requires Runs(inst, w, actions)
    decreases |actions|
  {
    if actions == [] then w else After(inst, Apply(inst, w, actions[0]), actions[1..])
  }

  lemma {:induction false} RunKeepsInv(inst: string -> string, w: World, actions: seq<Action>)
    requires Runs(inst, w, actions) && Inv(inst, w)
    ensures Inv(inst, After(inst, w, actions))
    decreases |actions|
  {
    if actions != [] {
      StepKeepsInv(inst, w, actions[0]);
      RunKeepsInv(inst, Apply(inst, w, actions[0]), actions[1..]);
    }
  }

  /** The state of the world after any run from an empty runtime directory. */
  ghost predicate Reachable(inst: string -> string, w: World) {
    exists actions :: Runs(inst, EMPTY, actions) && w == After(inst, EMPTY, actions)
  }

  lemma ReachableInv(inst: string -> string, w: World)
    requires Reachable(inst, w)
    ensures Inv(inst, w)
  {
    var actions :| Runs(inst, EMPTY, actions) && w == After(inst, EMPTY, actions);
    RunKeepsInv(inst, EMPTY, actions);
  }

  /** Whoever wrote a state file that is still there holds the instance's lock, or crashed. */
  lemma StateFileWriter(inst: string -> string, w: World, i: string)
    requires Reachable(inst, w) && i in w.states
    ensures w.states[i].writer in w.daemons
    ensures (i in w.locks && w.locks[i] == w.states[i].writer) || w.daemons[w.states[i].writer].phase == Gone(true)
    ensures w.states[i].port == w.daemons[w.states[i].writer].port
  {
    ReachableInv(inst, w);
    assert Explained(inst, w, i);
  }

  /** At most one live daemon for each instance; so no two of one fingerprint serve at once. */
  lemma OneDaemonEach(inst: string -> string, w: World, p: nat, q: nat)
    requires Reachable(inst, w) && p in w.daemons && q in w.daemons
    requires Live(w.daemons[p]) && Live(w.daemons[q])
    requires inst(w.daemons[p].fingerprint) == inst(w.daemons[q].fingerprint)
    ensures p == q
  {
    ReachableInv(inst, w);
  }

  /**
    What a daemon unlinks is its own state file exactly when it had published one; otherwise its
    process identifier and port were recycled, and the file was left by a daemon that crashed.
  */
  lemma RemovesOwnIff(inst: string -> string, w: World, p: nat)
    requires Reachable(inst, w) && CanServe(inst, w, p, Unlink)
    ensures var i := inst(w.daemons[p].fingerprint);
            && i in w.states && w.states[i].writer in w.daemons
            && (w.states[i].writer == p <==> w.daemons[p].published)
            && (!w.daemons[p].published ==> w.daemons[w.states[i].writer].phase == Gone(true))
  {
    ReachableInv(inst, w);
    var i := inst(w.daemons[p].fingerprint);
    assert LooksOwn(w, i, w.daemons[p]);
    assert Explained(inst, w, i);
  }

  /** A daemon that ended without crashing has left no state file. */
  lemma CleanExitLeavesNothing(inst: string -> string, w: World, p: nat, i: string)
    requires Reachable(inst, w) && p in w.daemons && w.daemons[p].phase == Gone(false) && i in w.states
    ensures w.states[i].writer != p
  {
    ReachableInv(inst, w);
    assert Explained(inst, w, i);
  }

  /** Whatever a daemon answered, it answered for the fingerprint that was asked. */
  lemma ServedUnderOwnFingerprint(inst: string -> string, w: World, c: nat)
    requires Reachable(inst, w) && c in w.clients && w.clients[c].phase.Answered?
    ensures w.clients[c].phase.server == Foreign
            || (w.clients[c].phase.server.id in w.daemons
                && w.daemons[w.clients[c].phase.server.id].fingerprint == w.clients[c].fingerprint)
  {
    ReachableInv(inst, w);
  }

  /**
    A daemon that gets round to a request answers it exactly if it was asked for the daemon's own
    fingerprint: a wrong token is never why it refuses, and a stale port never leads to the answer
    of another daemon. A stranger is answered by exactly if its reply is a JSON object.
  */
  lemma AnsweredIff(inst: string -> string, w: World, c: nat, usable: bool)
    requires Reachable(inst, w) && CanCall(inst, w, c, Receive(usable))
    ensures var client := w.clients[c];
            Reply(w, client, usable).Answered? <==>
              match client.phase.server
              case Foreign => usable
              case DaemonAt(q) => w.daemons[q].fingerprint == client.fingerprint
  {
    ReachableInv(inst, w);
    var server := w.clients[c].phase.server;
    if server.DaemonAt? {
      assert Timely(w.daemons[server.id]);
    }
  }

  /** All tokens that were read or drawn successfully are the same. */
  lemma TokensAgree(inst: string -> string, w: World, p: nat, q: nat, c: nat)
    requires Reachable(inst, w)
    requires p in w.daemons && q in w.daemons && w.daemons[p].token.Some? && w.daemons[q].token.Some?
    ensures w.daemons[p].token == w.daemons[q].token && HexToken(w.daemons[p].token.value)
    ensures |w.daemons[p].token.value| == 64 && forall i :: 0 <= i < 64 ==> w.daemons[p].token.value[i] in "0123456789abcdef"
    ensures c in w.clients && HasOwnToken(w.clients[c]) ==> w.clients[c].phase.token == w.daemons[p].token.value
  {
    ReachableInv(inst, w);
    HexInWords(w.daemons[p].token.value);
  }

  lemma HexInWords(s: string)
    ensures HexToken(s) <==> |s| == 64 && forall i :: 0 <= i < 64 ==> s[i] in "0123456789abcdef"
  {
    forall i | 0 <= i < |s| ensures s[i] in "0123456789abcdef" <==> '0' <= s[i] <= '9' || 'a' <= s[i] <= 'f' {
      HexCharInWords(s[i]);
    }
  }

  lemma HexCharInWords(c: char)
    ensures c in "0123456789abcdef" <==> '0' <= c <= '9' || 'a' <= c <= 'f'
  {
    var digits := "0123456789abcdef";
    if '0' <= c <= '9' {
      assert digits[c as int - '0' as int] == c;
    } else if 'a' <= c <= 'f' {
      assert digits[10 + (c as int - 'a' as int)] == c;
    }
  }
}
