/**
  The daemon's request handler and the file operations of the runtime directory, in place.
  Source: integrations/codex/local_recall_daemon.py, `_RecallHandler.do_POST`,
  `_read_or_create_token`, `_write_state` and `_remove_owned_state`.
*/
module RecallServer {
  import opened Prelude
  import opened DaemonLifecycle

  const MAX_QUERY_CHARS: nat := 20_000
  const MAX_REQUEST_BYTES: nat := 32_768

  /** A request body that is a JSON object: its fingerprint (empty if absent), and its query if that is a string. */
  datatype Document = Document(fingerprint: string, query: Option<string>)

  /** A request; a length that is no integer, or a body that is no JSON, is `None`; other JSON is `Some(None)`. */
  datatype Request = Request(path: string, token: string, length: Option<int>, body: Option<Option<Document>>)

  /** What the runtime gives for a query: it raises, gives something that is no object, or a result. */
  datatype Outcome = Raised | NotAnObject | Result(text: string)

  predicate Trusted(token: string, fingerprint: string, r: Request) {
    && r.token == token
    && r.length.Some? && 1 <= r.length.value <= MAX_REQUEST_BYTES
    && r.body.Some? && r.body.value.Some? && r.body.value.value.fingerprint == fingerprint
  }

  predicate GoodQuery(query: Option<string>, blank: string -> bool) {
    query.Some? && !blank(query.value) && |query.value| <= MAX_QUERY_CHARS
  }

  /** The token and the fingerprint of this daemon, on a body of 1 to 32768 bytes. */
  lemma TrustedInWords(token: string, fingerprint: string, r: Request)
    ensures Trusted(token, fingerprint, r) <==>
              r.token == token && (exists n :: 0 < n < 32769 && r.length == Some(n))
              && exists query :: r.body == Some(Some(Document(fingerprint, query)))
  {
    if Trusted(token, fingerprint, r) {
      assert r.length == Some(r.length.value);
      assert r.body == Some(Some(Document(fingerprint, r.body.value.value.query)));
    }
  }

  /** A query that is a string, not blank, and of at most 20000 characters. */
  lemma GoodQueryInWords(query: Option<string>, blank: string -> bool)
    ensures GoodQuery(query, blank) <==> query != None && !blank(query.value) && |query.value| < 20001
  {
  }

  class Server {
    const token: string
    const fingerprint: string
    var lastActivity: int
    var stopRequested: bool

    constructor (token: string, fingerprint: string, now: int)
      ensures this.token == token && this.fingerprint == fingerprint
      ensures lastActivity == now && !stopRequested
    {
      this.token, this.fingerprint, lastActivity, stopRequested := token, fingerprint, now, false;
    }

    /**
      Only a request with the token and the fingerprint of this daemon has any effect: it keeps
      the daemon awake, and on `/shutdown` stops it. A recall is answered exactly if such a
      request carries a usable query and the runtime gives a result.
    */
    method DoPost(r: Request, now: int, recall: string -> Outcome, blank: string -> bool) returns (status: int)
      modifies this
      ensures lastActivity == if Trusted(token, fingerprint, r) then now else old(lastActivity)
      ensures stopRequested <==> old(stopRequested) || (Trusted(token, fingerprint, r) && r.path == "/shutdown")
      ensures r.path == "/v1/recall" ==>
                (status == 200 <==>
                   && Trusted(token, fingerprint, r) && GoodQuery(r.body.value.value.query, blank)
                   && recall(r.body.value.value.query.value).Result?)
      ensures r.path == "/health" || r.path == "/shutdown" ==> (status == 200 <==> Trusted(token, fingerprint, r))
      ensures status == 413 <==>
                r.token == token && r.length.Some? && !(1 <= r.length.value <= MAX_REQUEST_BYTES)
      ensures status == 404 <==>
                Trusted(token, fingerprint, r) && r.path !in {"/health", "/shutdown", "/v1/recall"}
      ensures status == 503 <==>
                && Trusted(token, fingerprint, r) && r.path == "/v1/recall"
                && GoodQuery(r.body.value.value.query, blank) && !recall(r.body.value.value.query.value).Result?
      ensures status in {200, 400, 403, 404, 413, 503}
      ensures status == 200 ==> r.path in {"/health", "/shutdown", "/v1/recall"}
      ensures status == 403 <==>
                r.token != token
                || (r.length.Some? && 1 <= r.length.value <= MAX_REQUEST_BYTES && r.body.Some?
                    && (r.body.value.None? || r.body.value.value.fingerprint != fingerprint))
    {
      if r.token != token {
        return 403;
      }
      if r.length.None? {
        return 400;
      }
      if !(1 <= r.length.value <= MAX_REQUEST_BYTES) {
        return 413;
      }
      if r.body.None? {
        return 400;
      }
      if r.body.value.None? || r.body.value.value.fingerprint != fingerprint {
        return 403;
      }
      var document := r.body.value.value;
      lastActivity := now;
      if r.path == "/health" {
        return 200;
      }
      if r.path == "/shutdown" {
        stopRequested := true;
        return 200;
      }
      if r.path != "/v1/recall" {
        return 404;
      }
      if !GoodQuery(document.query, blank) {
        return 400;
      }
      var result := recall(document.query.value);
      return if result.Result? then 200 else 503;
    }
  }

  class RuntimeDir {
    var states: map<string, Record>
    var temps: map<(string, nat), Record>
    var token: Option<TokenFile>

    constructor ()
      ensures states == map[] && temps == map[] && token.None?
    {
      states, temps, token := map[], map[], None;
    }

    /** Creates the token file and fills it, or reads it: then a short file is an error. */
    method ReadOrCreateToken(drawn: string, me: Actor) returns (result: Option<string>)
      requires HexToken(drawn)
      requires token.Some? ==> HexToken(token.value.full) && token.value.written <= TOKEN_CHARS
      modifies this`token
      ensures old(token).None? ==> token == Some(TokenFile(drawn, TOKEN_CHARS, me)) && result == Some(drawn)
      ensures old(token).Some? ==> token == old(token)
      ensures old(token).Some? ==>
                result == if old(token).value.written == TOKEN_CHARS then Some(old(token).value.full) else None
    {
      if token.None? {
        token := Some(TokenFile(drawn, 0, me));
        token := Some(token.value.(written := TOKEN_CHARS));
        return Some(drawn);
      }
      var text := token.value.full[..token.value.written];
      if |text| == TOKEN_CHARS {
        assert text == token.value.full;
        return Some(text);
      }
      return None;
    }

    /** Writes beside the state file and moves into place; a left-over temporary file is an error. */
    method WriteState(inst: string -> string, d: Daemon, p: nat) returns (ok: bool)
      modifies this`states, this`temps
      ensures ok <==> Key(inst, d) !in old(temps)
      ensures temps == old(temps)
      ensures states == if ok then old(states)[inst(d.fingerprint) := Record(d.fingerprint, d.pid, d.port, p)] else old(states)
    {
      var key := Key(inst, d);
      if key in temps {
        return false;
      }
      temps := temps[key := Record(d.fingerprint, d.pid, d.port, p)];
      states, temps := states[inst(d.fingerprint) := temps[key]], temps - {key};
      return true;
    }

    /** Unlinks the state file if it names this fingerprint, process and port. */
    method RemoveOwnedState(inst: string -> string, d: Daemon)
      modifies this`states
      ensures var i := inst(d.fingerprint);
              states == if i in old(states) && old(states)[i].fingerprint == d.fingerprint
                           && old(states)[i].pid == d.pid && old(states)[i].port == d.port
                        then old(states) - {i} else old(states)
    {
      var i := inst(d.fingerprint);
      if i in states && states[i].fingerprint == d.fingerprint {
        if states[i].pid == d.pid && states[i].port == d.port {
          states := states - {i};
        }
      }
    }
  }

  /** `WriteState` is the daemon's two steps `Stage` and `Publish` taken together. */
  lemma WriteStateIsStageThenPublish(inst: string -> string, w: World, p: nat)
    requires CanServe(inst, w, p, Stage)
    ensures var d := w.daemons[p];
            var staged := Served(inst, w, p, Stage);
            && CanServe(inst, staged, p, Publish)
            && Served(inst, staged, p, Publish).temps == w.temps
            && Served(inst, staged, p, Publish).states
               == w.states[inst(d.fingerprint) := Record(d.fingerprint, d.pid, d.port, p)]
  {
    var d := w.daemons[p];
    var staged := Served(inst, w, p, Stage);
    assert staged.daemons[p] == d.(phase := Staged);
    assert staged.temps - {Key(inst, d)} == w.temps;
  }

  /** `RemoveOwnedState` is the daemon's check and, if that succeeds, its unlinking. */
  lemma RemoveIsInspectThenUnlink(inst: string -> string, w: World, p: nat)
    requires CanServe(inst, w, p, Inspect)
    ensures var d := w.daemons[p];
            var checked := Served(inst, w, p, Inspect);
            var own := LooksOwn(w, inst(d.fingerprint), d);
            && (CanServe(inst, checked, p, Unlink) <==> own)
            && (own ==> Served(inst, checked, p, Unlink).states == w.states - {inst(d.fingerprint)})
            && (!own ==> CanServe(inst, checked, p, Release) && Served(inst, checked, p, Release).states == w.states)
  {
    var d := w.daemons[p];
    var checked := Served(inst, w, p, Inspect);
    assert checked.daemons[p].fingerprint == d.fingerprint;
  }
}
