/**
  What the rows that transactions write to the audit log are protected against, and the chain
  that sessions leave which append one after the other.
  Source: agentmem/src/lians/audit_chain.py, `compute_row_hash`, `get_chain_tip`, `chain_log`
  and `verify_chain`.
*/
module AuditAppend {
  import opened Prelude
  import opened Canonical
  import opened AuditLog
  import opened AuditTamper
  import opened AuditRuns

  // ---- what every written row carries ------------------------------------------------

  /** A row as `chain_log` writes it for some caller, namespace and tip. */
  ghost predicate Written(env: Env, r: Row) {
    exists d: Draft, hash ::
      && IsDigest(hash)
      && r == Row(d.id, r.namespace, d.agentId, d.op, d.memoryId, d.contentHash, d.payload, d.now,
                  Some(hash), Some(env.sha256(WrittenText(env, r.namespace, hash, d))), 2)
  }

  ghost predicate DigestRow(r: Row) {
    r.rowHash.Some? ==> IsDigest(r.rowHash.value)
  }

  /** Rows that were not there at the start are written ones, and every hash is a digest. */
  ghost predicate AllWritten(env: Env, start: set<Row>, rows: set<Row>) {
    forall r :: r in rows ==> DigestRow(r) && (r in start || Written(env, r))
  }

  ghost predicate TipIsDigest(tx: Tx) {
    tx.tip.Some? ==> IsDigest(tx.tip.value.hash)
  }

  ghost predicate WriteInv(env: Env, start: set<Row>, s: State) {
    && AllWritten(env, start, s.committed)
    && forall t :: t in s.open ==> AllWritten(env, start, s.open[t].own) && TipIsDigest(s.open[t])
  }

  lemma FlushWrites(env: Env, start: set<Row>, s: State, t: nat, d: Draft)
    requires GoodEnv(env) && WriteInv(env, start, s) && Enabled(s, Flush(t, d))
    ensures WriteInv(env, start, Next(env, s, Flush(t, d)))
  {
    var tip := s.open[t].tip.value;
    NewRowWritten(env, tip.namespace, tip.hash, d);
    assert TipIsDigest(s.open[t]);
    assert Written(env, NewRow(env, tip, d));
    assert AllWritten(env, start, s.open[t].own + {NewRow(env, tip, d)});
  }

  lemma ReadTipWrites(env: Env, start: set<Row>, s: State, step: Step)
    requires WriteInv(env, start, s) && step.ReadTip? && Enabled(s, step)
    ensures WriteInv(env, start, Next(env, s, step))
  {
    GenesisIsDigest();
    var visible := step.seen + s.open[step.tx].own;
    if InNamespace(visible, step.ns) != {} {
      var r :| Latest(InNamespace(visible, step.ns), r)
               && step.hash == if r.rowHash.Some? then r.rowHash.value else GENESIS_HASH;
      assert r in s.committed || r in s.open[step.tx].own;
    }
    assert IsDigest(step.hash);
  }

  lemma StepWrites(env: Env, start: set<Row>, s: State, step: Step)
    requires GoodEnv(env) && WriteInv(env, start, s) && Enabled(s, step)
    ensures WriteInv(env, start, Next(env, s, step))
  {
    match step
    case Begin(t) =>
    case ReadTip(t, ns, seen, hash) => ReadTipWrites(env, start, s, step);
    case Flush(t, d) => FlushWrites(env, start, s, t, d);
    case Commit(t) =>
      assert AllWritten(env, start, s.open[t].own);
      assert AllWritten(env, start, s.committed + s.open[t].own);
    case Rollback(t) =>
  }

  /** Over every run, each row that was not there at the start is as `chain_log` writes it. */
  lemma {:induction false} RunWrites(env: Env, start: set<Row>, s: State, steps: seq<Step>)
    requires GoodEnv(env) && WriteInv(env, start, s) && IsRun(env, s, steps)
    ensures WriteInv(env, start, After(env, s, steps))
    decreases steps
  {
    if steps != [] {
      StepWrites(env, start, s, steps[0]);
      RunWrites(env, start, Next(env, s, steps[0]), steps[1..]);
    }
  }

  // ---- edits of written rows ---------------------------------------------------------

  /** The two hashed texts do not collide. */
  ghost predicate NoCollision(env: Env, a: Row, b: Row)
    requires Hashed(a) && Hashed(b)
  {
    env.sha256(TextOf(env, a)) == env.sha256(TextOf(env, b)) ==> TextOf(env, a) == TextOf(env, b)
  }

  /** A written row passes its own check, and what is hashed for it ends in its payload. */
  lemma WrittenIsFaithful(env: Env, r: Row)
    requires Written(env, r)
    ensures Hashed(r) && r.hashVersion == 2 && IsDigest(r.prevHash.value) && Faithful(env, r)
    ensures CoveredBy(env, r, r.prevHash.value) == V2(2, r.prevHash.value, FieldsOf(env, r), r.payload)
  {
    var d: Draft, hash :| IsDigest(hash)
                          && r == Row(d.id, r.namespace, d.agentId, d.op, d.memoryId, d.contentHash, d.payload, d.now,
                                      Some(hash), Some(env.sha256(WrittenText(env, r.namespace, hash, d))), 2);
    NewRowWritten(env, r.namespace, hash, d);
    assert CoveredBy(env, r, hash) == CoveredBy(env, r.(rowHash := None), hash);
  }

  /** No other payload passes, whatever the columns hold. */
  lemma PayloadIsCovered(env: Env, r: Row, payload: string)
    requires Written(env, r) && payload != r.payload
    requires Hashed(r) && NoCollision(env, r.(payload := payload), r)
    ensures !Faithful(env, r.(payload := payload))
  {
    WrittenIsFaithful(env, r);
    var other, p, f := r.(payload := payload), r.prevHash.value, FieldsOf(env, r);
    assert FieldsOf(env, other) == f;
    assert TextOf(env, other) == HashedText(V2(2, p, f, payload)) && TextOf(env, r) == HashedText(V2(2, p, f, r.payload));
    TailsDiffer("v" + Decimal(2) + [SEP] + CanonicalText(p, f) + [SEP], payload, r.payload);
  }

  lemma TailsDiffer(head: string, a: string, b: string)
    ensures a != b ==> head + a != head + b
  {
    assert (head + a)[|head|..] == a && (head + b)[|head|..] == b;
  }

  /** The two rows agree in every column the hash covers; a timestamp is covered as its UTC text. */
  ghost predicate SameColumns(env: Env, a: Row, b: Row) {
    && a.id == b.id && a.namespace == b.namespace && a.agentId == b.agentId && a.op == b.op
    && a.memoryId == b.memoryId && a.contentHash == b.contentHash && a.payload == b.payload
    && env.strftime(Instant(a.created)) == env.strftime(Instant(b.created))
    && a.prevHash == b.prevHash && a.hashVersion == b.hashVersion
  }

  /**
    An edit that keeps a written row's hash passes the row's own check exactly if it changes no
    column that the hash covers.
  */
  lemma WrittenEditPassesIff(env: Env, r: Row, edited: Row)
    requires GoodEnv(env) && Written(env, r) && PlainRow(r) && Hashed(r)
    requires edited.rowHash == r.rowHash && edited.prevHash.Some? && IsDigest(edited.prevHash.value) && PlainRow(edited)
    requires NoCollision(env, edited, r)
    ensures Faithful(env, edited) <==> SameColumns(env, edited, r)
  {
    WrittenIsFaithful(env, r);
    PlainEncodable(env, r);
    PlainEncodable(env, edited);
    assert SameColumns(env, edited, r) ==>
             CoveredBy(env, edited, edited.prevHash.value) == CoveredBy(env, r, r.prevHash.value);
    if Faithful(env, edited) {
      HashedTextInjective(CoveredBy(env, edited, edited.prevHash.value), CoveredBy(env, r, r.prevHash.value));
      SameCoveredColumns(env, r, edited);
    }
  }

  /** A run from a table that verifies and whose hashes are digests. */
  ghost predicate GoodRun(env: Env, s: State, steps: seq<Step>) {
    GoodEnv(env) && Initial(env, s) && (forall q :: q in s.committed ==> DigestRow(q)) && IsRun(env, s, steps)
  }

  /** Over every run, each committed row that was not there at the start is as `chain_log` writes it. */
  lemma NewRowsAreWritten(env: Env, s: State, steps: seq<Step>, r: Row)
    requires GoodRun(env, s, steps) && r in After(env, s, steps).committed && r !in s.committed
    ensures Written(env, r) && Hashed(r)
  {
    RunWrites(env, s.committed, s, steps);
    assert AllWritten(env, s.committed, After(env, s, steps).committed);
    WrittenIsFaithful(env, r);
  }

  /** An edit of such a row's payload that keeps the hash is reported, whatever the columns hold. */
  lemma PayloadEditReported(env: Env, s: State, steps: seq<Step>, r: Row, payload: string, rows: set<Row>)
    requires GoodRun(env, s, steps) && r in After(env, s, steps).committed && r !in s.committed
    requires payload != r.payload && (Hashed(r) ==> NoCollision(env, r.(payload := payload), r))
    ensures Violation(r.id, HashMismatch) in RowReport(env, rows, r.(payload := payload))
  {
    NewRowsAreWritten(env, s, steps, r);
    PayloadIsCovered(env, r, payload);
  }

  /**
    Any edit of such a row that keeps the hash is reported as a mismatch exactly if it changes a
    column that the hash covers, for columns without separators.
  */
  lemma ColumnEditReportedIff(env: Env, s: State, steps: seq<Step>, r: Row, edited: Row, rows: set<Row>)
    requires GoodRun(env, s, steps) && r in After(env, s, steps).committed && r !in s.committed && PlainRow(r)
    requires edited.rowHash == r.rowHash && edited.rowHash.Some? && edited.prevHash.Some? && IsDigest(edited.prevHash.value)
    requires PlainRow(edited) && (Hashed(r) ==> NoCollision(env, edited, r))
    ensures Violation(edited.id, HashMismatch) in RowReport(env, rows, edited) <==> !SameColumns(env, edited, r)
  {
    NewRowsAreWritten(env, s, steps, r);
    WrittenEditPassesIff(env, r, edited);
  }

  // ---- sessions that do not overlap --------------------------------------------------

  /** A session that appends one row and commits. */
  datatype Session = Session(tx: nat, ns: string, draft: Draft)

  /** The session's steps when it sees all committed rows and reads `hash`. */
  function StepsOf(s: State, x: Session, hash: string): seq<Step> {
    [Begin(x.tx), ReadTip(x.tx, x.ns, s.committed, hash), Flush(x.tx, x.draft), Commit(x.tx)]
  }

  /** The new row sorts behind the rows of its namespace: the clock did not run back. */
  ghost predicate Later(s: State, x: Session) {
    forall r :: r in InNamespace(s.committed, x.ns) ==>
      || Instant(r.created) < Instant(x.draft.now)
      || (Instant(r.created) == Instant(x.draft.now) && r.id < x.draft.id)
  }

  /** What the session leaves: its row is committed and nothing is open that was not. */
  function AfterSession(env: Env, s: State, x: Session, hash: string): State {
    State(s.committed + {NewRow(env, Tip(x.ns, hash), x.draft)}, s.open - {x.tx})
  }

  lemma SessionRuns(env: Env, s: State, x: Session, hash: string)
    requires x.tx !in s.open && FreshId(s, x.draft.id) && IsTip(s.committed, x.ns, hash)
    ensures IsRun(env, s, StepsOf(s, x, hash)) && After(env, s, StepsOf(s, x, hash)) == AfterSession(env, s, x, hash)
  {
    var steps := StepsOf(s, x, hash);
    var begun := Next(env, s, steps[0]);
    assert s.committed + begun.open[x.tx].own == s.committed;
    var read := Next(env, begun, steps[1]);
    var flushed := Next(env, read, steps[2]);
    assert flushed.open[x.tx].own == {NewRow(env, Tip(x.ns, hash), x.draft)};
    var done := Next(env, flushed, steps[3]);
    assert done.open == s.open - {x.tx};
    assert steps[1..][1..] == steps[2..] && steps[2..][1..] == steps[3..] && steps[3..][1..] == [];
    assert IsRun(env, done, []) && After(env, done, []) == done;
    assert IsRun(env, flushed, steps[3..]) && After(env, flushed, steps[3..]) == done;
    assert IsRun(env, read, steps[2..]) && After(env, read, steps[2..]) == done;
    assert IsRun(env, begun, steps[1..]) && After(env, begun, steps[1..]) == done;
  }

  /** The rows of `ns` form one chain, listed in the verifier's order. */
  ghost predicate ChainInOrder(table: set<Row>, ns: string, chain: seq<Row>) {
    && IsChain(InNamespace(table, ns), chain)
    && forall i, j :: 0 <= i < j < |chain| ==> Before(chain[i], chain[j])
  }

  /** The tip of a chain is the hash of its last row. */
  lemma TipOfChain(table: set<Row>, ns: string, chain: seq<Row>, hash: string)
    requires ChainInOrder(table, ns, chain) && IsTip(table, ns, hash)
    ensures Some(hash) == if chain == [] then Some(GENESIS_HASH) else chain[|chain| - 1].rowHash
  {
    var rows := InNamespace(table, ns);
    if chain != [] {
      var last := chain[|chain| - 1];
      assert last in Elements(chain);
      var r :| Latest(rows, r) && hash == if r.rowHash.Some? then r.rowHash.value else GENESIS_HASH;
      assert r in Elements(chain);
      var i :| 0 <= i < |chain| && chain[i] == r;
      assert i < |chain| - 1 ==> Before(chain[i], last);
    } else {
      assert rows == {};
    }
  }

  /** A session on its own extends its namespace's chain by its row, and leaves the others alone. */
  lemma SessionExtendsChain(env: Env, s: State, x: Session, hash: string, ns: string, chain: seq<Row>)
    requires FreshId(s, x.draft.id) && IsTip(s.committed, x.ns, hash) && Later(s, x)
    requires ChainInOrder(s.committed, ns, chain)
    ensures var row, after := NewRow(env, Tip(x.ns, hash), x.draft), AfterSession(env, s, x, hash);
            ChainInOrder(after.committed, ns, if ns == x.ns then chain + [row] else chain)
  {
    var row, after := NewRow(env, Tip(x.ns, hash), x.draft), AfterSession(env, s, x, hash);
    NewRowWritten(env, x.ns, hash, x.draft);
    if ns == x.ns {
      TipOfChain(s.committed, ns, chain, hash);
      AppendToChain(s.committed, ns, chain, row);
      assert InNamespace(after.committed, ns) == InNamespace(s.committed, ns) + {row};
    } else {
      assert InNamespace(after.committed, ns) == InNamespace(s.committed, ns);
    }
  }

  lemma AppendToChain(table: set<Row>, ns: string, chain: seq<Row>, row: Row)
    requires ChainInOrder(table, ns, chain) && Hashed(row) && row.namespace == ns && row !in table
    requires forall r :: r in InNamespace(table, ns) ==> Before(r, row)
    requires row.prevHash == if chain == [] then Some(GENESIS_HASH) else chain[|chain| - 1].rowHash
    ensures ChainInOrder(table + {row}, ns, chain + [row])
  {
    var longer := chain + [row];
    assert InNamespace(table + {row}, ns) == InNamespace(table, ns) + {row};
    assert Elements(longer) == Elements(chain) + {row};
    assert forall i :: 0 <= i < |chain| ==> chain[i] in Elements(chain);
  }

  /** Sessions one after the other, each on a fresh transaction and a clock that does not run back. */
  ghost predicate OneByOne(env: Env, s: State, sessions: seq<Session>, hashes: seq<string>)
    decreases |sessions|
  {
    && |hashes| == |sessions|
    && (sessions != [] ==>
          && sessions[0].tx !in s.open && FreshId(s, sessions[0].draft.id)
          && IsTip(s.committed, sessions[0].ns, hashes[0]) && Later(s, sessions[0])
          && OneByOne(env, AfterSession(env, s, sessions[0], hashes[0]), sessions[1..], hashes[1..]))
  }

  function AfterAll(env: Env, s: State, sessions: seq<Session>, hashes: seq<string>): State
    requires |hashes| == |sessions|
    decreases |sessions|
  {
    if sessions == [] then s else AfterAll(env, AfterSession(env, s, sessions[0], hashes[0]), sessions[1..], hashes[1..])
  }

  /** How many of the sessions append to `ns`. */
  function Appends(sessions: seq<Session>, ns: string): nat {
    if sessions == [] then 0 else (if sessions[0].ns == ns then 1 else 0) + Appends(sessions[1..], ns)
  }

  /**
    Sessions that append and commit one after the other, on a clock that does not run back, leave
    every namespace as one unforked chain: the old chain with one row for each of its sessions.
  */
  lemma {:induction false} OneByOneIsOneChain(env: Env, s: State, sessions: seq<Session>, hashes: seq<string>, ns: string, chain: seq<Row>)
    returns (longer: seq<Row>)
    requires OneByOne(env, s, sessions, hashes) && ChainInOrder(s.committed, ns, chain)
    ensures ChainInOrder(AfterAll(env, s, sessions, hashes).committed, ns, longer)
    ensures chain <= longer && |longer| == |chain| + Appends(sessions, ns)
    decreases |sessions|
  {
    if sessions == [] {
      longer := chain;
    } else {
      var x, hash := sessions[0], hashes[0];
      var row := NewRow(env, Tip(x.ns, hash), x.draft);
      SessionExtendsChain(env, s, x, hash, ns, chain);
      longer := OneByOneIsOneChain(env, AfterSession(env, s, x, hash), sessions[1..], hashes[1..], ns,
                                   if ns == x.ns then chain + [row] else chain);
    }
  }

  // ---- what may happen at any time ---------------------------------------------------

  /** Transactions start, commit and roll back at any time, and read a tip against any part of the committed rows. */
  lemma AnyTransactionStep(s: State, t: nat, ns: string, seen: set<Row>, d: Draft)
    ensures t !in s.open ==> Enabled(s, Begin(t))
    ensures t in s.open ==> Enabled(s, Commit(t)) && Enabled(s, Rollback(t))
    ensures t in s.open && seen <= s.committed && (forall r :: r in seen + s.open[t].own ==> r.namespace != ns) ==>
              Enabled(s, ReadTip(t, ns, seen, GENESIS_HASH))
    ensures t in s.open && s.open[t].tip != None && FreshId(s, d.id) ==> Enabled(s, Flush(t, d))
  {
    if t in s.open && seen <= s.committed && (forall r :: r in seen + s.open[t].own ==> r.namespace != ns) {
      assert InNamespace(seen + s.open[t].own, ns) == {};
    }
  }

  lemma AnyTip(s: State, t: nat, ns: string, seen: set<Row>, last: Row)
    requires t in s.open && seen <= s.committed && last in seen + s.open[t].own && last.namespace == ns
    requires forall r :: r in seen + s.open[t].own && r.namespace == ns && r != last ==> Before(r, last)
    ensures Enabled(s, ReadTip(t, ns, seen, if last.rowHash == None then GENESIS_HASH else last.rowHash.value))
  {
    assert Latest(InNamespace(seen + s.open[t].own, ns), last);
  }
}
