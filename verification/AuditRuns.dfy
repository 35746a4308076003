/**
  The write side: concurrent transactions appending to the audit log.
  Source: agentmem/src/lians/audit_chain.py, `get_chain_tip` and `chain_log`.
*/
module AuditRuns {
  import opened Prelude
  import opened Canonical
  import opened AuditLog

  /** The columns the caller of `chain_log` and the clock supply. */
  datatype Draft = Draft(
    id: nat,
    agentId: string,
    op: string,
    memoryId: Option<nat>,
    contentHash: Option<string>,
    payload: string,
    now: Stamp)

  datatype Tip = Tip(namespace: string, hash: string)

  /** An open transaction: rows flushed so far, and the tip read by an append still under way. */
  datatype Tx = Tx(own: set<Row>, tip: Option<Tip>)

  datatype State = State(committed: set<Row>, open: map<nat, Tx>)

  /**
    One step of some transaction. The tip is read and the row flushed in separate steps, with
    steps of other transactions in between. `seen` is whatever part of the committed rows the
    isolation level shows. A crash is a rollback.
  */
  datatype Step =
    | Begin(tx: nat)
    | ReadTip(tx: nat, ns: string, seen: set<Row>, hash: string)
    | Flush(tx: nat, draft: Draft)
    | Commit(tx: nat)
    | Rollback(tx: nat)

  /** The latest row's hash; genesis when there is no row, or when that row has no hash. */
  ghost predicate IsTip(visible: set<Row>, ns: string, hash: string) {
    if InNamespace(visible, ns) == {} then hash == GENESIS_HASH
    else exists r :: Latest(InNamespace(visible, ns), r)
                  && hash == if r.rowHash.Some? then r.rowHash.value else GENESIS_HASH
  }

  function NewRow(env: Env, tip: Tip, d: Draft): Row {
    var row := Row(d.id, tip.namespace, d.agentId, d.op, d.memoryId, d.contentHash, d.payload, d.now,
                   Some(tip.hash), None, 2);
    row.(rowHash := Some(ComputeRowHash(env, row, tip.hash)))
  }

  /** The text that is hashed for a new row, written out: format version 2, the payload last. */
  function WrittenText(env: Env, ns: string, hash: string, d: Draft): string {
    var memory := if d.memoryId.Some? then env.uuid(d.memoryId.value) else "null";
    var content := if d.contentHash.Some? then d.contentHash.value else "null";
    var utc := match d.now case Aware(local, offset) => local - offset case Naive(t) => t;
    "v2|" + (hash + "|" + env.uuid(d.id) + "|" + ns + "|" + d.agentId + "|" + d.op + "|" + memory + "|" + content
             + "|" + env.strftime(utc)) + "|" + d.payload
  }

  /** A new row holds what its caller gave, the tip it was read against, and the hash of that text. */
  lemma NewRowWritten(env: Env, ns: string, hash: string, d: Draft)
    ensures NewRow(env, Tip(ns, hash), d)
         == Row(d.id, ns, d.agentId, d.op, d.memoryId, d.contentHash, d.payload, d.now,
                Some(hash), Some(env.sha256(WrittenText(env, ns, hash, d))), 2)
  {
    var row := NewRow(env, Tip(ns, hash), d).(rowHash := None);
    assert CoveredBy(env, row, hash) == V2(2, hash, FieldsOf(env, row), d.payload);
    VersionTwoText(hash, FieldsOf(env, row), d.payload);
  }

  /** `id` names no row, committed or not: identifiers come from uuid4. */
  ghost predicate FreshId(s: State, id: nat) {
    && (forall r :: r in s.committed ==> r.id != id)
    && (forall t, r :: t in s.open && r in s.open[t].own ==> r.id != id)
  }

  ghost predicate Enabled(s: State, step: Step) {
    match step
    case Begin(t) => t !in s.open
    case ReadTip(t, ns, seen, hash) =>
      && t in s.open
      && seen <= s.committed
      && IsTip(seen + s.open[t].own, ns, hash)
    case Flush(t, draft) => t in s.open && s.open[t].tip.Some? && FreshId(s, draft.id)
    case Commit(t) => t in s.open
    case Rollback(t) => t in s.open
  }

  function Next(env: Env, s: State, step: Step): State {
    match step
    case Begin(t) => s.(open := s.open[t := Tx({}, None)])
    case ReadTip(t, ns, seen, hash) =>
      if t in s.open then s.(open := s.open[t := s.open[t].(tip := Some(Tip(ns, hash)))]) else s
    case Flush(t, draft) =>
      if t in s.open && s.open[t].tip.Some? then
        s.(open := s.open[t := Tx(s.open[t].own + {NewRow(env, s.open[t].tip.value, draft)}, None)])
      else s
    case Commit(t) =>
      if t in s.open then State(s.committed + s.open[t].own, s.open - {t}) else s
    case Rollback(t) => s.(open := s.open - {t})
  }

  ghost predicate IsRun(env: Env, s: State, steps: seq<Step>)
    decreases steps
  {
    steps == [] || (Enabled(s, steps[0]) && IsRun(env, Next(env, s, steps[0]), steps[1..]))
  }

  function After(env: Env, s: State, steps: seq<Step>): State
    decreases steps
  {
    if steps == [] then s else After(env, Next(env, s, steps[0]), steps[1..])
  }

  // ---- the invariant -----------------------------------------------------------------

  /** `hash` is genesis or belongs to a row of `ns`. */
  ghost predicate KnownHash(rows: set<Row>, ns: string, hash: string) {
    hash == GENESIS_HASH || exists p :: p in InNamespace(rows, ns) && p.rowHash == Some(hash)
  }

  ghost predicate TxInv(env: Env, committed: set<Row>, tx: Tx) {
    && WellChained(env, committed + tx.own)
    && (tx.tip.Some? ==> KnownHash(committed + tx.own, tx.tip.value.namespace, tx.tip.value.hash))
  }

  ghost predicate DisjointIds(a: set<Row>, b: set<Row>) {
    forall p, q :: p in a && q in b ==> p.id != q.id
  }

  ghost predicate Inv(env: Env, s: State) {
    && WellChained(env, s.committed)
    && UniqueIds(s.committed)
    && (forall t :: t in s.open ==> TxInv(env, s.committed, s.open[t]))
    && (forall t :: t in s.open ==> UniqueIds(s.open[t].own) && DisjointIds(s.committed, s.open[t].own))
    && (forall t, u :: t in s.open && u in s.open && t != u ==> DisjointIds(s.open[t].own, s.open[u].own))
  }

  /** More rows of the same table never orphan a row. */
  lemma WellChainedUnion(env: Env, a: set<Row>, b: set<Row>)
    requires WellChained(env, a) && WellChained(env, b)
    ensures WellChained(env, a + b)
  {
    forall r | r in a + b && Hashed(r)
      ensures Faithful(env, r) && ParentPresent(InNamespace(a + b, r.namespace), r)
    {
      var side := if r in a then a else b;
      assert ParentPresent(InNamespace(side, r.namespace), r);
      if p :| p in InNamespace(side, r.namespace) && p.rowHash == r.prevHash {
        assert p in InNamespace(a + b, r.namespace);
      }
    }
  }

  lemma KnownHashGrows(a: set<Row>, b: set<Row>, ns: string, hash: string)
    requires KnownHash(a, ns, hash) && a <= b
    ensures KnownHash(b, ns, hash)
  {
    if p :| p in InNamespace(a, ns) && p.rowHash == Some(hash) {
      assert p in InNamespace(b, ns);
    }
  }

  lemma TipIsKnown(visible: set<Row>, ns: string, hash: string)
    requires IsTip(visible, ns, hash)
    ensures KnownHash(visible, ns, hash)
  {
  }

  /** A row appended after a known tip is chained to it. */
  lemma AppendKeepsChain(env: Env, rows: set<Row>, tip: Tip, d: Draft)
    requires WellChained(env, rows) && KnownHash(rows, tip.namespace, tip.hash)
    ensures WellChained(env, rows + {NewRow(env, tip, d)})
  {
    var row := NewRow(env, tip, d);
    var all := rows + {row};
    assert CoveredBy(env, row, tip.hash) == CoveredBy(env, row.(rowHash := None), tip.hash);
    forall r | r in all && Hashed(r)
      ensures Faithful(env, r) && ParentPresent(InNamespace(all, r.namespace), r)
    {
      if r in rows {
        if p :| p in InNamespace(rows, r.namespace) && p.rowHash == r.prevHash {
          assert p in InNamespace(all, r.namespace);
        }
      } else {
        KnownHashGrows(rows, all, tip.namespace, tip.hash);
      }
    }
  }

  lemma CommitKeepsTx(env: Env, committed: set<Row>, mine: Tx, other: Tx)
    requires TxInv(env, committed, mine) && TxInv(env, committed, other)
    ensures TxInv(env, committed + mine.own, other)
  {
    WellChainedUnion(env, committed + mine.own, committed + other.own);
    assert (committed + mine.own) + (committed + other.own) == (committed + mine.own) + other.own;
    if other.tip.Some? {
      KnownHashGrows(committed + other.own, (committed + mine.own) + other.own, other.tip.value.namespace, other.tip.value.hash);
    }
  }

  lemma ReadTipKeepsInv(env: Env, s: State, t: nat, ns: string, seen: set<Row>, hash: string)
    requires Inv(env, s) && Enabled(s, ReadTip(t, ns, seen, hash))
    ensures Inv(env, Next(env, s, ReadTip(t, ns, seen, hash)))
  {
    TipIsKnown(seen + s.open[t].own, ns, hash);
    KnownHashGrows(seen + s.open[t].own, s.committed + s.open[t].own, ns, hash);
    assert TxInv(env, s.committed, s.open[t].(tip := Some(Tip(ns, hash))));
  }

  lemma AddOwnKeepsInv(env: Env, s: State, t: nat, row: Row)
    requires Inv(env, s) && t in s.open && FreshId(s, row.id)
    requires TxInv(env, s.committed, Tx(s.open[t].own + {row}, None))
    ensures Inv(env, s.(open := s.open[t := Tx(s.open[t].own + {row}, None)]))
  {
  }

  lemma FlushKeepsInv(env: Env, s: State, t: nat, draft: Draft)
    requires Inv(env, s) && Enabled(s, Flush(t, draft))
    ensures Inv(env, Next(env, s, Flush(t, draft)))
  {
    var tip, own := s.open[t].tip.value, s.open[t].own;
    var row := NewRow(env, tip, draft);
    assert TxInv(env, s.committed, Tx(own + {row}, None)) by {
      AppendKeepsChain(env, s.committed + own, tip, draft);
      assert (s.committed + own) + {row} == s.committed + (own + {row});
    }
    AddOwnKeepsInv(env, s, t, row);
  }

  /** A whole append: the tip is read and the row flushed. */
  function Appended(env: Env, s: State, t: nat, tip: Tip, draft: Draft): State
    requires t in s.open
  {
    s.(open := s.open[t := Tx(s.open[t].own + {NewRow(env, tip, draft)}, None)])
  }

  lemma AppendIsReadThenFlush(env: Env, s: State, t: nat, ns: string, seen: set<Row>, hash: string, draft: Draft)
    requires t in s.open
    ensures Next(env, Next(env, s, ReadTip(t, ns, seen, hash)), Flush(t, draft)) == Appended(env, s, t, Tip(ns, hash), draft)
  {
    var read := Next(env, s, ReadTip(t, ns, seen, hash));
    var tx := Tx(s.open[t].own + {NewRow(env, Tip(ns, hash), draft)}, None);
    assert read.open[t := tx] == s.open[t := tx];
  }

  lemma AppendKeepsInv(env: Env, s: State, t: nat, ns: string, seen: set<Row>, hash: string, draft: Draft)
    requires Inv(env, s) && t in s.open && seen <= s.committed && FreshId(s, draft.id)
    requires IsTip(seen + s.open[t].own, ns, hash)
    ensures Inv(env, Appended(env, s, t, Tip(ns, hash), draft))
  {
    var own, row := s.open[t].own, NewRow(env, Tip(ns, hash), draft);
    assert TxInv(env, s.committed, Tx(own + {row}, None)) by {
      TipIsKnown(seen + own, ns, hash);
      KnownHashGrows(seen + own, s.committed + own, ns, hash);
      AppendKeepsChain(env, s.committed + own, Tip(ns, hash), draft);
      assert (s.committed + own) + {row} == s.committed + (own + {row});
    }
    AddOwnKeepsInv(env, s, t, row);
  }

  lemma CommitKeepsInv(env: Env, s: State, t: nat)
    requires Inv(env, s) && t in s.open
    ensures Inv(env, Next(env, s, Commit(t)))
  {
    var next := Next(env, s, Commit(t));
    assert TxInv(env, s.committed, s.open[t]);
    forall u | u in next.open
      ensures TxInv(env, next.committed, next.open[u])
    {
      CommitKeepsTx(env, s.committed, s.open[t], s.open[u]);
    }
    forall u | u in next.open
      ensures DisjointIds(next.committed, next.open[u].own)
    {
      assert DisjointIds(s.committed, s.open[u].own) && DisjointIds(s.open[t].own, s.open[u].own);
    }
  }

  /** Every step of every transaction keeps the invariant. */
  lemma StepKeepsInv(env: Env, s: State, step: Step)
    requires Inv(env, s) && Enabled(s, step)
    ensures Inv(env, Next(env, s, step))
  {
    match step
    case Begin(t) =>
      assert s.committed + {} == s.committed;
      assert TxInv(env, s.committed, Tx({}, None));
    case ReadTip(t, ns, seen, hash) => ReadTipKeepsInv(env, s, t, ns, seen, hash);
    case Flush(t, draft) => FlushKeepsInv(env, s, t, draft);
    case Commit(t) => CommitKeepsInv(env, s, t);
    case Rollback(t) =>
  }

  lemma {:induction false} RunKeepsInv(env: Env, s: State, steps: seq<Step>)
    requires Inv(env, s) && IsRun(env, s, steps)
    ensures Inv(env, After(env, s, steps))
    decreases steps
  {
    if steps != [] {
      StepKeepsInv(env, s, steps[0]);
      RunKeepsInv(env, Next(env, s, steps[0]), steps[1..]);
    }
  }

  /** A table that already verifies, with no transaction open; rows older than the chain are allowed. */
  ghost predicate Initial(env: Env, s: State) {
    s.open == map[] && WellChained(env, s.committed) && UniqueIds(s.committed)
  }

  /**
    Whatever the interleaving of appends, commits and rollbacks, with forks, ties and clocks
    that run backwards, the verifier finds nothing in any namespace of the committed table.
  */
  lemma EveryInterleavingVerifies(env: Env, s: State, steps: seq<Step>, ns: string, limit: nat, rows: seq<Row>)
    requires Initial(env, s) && IsRun(env, s, steps)
    requires Selects(After(env, s, steps).committed, ns, limit, rows)
    requires |InNamespace(After(env, s, steps).committed, ns)| <= limit
    ensures Report(env, Elements(rows), rows) == []
  {
    RunKeepsInv(env, s, steps);
    VerdictOnSelection(env, After(env, s, steps).committed, ns, limit, rows);
    ReportMeaning(env, Elements(rows), rows);
  }

  /** No step removes or edits a committed row, and only a commit adds any. */
  lemma {:induction false} CommittedOnlyGrows(env: Env, s: State, steps: seq<Step>)
    ensures s.committed <= After(env, s, steps).committed
    decreases steps
  {
    if steps != [] {
      CommittedOnlyGrows(env, Next(env, s, steps[0]), steps[1..]);
    }
  }

  // ---- the same steps on a mutable store ---------------------------------------------

  /** The event log and the sessions open on it. */
  class EventStore {
    var committed: set<Row>
    var open: map<nat, Tx>
    const env: Env

    ghost function Abstract(): State
      reads this
    {
      State(committed, open)
    }

    constructor (env: Env)
      ensures this.env == env && Abstract() == State({}, map[])
      ensures Inv(env, Abstract())
    {
      this.env := env;
      committed, open := {}, map[];
    }

    method BeginTx(t: nat)
      requires Inv(env, Abstract()) && Enabled(Abstract(), Begin(t))
      modifies this
      ensures Abstract() == Next(env, old(Abstract()), Begin(t)) && Inv(env, Abstract())
    {
      StepKeepsInv(env, Abstract(), Begin(t));
      open := open[t := Tx({}, None)];
    }

    /** The tip the session sees: `seen` committed rows plus the rows it flushed itself. */
    method GetChainTip(t: nat, ns: string, seen: set<Row>) returns (hash: string)
      requires Inv(env, Abstract()) && t in open && seen <= committed
      ensures IsTip(seen + open[t].own, ns, hash)
    {
      var visible := InNamespace(seen + open[t].own, ns);
      if visible == {} {
        return GENESIS_HASH;
      }
      LatestExists(visible);
      var last :| last in visible && forall q :: q in visible && q != last ==> Before(q, last);
      assert Latest(visible, last);
      hash := if last.rowHash.Some? then last.rowHash.value else GENESIS_HASH;
    }

    /** Read the tip, hash, add and flush: the new row is the session's next tip candidate. */
    method ChainLog(t: nat, ns: string, seen: set<Row>, draft: Draft) returns (row: Row)
      requires Inv(env, Abstract()) && t in open && seen <= committed && FreshId(Abstract(), draft.id)
      modifies this
      ensures t in old(open) && t in open && committed == old(committed) && open == old(open)[t := open[t]]
      ensures exists hash ::
                && IsTip(seen + old(open[t].own), ns, hash)
                && row == Row(draft.id, ns, draft.agentId, draft.op, draft.memoryId, draft.contentHash, draft.payload, draft.now,
                              Some(hash), Some(env.sha256(WrittenText(env, ns, hash, draft))), 2)
      ensures open[t] == Tx(old(open[t].own) + {row}, None)
      ensures Inv(env, Abstract())
    {
      var hash := GetChainTip(t, ns, seen);
      AppendKeepsInv(env, Abstract(), t, ns, seen, hash, draft);
      NewRowWritten(env, ns, hash, draft);
      row := NewRow(env, Tip(ns, hash), draft);
      open := open[t := Tx(open[t].own + {row}, None)];
    }

    method CommitTx(t: nat)
      requires Inv(env, Abstract()) && t in open
      modifies this
      ensures Abstract() == Next(env, old(Abstract()), Commit(t)) && Inv(env, Abstract())
    {
      StepKeepsInv(env, Abstract(), Commit(t));
      committed, open := committed + open[t].own, open - {t};
    }

    method RollbackTx(t: nat)
      requires Inv(env, Abstract()) && t in open
      modifies this
      ensures Abstract() == Next(env, old(Abstract()), Rollback(t)) && Inv(env, Abstract())
    {
      StepKeepsInv(env, Abstract(), Rollback(t));
      open := open - {t};
    }
  }
}
