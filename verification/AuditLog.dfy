/**
  Audit rows, their hashes, and the verifier.
  Source: agentmem/src/lians/audit_chain.py, `_fmt_dt`, `compute_row_hash`, `verify_chain`.
*/
module AuditLog {
  import opened Prelude
  import opened Canonical

  /** A datetime as a back end returns it, in microseconds: with an offset, or naive (read as UTC). */
  datatype Stamp = Aware(local: int, offset: int) | Naive(utc: int)

  function Instant(s: Stamp): int {
    match s
    case Aware(local, offset) => local - offset
    case Naive(utc) => utc
  }

  /** Library functions the log relies on: SHA-256 (hexadecimal), str(UUID), and strftime of a UTC instant. */
  datatype Env = Env(sha256: string -> string, uuid: nat -> string, strftime: int -> string)

  ghost predicate GoodEnv(env: Env) {
    && (forall text :: IsDigest(env.sha256(text)))
    && (forall n :: Plain(env.uuid(n)) && env.uuid(n) != "null")
    && (forall m, n :: env.uuid(m) == env.uuid(n) ==> m == n)
    && (forall i :: Plain(env.strftime(i)))
  }

  /** An event_log row; `payload` stands for its canonical JSON text. Hashes are null on rows older than migration 0006. */
  datatype Row = Row(
    id: nat,
    namespace: string,
    agentId: string,
    op: string,
    memoryId: Option<nat>,
    contentHash: Option<string>,
    payload: string,
    created: Stamp,
    prevHash: Option<string>,
    rowHash: Option<string>,
    hashVersion: int)

  function FmtDt(env: Env, s: Stamp): string {
    env.strftime(Instant(s))
  }

  function UuidOption(env: Env, id: Option<nat>): Option<string> {
    if id.Some? then Some(env.uuid(id.value)) else None
  }

  function FieldsOf(env: Env, r: Row): Fields {
    Fields(env.uuid(r.id), r.namespace, r.agentId, r.op, UuidOption(env, r.memoryId), r.contentHash, FmtDt(env, r.created))
  }

  function CoveredBy(env: Env, r: Row, prevHash: string): Covered {
    if r.hashVersion >= 2 then V2(r.hashVersion, prevHash, FieldsOf(env, r), r.payload)
    else V1(prevHash, FieldsOf(env, r))
  }

  function ComputeRowHash(env: Env, r: Row, prevHash: string): string {
    env.sha256(HashedText(CoveredBy(env, r, prevHash)))
  }

  /** Rows take part in the chain once both hashes are present. */
  predicate Hashed(r: Row) {
    r.rowHash.Some? && r.prevHash.Some?
  }

  predicate Faithful(env: Env, r: Row)
    requires Hashed(r)
  {
    r.rowHash.value == ComputeRowHash(env, r, r.prevHash.value)
  }

  // ---- the verifier ------------------------------------------------------------------

  datatype Kind = OrphanedParent | HashMismatch
  datatype Violation = Violation(rowId: nat, kind: Kind)

  /** `prevHash` is genesis or the hash of a row in `rows`. */
  ghost predicate ParentPresent(rows: set<Row>, r: Row)
    requires Hashed(r)
  {
    || r.prevHash.value == GENESIS_HASH
    || exists p :: p in rows && p.rowHash == r.prevHash
  }

  /** What the verifier owes row `r` of a selection: one entry per check that fails, orphan first. */
  ghost function RowReport(env: Env, rows: set<Row>, r: Row): seq<Violation> {
    if !Hashed(r) then []
    else
      (if ParentPresent(rows, r) then [] else [Violation(r.id, OrphanedParent)])
      + (if Faithful(env, r) then [] else [Violation(r.id, HashMismatch)])
  }

  ghost function Report(env: Env, all: set<Row>, rows: seq<Row>): seq<Violation> {
    if rows == [] then []
    else Report(env, all, rows[..|rows| - 1]) + RowReport(env, all, rows[|rows| - 1])
  }

  /** Every chained row of `rows` has its parent in `rows` and a hash that recomputes. */
  ghost predicate Sound(env: Env, rows: set<Row>) {
    forall r :: r in rows && Hashed(r) ==> ParentPresent(rows, r) && Faithful(env, r)
  }

  method VerifyChain(env: Env, rows: seq<Row>) returns (rowsChecked: nat, ok: bool, violations: seq<Violation>)
    ensures rowsChecked == |rows|
    ensures violations == Report(env, Elements(rows), rows)
    ensures ok <==> Sound(env, Elements(rows))
  {
    var known := KnownHashes(rows);
    violations := [];
    for i := 0 to |rows|
      invariant violations == Report(env, Elements(rows), rows[..i])
    {
      var row := rows[i];
      ghost var before := violations;
      ReportStep(env, Elements(rows), rows, i);
      if row.rowHash.None? || row.prevHash.None? {
        continue;
      }
      ParentKnown(rows, known, row);
      if row.prevHash.value !in known {
        violations := violations + [Violation(row.id, OrphanedParent)];
      }
      var recomputed := ComputeRowHash(env, row, row.prevHash.value);
      if recomputed != row.rowHash.value {
        violations := violations + [Violation(row.id, HashMismatch)];
      }
      Findings(env, Elements(rows), row, before, violations);
    }
    assert rows[..|rows|] == rows;
    ReportMeaning(env, Elements(rows), rows);
    return |rows|, violations == [], violations;
  }

  /** The entries are those of the checks that fail. */
  lemma Findings(env: Env, all: set<Row>, r: Row, before: seq<Violation>, after: seq<Violation>)
    requires Hashed(r)
    requires after == before + (if ParentPresent(all, r) then [] else [Violation(r.id, OrphanedParent)])
                             + (if Faithful(env, r) then [] else [Violation(r.id, HashMismatch)])
    ensures after == before + RowReport(env, all, r)
  {
  }

  lemma ReportStep(env: Env, all: set<Row>, rows: seq<Row>, i: nat)
    requires i < |rows|
    ensures Report(env, all, rows[..i + 1]) == Report(env, all, rows[..i]) + RowReport(env, all, rows[i])
  {
    assert rows[..i + 1][..i] == rows[..i];
  }

  method KnownHashes(rows: seq<Row>) returns (known: set<string>)
    ensures known == {GENESIS_HASH} + set r | r in rows && r.rowHash.Some? :: r.rowHash.value
  {
    known := {GENESIS_HASH};
    for i := 0 to |rows|
      invariant known == {GENESIS_HASH} + set r | r in rows[..i] && r.rowHash.Some? :: r.rowHash.value
    {
      if rows[i].rowHash.Some? {
        known := known + {rows[i].rowHash.value};
      }
      assert rows[..i + 1] == rows[..i] + [rows[i]];
    }
    assert rows[..|rows|] == rows;
  }

  lemma ParentKnown(rows: seq<Row>, known: set<string>, row: Row)
    requires Hashed(row)
    requires known == {GENESIS_HASH} + set r | r in rows && r.rowHash.Some? :: r.rowHash.value
    ensures row.prevHash.value in known <==> ParentPresent(Elements(rows), row)
  {
    if exists p :: p in Elements(rows) && p.rowHash == row.prevHash {
      var p :| p in Elements(rows) && p.rowHash == row.prevHash;
      assert p in rows && p.rowHash.Some?;
    }
  }

  /** Each finding names a row and a check that row fails, and each failed check is found. */
  lemma {:induction false} ReportMeaning(env: Env, all: set<Row>, rows: seq<Row>)
    ensures forall v :: v in Report(env, all, rows) <==> exists r :: r in rows && v in RowReport(env, all, r)
    ensures Report(env, all, rows) == [] <==>
            forall r :: r in rows && Hashed(r) ==> ParentPresent(all, r) && Faithful(env, r)
  {
    if rows != [] {
      var init, last := rows[..|rows| - 1], rows[|rows| - 1];
      ReportMeaning(env, all, init);
      assert rows == init + [last];
      NoFinding(env, all, last);
      assert forall r :: r in rows <==> r in init || r == last;
    }
  }

  lemma NoFinding(env: Env, all: set<Row>, r: Row)
    ensures RowReport(env, all, r) == [] <==> (Hashed(r) ==> ParentPresent(all, r) && Faithful(env, r))
  {
  }

  // ---- the rows a LIMIT query returns ------------------------------------------------

  /** ORDER BY created_at, id. */
  predicate Before(a: Row, b: Row) {
    || Instant(a.created) < Instant(b.created)
    || (Instant(a.created) == Instant(b.created) && a.id < b.id)
  }

  function InNamespace(table: set<Row>, ns: string): set<Row> {
    set r | r in table && r.namespace == ns
  }

  /** `rows` are the first `limit` rows of the namespace, in order. */
  ghost predicate Selects(table: set<Row>, ns: string, limit: nat, rows: seq<Row>) {
    && (forall i, j :: 0 <= i < j < |rows| ==> Before(rows[i], rows[j]))
    && Elements(rows) <= InNamespace(table, ns)
    && |rows| <= limit
    && (|rows| < limit ==> Elements(rows) == InNamespace(table, ns))
    && (forall q, r :: q in rows && r in InNamespace(table, ns) && r !in rows ==> Before(q, r))
  }

  lemma LimitCovers(table: set<Row>, ns: string, limit: nat, rows: seq<Row>)
    requires Selects(table, ns, limit, rows)
    requires |InNamespace(table, ns)| <= limit
    ensures Elements(rows) == InNamespace(table, ns)
  {
    assert Distinct(rows);
    DistinctSize(rows);
    SubsetSize(Elements(rows), InNamespace(table, ns));
  }

  /** Primary key. */
  ghost predicate UniqueIds(table: set<Row>) {
    forall a, b :: a in table && b in table && a.id == b.id ==> a == b
  }

  /** Each chained row hashes to its stored value and follows genesis or a row of its own namespace. */
  ghost predicate WellChained(env: Env, table: set<Row>) {
    forall r :: r in table && Hashed(r) ==>
      Faithful(env, r) && ParentPresent(InNamespace(table, r.namespace), r)
  }

  /**
    On an untouched table the verifier is quiet whenever the limit covers the namespace, and with
    a smaller limit exactly when no selected row's parent was cut off.
  */
  lemma VerdictOnSelection(env: Env, table: set<Row>, ns: string, limit: nat, rows: seq<Row>)
    requires WellChained(env, table) && Selects(table, ns, limit, rows)
    ensures Sound(env, Elements(rows)) <==>
            forall r :: r in rows && Hashed(r) ==> ParentPresent(Elements(rows), r)
    ensures |InNamespace(table, ns)| <= limit ==> Sound(env, Elements(rows))
  {
    if |InNamespace(table, ns)| <= limit {
      LimitCovers(table, ns, limit, rows);
    }
  }

  /** `r` comes last among `rows`. */
  ghost predicate Latest(rows: set<Row>, r: Row) {
    r in rows && forall q :: q in rows && q != r ==> Before(q, r)
  }

  lemma {:induction false} LatestExists(rows: set<Row>)
    requires rows != {} && UniqueIds(rows)
    ensures exists r :: Latest(rows, r)
  {
    var q :| q in rows;
    if rows == {q} {
      assert Latest(rows, q);
    } else {
      LatestExists(rows - {q});
      var r :| Latest(rows - {q}, r);
      assert Before(q, r) || Before(r, q);
      if Before(q, r) {
        assert Latest(rows, r);
      } else {
        assert forall x :: x in rows && x != q ==> x in rows - {q};
        assert Latest(rows, q);
      }
    }
  }

  lemma {:induction false} Listing(s: set<Row>) returns (rows: seq<Row>)
    requires UniqueIds(s)
    ensures Elements(rows) == s
    ensures forall i, j :: 0 <= i < j < |rows| ==> Before(rows[i], rows[j])
  {
    if s == {} {
      rows := [];
    } else {
      LatestExists(s);
      var r :| Latest(s, r);
      var init := Listing(s - {r});
      assert forall i :: 0 <= i < |init| ==> init[i] in Elements(init);
      rows := init + [r];
      assert Elements(rows) == Elements(init) + {r};
    }
  }

  /** Some parent of `r` is listed no later than `r` itself. */
  ghost predicate ParentNotLater(rows: set<Row>, r: Row)
    requires Hashed(r)
  {
    || r.prevHash.value == GENESIS_HASH
    || exists p :: p in rows && p.rowHash == r.prevHash && !Before(r, p)
  }

  /** No limit makes the verifier report this namespace. */
  ghost predicate NeverAlarms(env: Env, table: set<Row>, ns: string) {
    forall limit, rows :: Selects(table, ns, limit, rows) ==> Sound(env, Elements(rows))
  }

  /**
    An untouched namespace is reported under no limit at all exactly when each row's parent sorts
    no later than the row: a clock that ran backwards, or a tie broken against the parent, is
    enough for some limit to raise a false alarm.
  */
  lemma NeverAlarmsIff(env: Env, table: set<Row>, ns: string)
    requires WellChained(env, table) && UniqueIds(table)
    ensures NeverAlarms(env, table, ns) <==>
            forall r :: r in InNamespace(table, ns) && Hashed(r) ==> ParentNotLater(InNamespace(table, ns), r)
  {
    var all := InNamespace(table, ns);
    if NeverAlarms(env, table, ns) {
      forall r | r in all && Hashed(r)
        ensures ParentNotLater(all, r)
      {
        var upTo := set q | q in all && !Before(r, q);
        var rows := Listing(upTo);
        assert forall q :: q in rows <==> q in Elements(rows);
        assert Selects(table, ns, |rows|, rows);
        assert r in Elements(rows);
        assert ParentPresent(Elements(rows), r);
      }
    } else {
      var limit, rows :| Selects(table, ns, limit, rows) && !Sound(env, Elements(rows));
      var r :| r in Elements(rows) && Hashed(r) && !ParentPresent(Elements(rows), r);
      assert r in all;
      forall p | p in all && p.rowHash == r.prevHash
        ensures Before(r, p)
      {
        assert p !in rows;
      }
      assert !ParentNotLater(all, r);
    }
  }

  // ---- back ends ---------------------------------------------------------------------

  datatype BackEnd = Sqlite | Postgres

  /** SQLite drops the offset, PostgreSQL normalises it to UTC. */
  function ReadBack(backEnd: BackEnd, r: Row): Row {
    r.(created := if backEnd.Sqlite? then Naive(Instant(r.created)) else Aware(Instant(r.created), 0))
  }

  /** Only the timestamp comes back differently: naive from SQLite, in UTC from PostgreSQL. */
  lemma ReadBackInWords(r: Row, local: int, offset: int)
    requires r.created == Aware(local, offset)
    ensures ReadBack(Sqlite, r) == r.(created := Naive(local - offset))
    ensures ReadBack(Postgres, r) == r.(created := Aware(local - offset, 0))
  {
  }

  /** A verdict does not depend on the back end the rows were read from. */
  lemma BackEndIrrelevant(env: Env, backEnd: BackEnd, rows: set<Row>)
    ensures Sound(env, rows) <==> Sound(env, set r | r in rows :: ReadBack(backEnd, r))
  {
    var other := set r | r in rows :: ReadBack(backEnd, r);
    forall r | r in rows && Hashed(r)
      ensures ReadBack(backEnd, r) in other
      ensures ParentPresent(rows, r) <==> ParentPresent(other, ReadBack(backEnd, r))
      ensures Faithful(env, r) <==> Faithful(env, ReadBack(backEnd, r))
    {
      var q := ReadBack(backEnd, r);
      assert CoveredBy(env, r, r.prevHash.value) == CoveredBy(env, q, q.prevHash.value);
      if p :| p in rows && p.rowHash == r.prevHash {
        assert ReadBack(backEnd, p) in other && ReadBack(backEnd, p).rowHash == q.prevHash;
      }
    }
  }
}
