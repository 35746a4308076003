/**
  The migration that gave existing audit rows their hashes.
  Source: agentmem/alembic/versions/0006_audit_hash_chain.py, `_compute_hash` and `upgrade`.
*/
module Backfill {
  import opened Prelude
  import opened Canonical
  import opened AuditLog
  import opened AuditTamper

  const MICROS := 1_000_000

  /** Calendar text of a whole second, and of a UTC offset ("+HH:MM", with seconds and micros if any). */
  datatype Calendar = Calendar(second: int -> string, offset: int -> string)

  ghost predicate GoodCalendar(env: Env, cal: Calendar) {
    && (forall s :: |cal.second(s)| == 19 && cal.second(s)[10] == 'T')
    && (forall o :: |cal.offset(o)| == 6 || |cal.offset(o)| == 9 || |cal.offset(o)| == 16)
    && (forall i :: env.strftime(i) == cal.second(i / MICROS) + "." + SixDigits(i % MICROS))
  }

  function SixDigits(n: nat): (text: string)
    requires n < MICROS
    ensures |text| == 6
  {
    [Digit(n / 100_000), Digit(n / 10_000 % 10), Digit(n / 1_000 % 10),
     Digit(n / 100 % 10), Digit(n / 10 % 10), Digit(n % 10)]
  }

  /** What a raw SELECT yields for created_at: a datetime, or on SQLite its stored text. */
  datatype RawStamp = Datetime(stamp: Stamp) | Text(text: string)

  /** isoformat() leaves out zero microseconds and adds the offset of an aware datetime. */
  function IsoFormat(cal: Calendar, s: Stamp): string {
    match s
    case Naive(utc) => IsoTime(cal, utc)
    case Aware(local, offset) => IsoTime(cal, local) + cal.offset(offset)
  }

  function IsoTime(cal: Calendar, micros: int): string {
    cal.second(micros / MICROS) + if micros % MICROS == 0 then "" else "." + SixDigits(micros % MICROS)
  }

  function RawText(cal: Calendar, raw: RawStamp): string {
    match raw
    case Datetime(stamp) => IsoFormat(cal, stamp)
    case Text(text) => text
  }

  /** One row of the migration's SELECT, with the row the ORM later loads for it. */
  datatype Legacy = Legacy(row: Row, rawId: string, rawMemoryId: Option<string>, rawCreated: RawStamp)

  function RawFields(cal: Calendar, l: Legacy): Fields {
    Fields(l.rawId, l.row.namespace, l.row.agentId, l.row.op, l.rawMemoryId, l.row.contentHash, RawText(cal, l.rawCreated))
  }

  function ComputeHash(env: Env, cal: Calendar, prevHash: string, l: Legacy): string {
    env.sha256(CanonicalText(prevHash, RawFields(cal, l)))
  }

  /** The last hash written in `ns`, genesis if there is none. */
  function LastHash(out: seq<Row>, ns: string): string {
    if out == [] then GENESIS_HASH
    else
      var last := out[|out| - 1];
      if last.namespace == ns && last.rowHash.Some? then last.rowHash.value else LastHash(out[..|out| - 1], ns)
  }

  /** Row `i` follows the last row before it in its namespace; no column but the two hashes is touched. */
  ghost predicate FilledAt(env: Env, cal: Calendar, rows: seq<Legacy>, out: seq<Row>, i: nat)
    requires |out| <= |rows| && i < |out|
  {
    var prevHash := LastHash(out[..i], rows[i].row.namespace);
    out[i] == rows[i].row.(prevHash := Some(prevHash), rowHash := Some(ComputeHash(env, cal, prevHash, rows[i])))
  }

  method Upgrade(env: Env, cal: Calendar, rows: seq<Legacy>) returns (out: seq<Row>)
    ensures |out| == |rows|
    ensures forall i :: 0 <= i < |rows| ==> FilledAt(env, cal, rows, out, i)
  {
    var tips: map<string, string> := map[];
    out := [];
    for i := 0 to |rows|
      invariant |out| == i
      invariant forall ns :: (if ns in tips then tips[ns] else GENESIS_HASH) == LastHash(out, ns)
      invariant forall k :: 0 <= k < i ==> FilledAt(env, cal, rows, out, k)
    {
      ghost var before := out;
      var ns := rows[i].row.namespace;
      var prevHash := if ns in tips then tips[ns] else GENESIS_HASH;
      var rowHash := ComputeHash(env, cal, prevHash, rows[i]);
      out := out + [rows[i].row.(prevHash := Some(prevHash), rowHash := Some(rowHash))];
      tips := tips[ns := rowHash];
      assert out[..i] == before;
      assert FilledAt(env, cal, rows, out, i);
      forall k | 0 <= k < i
        ensures FilledAt(env, cal, rows, out, k)
      {
        assert FilledAt(env, cal, rows, before, k);
        assert out[..k] == before[..k] && out[k] == before[k];
      }
    }
  }

  // ---- what the migration leaves behind ----------------------------------------------

  /** The namespace's rows, in the order the migration visited them. */
  function Visited(out: seq<Row>, ns: string): seq<Row> {
    if out == [] then []
    else
      var init := Visited(out[..|out| - 1], ns);
      if out[|out| - 1].namespace == ns then init + [out[|out| - 1]] else init
  }

  lemma {:induction false} VisitedElements(out: seq<Row>, ns: string)
    ensures Elements(Visited(out, ns)) == InNamespace(Elements(out), ns)
  {
    if out != [] {
      VisitedElements(out[..|out| - 1], ns);
      assert out == out[..|out| - 1] + [out[|out| - 1]];
      var init, last := Elements(out[..|out| - 1]), out[|out| - 1];
      assert Elements(out) == init + {last};
      assert Elements(Visited(out, ns)) == Elements(Visited(out[..|out| - 1], ns)) + if last.namespace == ns then {last} else {};
    }
  }

  /** Identifiers are the table's primary key. */
  predicate DistinctIds(rows: seq<Legacy>) {
    forall i, j :: 0 <= i < j < |rows| ==> rows[i].row.id != rows[j].row.id
  }

  ghost predicate Filled(env: Env, cal: Calendar, rows: seq<Legacy>, out: seq<Row>)
  {
    |out| == |rows| && forall i :: 0 <= i < |rows| ==> FilledAt(env, cal, rows, out, i)
  }

  lemma FilledPrefix(env: Env, cal: Calendar, rows: seq<Legacy>, out: seq<Row>)
    requires Filled(env, cal, rows, out) && out != []
    ensures Filled(env, cal, rows[..|out| - 1], out[..|out| - 1])
  {
    var n := |out| - 1;
    var rowsInit, init := rows[..n], out[..n];
    forall i | 0 <= i < n
      ensures FilledAt(env, cal, rowsInit, init, i)
    {
      assert FilledAt(env, cal, rows, out, i);
      assert init[..i] == out[..i];
    }
  }

  lemma {:induction false} VisitedChain(env: Env, cal: Calendar, rows: seq<Legacy>, out: seq<Row>, ns: string)
    requires Filled(env, cal, rows, out) && DistinctIds(rows)
    ensures IsChain(InNamespace(Elements(out), ns), Visited(out, ns))
    ensures LastHash(out, ns)
         == if Visited(out, ns) == [] then GENESIS_HASH else Visited(out, ns)[|Visited(out, ns)| - 1].rowHash.value
    decreases |out|
  {
    VisitedElements(out, ns);
    if out != [] {
      var n := |out| - 1;
      FilledPrefix(env, cal, rows, out);
      VisitedChain(env, cal, rows[..n], out[..n], ns);
      assert FilledAt(env, cal, rows, out, n);
      assert forall i :: 0 <= i < n ==> FilledAt(env, cal, rows, out, i);
      if out[n].namespace == ns {
        var init := Visited(out[..n], ns);
        forall i | 0 <= i < |init|
          ensures init[i] != out[n]
        {
          assert init[i] in Elements(init);
          VisitedElements(out[..n], ns);
          var k :| 0 <= k < n && out[..n][k] == init[i];
          assert FilledAt(env, cal, rows, out, k);
          assert out[k].id == rows[k].row.id && out[n].id == rows[n].row.id;
        }
      }
    }
  }

  /** The migration leaves each namespace as one unforked chain that starts at genesis. */
  lemma BackfillIsChain(env: Env, cal: Calendar, rows: seq<Legacy>, out: seq<Row>, ns: string)
    requires Filled(env, cal, rows, out) && DistinctIds(rows)
    ensures IsChain(InNamespace(Elements(out), ns), Visited(out, ns))
  {
    VisitedChain(env, cal, rows, out, ns);
  }

  /** The raw SELECT and the ORM render identifier, memory identifier and timestamp alike. */
  predicate RawAgrees(env: Env, cal: Calendar, l: Legacy) {
    && l.rawId == env.uuid(l.row.id)
    && l.rawMemoryId == UuidOption(env, l.row.memoryId)
    && RawText(cal, l.rawCreated) == FmtDt(env, l.row.created)
  }

  /** Rows as the migration meets them: format v1, no separator in any column. */
  ghost predicate Migratable(cal: Calendar, l: Legacy) {
    && l.row.hashVersion < 2
    && PlainRow(l.row)
    && Generated(RawFields(cal, l))
  }

  /** The text hashed by the migration and the text hashed by the verifier do not collide. */
  ghost predicate NoCollision(env: Env, cal: Calendar, l: Legacy, prevHash: string) {
    var raw, orm := CanonicalText(prevHash, RawFields(cal, l)), CanonicalText(prevHash, FieldsOf(env, l.row));
    env.sha256(raw) == env.sha256(orm) ==> raw == orm
  }

  lemma FaithfulIffAgrees(env: Env, cal: Calendar, rows: seq<Legacy>, out: seq<Row>, i: nat)
    requires GoodEnv(env) && Filled(env, cal, rows, out) && i < |rows| && Migratable(cal, rows[i])
    requires Hashed(out[i]) && IsDigest(out[i].prevHash.value)
    requires NoCollision(env, cal, rows[i], out[i].prevHash.value)
    ensures Faithful(env, out[i]) <==> RawAgrees(env, cal, rows[i])
  {
    assert FilledAt(env, cal, rows, out, i);
    var p, raw, orm := out[i].prevHash.value, RawFields(cal, rows[i]), FieldsOf(env, rows[i].row);
    assert CoveredBy(env, out[i], p) == V1(p, orm);
    if CanonicalText(p, raw) == CanonicalText(p, orm) {
      HashedTextInjective(V1(p, raw), V1(p, orm));
    }
  }

  lemma LastHashIsDigest(env: Env, out: seq<Row>, ns: string)
    requires forall r :: r in out && r.rowHash.Some? ==> IsDigest(r.rowHash.value)
    ensures IsDigest(LastHash(out, ns))
  {
    GenesisIsDigest();
  }

  lemma FilledDigests(env: Env, cal: Calendar, rows: seq<Legacy>, out: seq<Row>, i: nat)
    requires GoodEnv(env) && Filled(env, cal, rows, out) && i < |out|
    ensures Hashed(out[i]) && IsDigest(out[i].prevHash.value)
  {
    assert FilledAt(env, cal, rows, out, i);
    forall r | r in out[..i] && r.rowHash.Some?
      ensures IsDigest(r.rowHash.value)
    {
      var k :| 0 <= k < i && out[k] == r;
      assert FilledAt(env, cal, rows, out, k);
    }
    LastHashIsDigest(env, out[..i], rows[i].row.namespace);
  }

  lemma ChainParents(log: set<Row>, chain: seq<Row>, r: Row)
    requires IsChain(log, chain) && r in log
    ensures Hashed(r) && ParentPresent(log, r)
  {
    var i :| 0 <= i < |chain| && chain[i] == r;
    if i > 0 {
      assert chain[i - 1 + 1].prevHash == chain[i - 1].rowHash;
      assert chain[i - 1] in Elements(chain);
    }
  }

  /**
    The verifier accepts a backfilled namespace exactly when the migration's raw SELECT rendered
    each of its rows the way the ORM does; otherwise it reports the rows where they differ.
  */
  lemma BackfillVerifiesIff(env: Env, cal: Calendar, rows: seq<Legacy>, out: seq<Row>, ns: string)
    requires GoodEnv(env) && Filled(env, cal, rows, out) && DistinctIds(rows)
    requires forall i :: 0 <= i < |rows| ==> Migratable(cal, rows[i]) && NoCollision(env, cal, rows[i], LastHash(out[..i], rows[i].row.namespace))
    ensures Sound(env, InNamespace(Elements(out), ns)) <==>
            forall i :: 0 <= i < |rows| && rows[i].row.namespace == ns ==> RawAgrees(env, cal, rows[i])
  {
    var log := InNamespace(Elements(out), ns);
    VisitedChain(env, cal, rows, out, ns);
    forall i | 0 <= i < |rows|
      ensures Hashed(out[i]) && out[i].namespace == rows[i].row.namespace
      ensures Faithful(env, out[i]) <==> RawAgrees(env, cal, rows[i])
      ensures out[i].namespace == ns ==> out[i] in log
    {
      FilledDigests(env, cal, rows, out, i);
      assert FilledAt(env, cal, rows, out, i);
      FaithfulIffAgrees(env, cal, rows, out, i);
    }
    forall r | r in log
      ensures ParentPresent(log, r)
    {
      ChainParents(log, Visited(out, ns), r);
    }
    if !Sound(env, log) {
      var r :| r in log && Hashed(r) && !Faithful(env, r);
      var i :| 0 <= i < |out| && out[i] == r;
      assert !RawAgrees(env, cal, rows[i]);
    }
  }

  /**
    For datetimes the two timestamp texts agree exactly when the datetime is naive and its
    microseconds are not zero: isoformat() adds the offset of an aware datetime, and drops zero
    microseconds, and the verifier's format does neither.
  */
  lemma IsoAgreesIff(env: Env, cal: Calendar, s: Stamp)
    requires GoodCalendar(env, cal)
    ensures RawText(cal, Datetime(s)) == FmtDt(env, s) <==> s.Naive? && s.utc % MICROS != 0
  {
    var iso, fmt := IsoFormat(cal, s), FmtDt(env, s);
    assert |fmt| == 26;
    match s
    case Naive(utc) =>
      assert utc % MICROS == 0 ==> |iso| == 19;
      assert utc % MICROS != 0 ==> iso == fmt;
    case Aware(local, offset) =>
      assert |cal.offset(offset)| >= 6;
      assert |iso| != 26;
  }

  /** The text SQLite stores for a timestamp: the verifier's, with a blank between date and time. */
  function StoredText(cal: Calendar, micros: int): string
    requires |cal.second(micros / MICROS)| == 19
  {
    var second := cal.second(micros / MICROS);
    second[..10] + " " + second[11..] + "." + SixDigits(micros % MICROS)
  }

  /** It is the verifier's text but for that blank. */
  lemma StoredTextInWords(env: Env, cal: Calendar, micros: int)
    requires GoodCalendar(env, cal)
    ensures |env.strftime(micros)| == 26 && StoredText(cal, micros) == env.strftime(micros)[10 := ' ']
  {
  }

  function Number(digits: string): nat
    requires forall i :: 0 <= i < |digits| ==> '0' <= digits[i] <= '9'
  {
    if digits == "" then 0 else 10 * Number(digits[..|digits| - 1]) + (digits[|digits| - 1] - '0') as nat
  }

  /** The number without its last five, four, ..., no digits. */
  function Heads(n: nat): seq<nat> {
    [n / 100_000, n / 10_000, n / 1_000, n / 100, n / 10, n]
  }

  lemma DigitsOfHeads(n: nat)
    requires n < 1_000_000
    ensures forall i :: 0 <= i < 6 ==> SixDigits(n)[i] == Digit(Heads(n)[i] % 10) && '0' <= SixDigits(n)[i] <= '9'
  {
    assert n / 100_000 % 10 == n / 100_000;
    forall i | 0 <= i < 6 ensures '0' <= Digit(Heads(n)[i] % 10) <= '9' {
      DigitRead(Heads(n)[i] % 10);
    }
  }

  lemma HeadsShift(n: nat)
    requires n < 1_000_000
    ensures Heads(n)[0] < 10 && forall i :: 0 < i < 6 ==> Heads(n)[i] / 10 == Heads(n)[i - 1]
  {
    assert n / 10_000 / 10 == n / 100_000 && n / 1_000 / 10 == n / 10_000;
    assert n / 100 / 10 == n / 1_000 && n / 10 / 10 == n / 100;
  }

  /** Six digits that read as the number. */
  lemma SixDigitsRead(n: nat)
    requires n < 1_000_000
    ensures forall i :: 0 <= i < 6 ==> '0' <= SixDigits(n)[i] <= '9'
    ensures Number(SixDigits(n)) == n
  {
    DigitsOfHeads(n);
    HeadsShift(n);
    ReadDigits(SixDigits(n), Heads(n));
  }

  /** Digit by digit, each number being the one before with a digit appended. */
  lemma {:induction false} ReadDigits(d: string, m: seq<nat>)
    requires 0 < |d| == |m| && m[0] < 10 && forall i :: 0 <= i < |d| ==> '0' <= d[i] <= '9' && d[i] == Digit(m[i] % 10)
    requires forall i :: 0 < i < |d| ==> m[i] / 10 == m[i - 1]
    ensures Number(d) == m[|m| - 1]
  {
    var n := |d| - 1;
    DigitRead(m[n] % 10);
    if n > 0 {
      ReadDigits(d[..n], m[..n]);
    }
    assert m[n] == 10 * (m[n] / 10) + m[n] % 10;
  }

  lemma DigitRead(n: nat)
    requires n < 10
    ensures '0' <= Digit(n) <= '9' && (Digit(n) - '0') as nat == n
  {
  }

  /** The verifier never hashes the text that a raw SELECT yields on SQLite. */
  lemma StoredTextNeverAgrees(env: Env, cal: Calendar, micros: int, s: Stamp)
    requires GoodCalendar(env, cal)
    ensures RawText(cal, Text(StoredText(cal, micros))) != FmtDt(env, s)
  {
    assert StoredText(cal, micros)[10] == ' ';
    assert FmtDt(env, s)[10] == 'T';
  }

  /** So on SQLite the migration leaves no namespace that the verifier accepts, but the empty one. */
  lemma StoredTextBackfillVerifiesIff(env: Env, cal: Calendar, rows: seq<Legacy>, out: seq<Row>, ns: string)
    requires GoodEnv(env) && GoodCalendar(env, cal) && Filled(env, cal, rows, out) && DistinctIds(rows)
    requires forall i :: 0 <= i < |rows| ==> Migratable(cal, rows[i]) && NoCollision(env, cal, rows[i], LastHash(out[..i], rows[i].row.namespace))
    requires forall i :: 0 <= i < |rows| ==> exists micros :: rows[i].rawCreated == Text(StoredText(cal, micros))
    ensures Sound(env, InNamespace(Elements(out), ns)) <==> forall i :: 0 <= i < |rows| ==> rows[i].row.namespace != ns
  {
    BackfillVerifiesIff(env, cal, rows, out, ns);
    forall i | 0 <= i < |rows| ensures !RawAgrees(env, cal, rows[i]) {
      var micros :| rows[i].rawCreated == Text(StoredText(cal, micros));
      StoredTextNeverAgrees(env, cal, micros, rows[i].row.created);
    }
  }
}
