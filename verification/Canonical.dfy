/**
  The canonical text of an audit row: what is hashed, and what it determines.
  Source: agentmem/src/lians/audit_chain.py, `_canonical` and `compute_row_hash`.
*/
module Canonical {
  import opened Prelude

  const SEP: char := '|'
  const GENESIS_HASH: string := Zeros(64)

  function Zeros(n: nat): (text: string)
    ensures |text| == n && forall i :: 0 <= i < n ==> text[i] == '0'
  {
    seq(n, _ => '0')
  }

  /** The hash-covered columns of a row, already rendered as text. */
  datatype Fields = Fields(
    id: string,
    namespace: string,
    agentId: string,
    op: string,
    memoryId: Option<string>,
    contentHash: Option<string>,
    createdAt: string)

  /** What a row's text commits to: format v1 leaves payload and version out. */
  datatype Covered =
    | V1(prevHash: string, fields: Fields)
    | V2(version: nat, prevHash: string, fields: Fields, payload: string)

  predicate Plain(s: string) {
    SEP !in s
  }

  /** A hexadecimal digest; in particular free of separators and never starting with 'v'. */
  predicate IsDigest(s: string) {
    forall i :: 0 <= i < |s| ==> '0' <= s[i] <= '9' || 'a' <= s[i] <= 'f'
  }

  lemma GenesisIsDigest()
    ensures IsDigest(GENESIS_HASH) && |GENESIS_HASH| == 64 && forall i :: 0 <= i < 64 ==> GENESIS_HASH[i] == '0'
  {
  }

  function OrNull(text: Option<string>): string {
    if text.Some? then text.value else "null"
  }

  function Join(fields: seq<string>): string
    requires |fields| > 0
  {
    if |fields| == 1 then fields[0] else fields[0] + [SEP] + Join(fields[1..])
  }

  function FieldList(prevHash: string, f: Fields): seq<string> {
    [prevHash, f.id, f.namespace, f.agentId, f.op, OrNull(f.memoryId), OrNull(f.contentHash), f.createdAt]
  }

  function CanonicalText(prevHash: string, f: Fields): string {
    Join(FieldList(prevHash, f))
  }

  /** The eight fields, written out. */
  lemma JoinEight(prevHash: string, f: Fields)
    ensures CanonicalText(prevHash, f)
         == prevHash + "|" + f.id + "|" + f.namespace + "|" + f.agentId + "|" + f.op + "|"
            + (if f.memoryId.Some? then f.memoryId.value else "null") + "|"
            + (if f.contentHash.Some? then f.contentHash.value else "null") + "|" + f.createdAt
  {
    var list := FieldList(prevHash, f);
    JoinFive(list);
    JoinUpTo(list, 5);
    JoinUpTo(list, 6);
    JoinUpTo(list, 7);
    assert list[..8] == list;
  }

  lemma JoinFive(list: seq<string>)
    requires |list| >= 5
    ensures Join(list[..5]) == list[0] + "|" + list[1] + "|" + list[2] + "|" + list[3] + "|" + list[4]
  {
    JoinUpTo(list, 1);
    JoinUpTo(list, 2);
    JoinUpTo(list, 3);
    JoinUpTo(list, 4);
  }

  lemma {:induction false} JoinUpTo(list: seq<string>, k: nat)
    requires 0 < k < |list|
    ensures Join(list[..k + 1]) == Join(list[..k]) + "|" + list[k]
  {
    assert list[..k + 1][1..] == list[1..][..k] && list[..k][1..] == list[1..][..k - 1];
    if k > 1 {
      JoinUpTo(list[1..], k - 1);
    }
  }

  function Decimal(n: nat): (text: string)
    ensures |text| > 0
  {
    if n < 10 then [Digit(n)] else Decimal(n / 10) + [Digit(n % 10)]
  }

  function Digit(n: nat): char
    requires n < 10
  {
    "0123456789"[n]
  }

  /** The text handed to SHA-256: v1 bare, v2 and later with a version prefix and the payload. */
  function HashedText(c: Covered): string {
    match c
    case V1(prevHash, fields) => CanonicalText(prevHash, fields)
    case V2(version, prevHash, fields, payload) =>
      "v" + Decimal(version) + [SEP] + CanonicalText(prevHash, fields) + [SEP] + payload
  }

  /** The text of format version 2, written out. */
  lemma VersionTwoText(prevHash: string, f: Fields, payload: string)
    ensures HashedText(V2(2, prevHash, f, payload))
         == "v2|" + (prevHash + "|" + f.id + "|" + f.namespace + "|" + f.agentId + "|" + f.op + "|"
                     + (if f.memoryId.Some? then f.memoryId.value else "null") + "|"
                     + (if f.contentHash.Some? then f.contentHash.value else "null") + "|" + f.createdAt) + "|" + payload
  {
    JoinEight(prevHash, f);
    assert "v" + Decimal(2) + [SEP] == "v2|";
  }

  /** Columns the system generates itself: identifiers, digests and the timestamp text. */
  predicate Generated(f: Fields) {
    && Plain(f.id)
    && Plain(f.createdAt)
    && (f.memoryId.Some? ==> Plain(f.memoryId.value) && f.memoryId.value != "null")
    && (f.contentHash.Some? ==> Plain(f.contentHash.value) && f.contentHash.value != "null")
  }

  /** Columns a caller supplies; nothing in the source forbids a separator in them. */
  predicate CallerPlain(f: Fields) {
    Plain(f.namespace) && Plain(f.agentId) && Plain(f.op)
  }

  predicate Encodable(c: Covered) {
    IsDigest(c.prevHash) && Generated(c.fields) && CallerPlain(c.fields)
  }

  // ---- splitting a joined text back --------------------------------------------------

  /** The first separator ends the first field, whatever follows it. */
  lemma HeadSplit(a: string, x: string, b: string, y: string)
    requires Plain(a) && Plain(b)
    requires a + [SEP] + x == b + [SEP] + y
    ensures a == b && x == y
  {
    var left, right := a + [SEP] + x, b + [SEP] + y;
    assert left[|a|] == SEP && right[|b|] == SEP;
    assert forall i :: 0 <= i < |a| ==> left[i] == a[i];
    assert forall i :: 0 <= i < |b| ==> right[i] == b[i];
    assert |a| == |b|;
    assert left[..|a|] == a && right[..|b|] == b;
    assert left[|a| + 1..] == x && right[|b| + 1..] == y;
  }

  /** Joined lists of the same length, followed by a separator and arbitrary tails, split uniquely. */
  lemma {:induction false} JoinSplit(f: seq<string>, x: string, g: seq<string>, y: string)
    requires |f| == |g| > 0
    requires forall i :: 0 <= i < |f| ==> Plain(f[i]) && Plain(g[i])
    requires Join(f) + [SEP] + x == Join(g) + [SEP] + y
    ensures f == g && x == y
  {
    if |f| == 1 {
      HeadSplit(f[0], x, g[0], y);
    } else {
      var fx, gy := Join(f[1..]) + [SEP] + x, Join(g[1..]) + [SEP] + y;
      assert Join(f) + [SEP] + x == f[0] + [SEP] + fx;
      assert Join(g) + [SEP] + y == g[0] + [SEP] + gy;
      HeadSplit(f[0], fx, g[0], gy);
      JoinSplit(f[1..], x, g[1..], y);
      assert f == [f[0]] + f[1..] && g == [g[0]] + g[1..];
    }
  }

  lemma DigestIsPlain(s: string)
    requires IsDigest(s)
    ensures Plain(s)
  {
  }

  lemma FieldListDetermines(p: string, f: Fields, q: string, g: Fields)
    requires FieldList(p, f) == FieldList(q, g)
    requires Generated(f) && Generated(g)
    ensures p == q && f == g
  {
    var a, b := FieldList(p, f), FieldList(q, g);
    assert a[0] == b[0] && a[1] == b[1] && a[2] == b[2] && a[3] == b[3] && a[4] == b[4];
    assert a[5] == b[5] && a[6] == b[6] && a[7] == b[7];
  }

  lemma {:induction false} DecimalPlain(n: nat)
    ensures Plain(Decimal(n))
  {
    if n >= 10 {
      DecimalPlain(n / 10);
    }
  }

  lemma {:induction false} DecimalInjective(m: nat, n: nat)
    requires Decimal(m) == Decimal(n)
    ensures m == n
  {
    var a, b := Decimal(m), Decimal(n);
    assert a[|a| - 1] == b[|b| - 1];
    if m >= 10 && n >= 10 {
      assert a[..|a| - 1] == Decimal(m / 10) && b[..|b| - 1] == Decimal(n / 10);
      DecimalInjective(m / 10, n / 10);
    }
  }

  /**
    The hashed text determines everything it covers: all eight columns and, from v2 on, the
    version and an arbitrary payload. A v1 text is never a v2 text.
  */
  lemma HashedTextInjective(c: Covered, d: Covered)
    requires Encodable(c) && Encodable(d)
    requires HashedText(c) == HashedText(d)
    ensures c == d
  {
    assert c.V2? ==> HashedText(c)[0] == 'v';
    assert d.V2? ==> HashedText(d)[0] == 'v';
    if c.V1? && d.V1? {
      VersionOneInjective(c, d);
    } else if c.V2? && d.V2? {
      VersionTwoInjective(c, d);
    } else if c.V1? {
      TextHead(c);
    } else {
      TextHead(d);
    }
  }

  lemma VersionOneInjective(c: Covered, d: Covered)
    requires c.V1? && d.V1? && Encodable(c) && Encodable(d) && HashedText(c) == HashedText(d)
    ensures c == d
  {
    var fc, fd := FieldList(c.prevHash, c.fields), FieldList(d.prevHash, d.fields);
    DigestIsPlain(c.prevHash);
    DigestIsPlain(d.prevHash);
    assert Join(fc) + [SEP] + "" == Join(fd) + [SEP] + "";
    JoinSplit(fc, "", fd, "");
    FieldListDetermines(c.prevHash, c.fields, d.prevHash, d.fields);
  }

  lemma VersionTwoInjective(c: Covered, d: Covered)
    requires c.V2? && d.V2? && Encodable(c) && Encodable(d) && HashedText(c) == HashedText(d)
    ensures c == d
  {
    var fc, fd := FieldList(c.prevHash, c.fields), FieldList(d.prevHash, d.fields);
    var vc, vd := "v" + Decimal(c.version), "v" + Decimal(d.version);
    var tc, td := Join(fc) + [SEP] + c.payload, Join(fd) + [SEP] + d.payload;
    DecimalPlain(c.version);
    DecimalPlain(d.version);
    assert HashedText(c) == vc + [SEP] + tc && HashedText(d) == vd + [SEP] + td;
    HeadSplit(vc, tc, vd, td);
    assert vc[1..] == Decimal(c.version) && vd[1..] == Decimal(d.version);
    DecimalInjective(c.version, d.version);
    DigestIsPlain(c.prevHash);
    DigestIsPlain(d.prevHash);
    JoinSplit(fc, c.payload, fd, d.payload);
    FieldListDetermines(c.prevHash, c.fields, d.prevHash, d.fields);
  }

  /** A v1 text starts with a hexadecimal digit, or with the separator of an empty digest. */
  lemma TextHead(c: Covered)
    requires c.V1? && IsDigest(c.prevHash)
    ensures |HashedText(c)| > 0 && HashedText(c)[0] != 'v'
  {
    var f := FieldList(c.prevHash, c.fields);
    assert HashedText(c) == f[0] + [SEP] + Join(f[1..]);
    if |f[0]| > 0 {
      assert HashedText(c)[0] == f[0][0];
    }
  }

  // ---- exactly when the joined text identifies its row -------------------------------

  function Separators(s: string): nat {
    if s == "" then 0 else (if s[0] == SEP then 1 else 0) + Separators(s[1..])
  }

  lemma {:induction false} SeparatorsConcat(a: string, b: string)
    ensures Separators(a + b) == Separators(a) + Separators(b)
  {
    if a == "" {
      assert a + b == b;
    } else {
      SeparatorsConcat(a[1..], b);
      assert (a + b)[1..] == a[1..] + b;
    }
  }

  lemma {:induction false} NoSeparators(s: string)
    ensures Separators(s) == 0 <==> Plain(s)
  {
    if s != "" {
      NoSeparators(s[1..]);
      assert s == [s[0]] + s[1..];
    }
  }

  /** A join of `n` fields has at least `n - 1` separators, and just that many when all are plain. */
  lemma {:induction false} JoinSeparators(f: seq<string>)
    requires |f| > 0
    ensures Separators(Join(f)) >= |f| - 1
    ensures Separators(Join(f)) == |f| - 1 <==> forall i :: 0 <= i < |f| ==> Plain(f[i])
  {
    NoSeparators(f[0]);
    if |f| > 1 {
      JoinSeparators(f[1..]);
      SeparatorsConcat(f[0] + [SEP], Join(f[1..]));
      SeparatorsConcat(f[0], [SEP]);
      assert Separators([SEP]) == 1;
      assert forall i :: 1 <= i < |f| ==> f[i] == f[1..][i - 1];
    }
  }

  /** Nothing else produces this row's canonical text. */
  ghost predicate Identifies(prevHash: string, f: Fields) {
    forall q, g :: IsDigest(q) && Generated(g) && CanonicalText(q, g) == CanonicalText(prevHash, f) ==>
      q == prevHash && g == f
  }

  /**
    The canonical text identifies its row exactly when the three columns a caller supplies hold
    no separator. The other row of a failing pair is built by moving the text after a separator
    into the neighbouring column.
  */
  lemma IdentifiesIffPlain(prevHash: string, f: Fields)
    requires IsDigest(prevHash) && Generated(f)
    ensures Identifies(prevHash, f) <==> CallerPlain(f)
  {
    if CallerPlain(f) {
      forall q, g | IsDigest(q) && Generated(g) && CanonicalText(q, g) == CanonicalText(prevHash, f)
        ensures q == prevHash && g == f
      {
        PlainIdentifies(prevHash, f, q, g);
      }
    } else {
      var g := Twin(prevHash, f);
      assert g != f && Generated(g);
    }
  }

  lemma PlainIdentifies(p: string, f: Fields, q: string, g: Fields)
    requires IsDigest(p) && Generated(f) && CallerPlain(f)
    requires IsDigest(q) && Generated(g)
    requires CanonicalText(q, g) == CanonicalText(p, f)
    ensures q == p && g == f
  {
    var a, b := FieldList(p, f), FieldList(q, g);
    DigestIsPlain(p);
    DigestIsPlain(q);
    JoinSeparators(a);
    JoinSeparators(b);
    assert b[2] == g.namespace && b[3] == g.agentId && b[4] == g.op;
    HashedTextInjective(V1(p, f), V1(q, g));
  }

  /** Moving the text after a separator across the field boundary keeps the joined text. */
  lemma Twin(prevHash: string, f: Fields) returns (g: Fields)
    requires Generated(f) && !CallerPlain(f)
    ensures Generated(g) && g != f && CanonicalText(prevHash, g) == CanonicalText(prevHash, f)
  {
    if !Plain(f.namespace) {
      var x, y := CutAt(f.namespace);
      g := f.(namespace := x, agentId := y + [SEP] + f.agentId);
      assert x + [SEP] + (y + [SEP] + f.agentId) == f.namespace + [SEP] + f.agentId;
      SameJoin(prevHash, f, g);
    } else if !Plain(f.agentId) {
      var x, y := CutAt(f.agentId);
      g := f.(agentId := x, op := y + [SEP] + f.op);
      assert x + [SEP] + (y + [SEP] + f.op) == f.agentId + [SEP] + f.op;
      SameJoin(prevHash, f, g);
    } else {
      var x, y := CutAt(f.op);
      g := f.(agentId := f.agentId + [SEP] + x, op := y);
      assert (f.agentId + [SEP] + x) + [SEP] + y == f.agentId + [SEP] + f.op;
      SameJoin(prevHash, f, g);
    }
  }

  lemma CutAt(s: string) returns (x: string, y: string)
    requires !Plain(s)
    ensures s == x + [SEP] + y && |x| < |s|
  {
    var i :| 0 <= i < |s| && s[i] == SEP;
    x, y := s[..i], s[i + 1..];
  }

  function Middle(f: Fields): string {
    f.namespace + [SEP] + f.agentId + [SEP] + f.op
  }

  lemma SameJoin(prevHash: string, f: Fields, g: Fields)
    requires f.id == g.id && f.memoryId == g.memoryId && f.contentHash == g.contentHash && f.createdAt == g.createdAt
    requires
      || (f.namespace + [SEP] + f.agentId == g.namespace + [SEP] + g.agentId && f.op == g.op)
      || (f.agentId + [SEP] + f.op == g.agentId + [SEP] + g.op && f.namespace == g.namespace)
    ensures CanonicalText(prevHash, f) == CanonicalText(prevHash, g)
  {
    assert Middle(f) == f.namespace + [SEP] + (f.agentId + [SEP] + f.op);
    assert Middle(g) == g.namespace + [SEP] + (g.agentId + [SEP] + g.op);
    assert Middle(f) == Middle(g);
    Unfolded(prevHash, f);
    Unfolded(prevHash, g);
  }

  lemma Unfolded(prevHash: string, f: Fields)
    ensures CanonicalText(prevHash, f)
         == prevHash + [SEP] + (f.id + [SEP] + (Middle(f) + [SEP]
            + (OrNull(f.memoryId) + [SEP] + (OrNull(f.contentHash) + [SEP] + f.createdAt))))
  {
    var l := FieldList(prevHash, f);
    var tail := Join(l[5..]);
    assert l[5..][1..] == l[6..] && l[6..][1..] == l[7..];
    assert Join(l[6..]) == OrNull(f.contentHash) + [SEP] + Join(l[7..]);
    assert Join(l[5..]) == OrNull(f.memoryId) + [SEP] + Join(l[6..]);
    assert tail == OrNull(f.memoryId) + [SEP] + (OrNull(f.contentHash) + [SEP] + f.createdAt);
    assert l[1..][1..] == l[2..] && l[2..][1..] == l[3..] && l[3..][1..] == l[4..] && l[4..][1..] == l[5..];
    assert Join(l[4..]) == f.op + [SEP] + tail;
    assert Join(l[3..]) == f.agentId + [SEP] + Join(l[4..]);
    assert Join(l[2..]) == f.namespace + [SEP] + Join(l[3..]);
    assert Join(l[2..]) == Middle(f) + [SEP] + tail;
    assert Join(l[1..]) == f.id + [SEP] + Join(l[2..]);
  }
}
