/**
  What a verified audit log commits to, and which deletions its verifier sees.
  Source: agentmem/src/lians/audit_chain.py, `compute_row_hash` and `verify_chain`.
*/
module AuditTamper {
  import opened Prelude
  import opened Canonical
  import opened AuditLog

  function TextOf(env: Env, r: Row): string
    requires Hashed(r)
  {
    HashedText(CoveredBy(env, r, r.prevHash.value))
  }

  /** Among the texts these rows hash there is no collision, and none hashes to genesis. */
  ghost predicate Ideal(env: Env, rows: set<Row>) {
    && (forall a, b :: a in rows && b in rows && Hashed(a) && Hashed(b) ==>
          env.sha256(TextOf(env, a)) == env.sha256(TextOf(env, b)) ==> TextOf(env, a) == TextOf(env, b))
    && (forall r :: r in rows && Hashed(r) ==> env.sha256(TextOf(env, r)) != GENESIS_HASH)
  }

  /** No separator in a caller-supplied column. */
  predicate PlainRow(r: Row) {
    && Plain(r.namespace) && Plain(r.agentId) && Plain(r.op)
    && (r.contentHash.Some? ==> Plain(r.contentHash.value) && r.contentHash.value != "null")
  }

  /** A log the verifier accepts, written entirely since migration 0006. */
  ghost predicate Verified(env: Env, log: set<Row>) {
    && Sound(env, log)
    && forall r :: r in log ==> Hashed(r) && PlainRow(r)
  }

  /** The two rows agree on everything their hash covers, their parent's hash included. */
  ghost predicate SameCovered(env: Env, a: Row, b: Row) {
    && Hashed(a) && Hashed(b)
    && a.rowHash == b.rowHash
    && CoveredBy(env, a, a.prevHash.value) == CoveredBy(env, b, b.prevHash.value)
  }

  /** In terms of columns: payload and version are covered from format v2 on. */
  lemma SameCoveredColumns(env: Env, a: Row, b: Row)
    requires GoodEnv(env) && SameCovered(env, a, b)
    ensures a.id == b.id && a.namespace == b.namespace && a.agentId == b.agentId && a.op == b.op
    ensures a.memoryId == b.memoryId && a.contentHash == b.contentHash && a.prevHash == b.prevHash
    ensures FmtDt(env, a.created) == FmtDt(env, b.created)
    ensures a.hashVersion >= 2 ==> a.payload == b.payload && a.hashVersion == b.hashVersion
  {
    assert FieldsOf(env, a) == FieldsOf(env, b);
  }

  lemma PlainEncodable(env: Env, r: Row)
    requires GoodEnv(env) && Hashed(r) && PlainRow(r) && IsDigest(r.prevHash.value)
    ensures Encodable(CoveredBy(env, r, r.prevHash.value))
  {
  }

  /** Every prev_hash of a verified log is a digest: genesis or the hash of a row that recomputes. */
  lemma PrevIsDigest(env: Env, log: set<Row>, r: Row)
    requires GoodEnv(env) && Verified(env, log) && r in log
    ensures IsDigest(r.prevHash.value)
  {
    GenesisIsDigest();
    if r.prevHash.value != GENESIS_HASH {
      var p :| p in log && p.rowHash == r.prevHash;
      assert Faithful(env, p);
    }
  }

  /** One row: equal hashes mean equal covered fields. */
  lemma EqualHashesAgree(env: Env, logA: set<Row>, a: Row, logB: set<Row>, b: Row)
    requires GoodEnv(env) && Verified(env, logA) && Verified(env, logB) && Ideal(env, logA + logB)
    requires a in logA && b in logB && a.rowHash == b.rowHash
    ensures SameCovered(env, a, b)
  {
    PrevIsDigest(env, logA, a);
    PrevIsDigest(env, logB, b);
    PlainEncodable(env, a);
    PlainEncodable(env, b);
    assert Faithful(env, a) && Faithful(env, b);
    assert a in logA + logB && b in logA + logB;
    assert TextOf(env, a) == TextOf(env, b);
    HashedTextInjective(CoveredBy(env, a, a.prevHash.value), CoveredBy(env, b, b.prevHash.value));
  }

  /** Row `i + 1` of the path is the parent of row `i`. */
  predicate Linked(path: seq<Row>, i: nat)
    requires i + 1 < |path|
  {
    && Hashed(path[i]) && path[i].prevHash.value != GENESIS_HASH
    && path[i + 1].rowHash == path[i].prevHash
  }

  /** `path` leads from its first row through parents of the same log. */
  ghost predicate Ancestry(log: set<Row>, path: seq<Row>) {
    && |path| > 0
    && (forall i :: 0 <= i < |path| ==> path[i] in log && Hashed(path[i]))
    && (forall i :: 0 <= i < |path| - 1 ==> Linked(path, i))
  }

  /** Rows of the two logs with equal hashes have equal parents' hashes. */
  ghost predicate LinksAgree(logA: set<Row>, logB: set<Row>) {
    forall a, b :: a in logA && b in logB && a.rowHash == b.rowHash ==> a.prevHash == b.prevHash
  }

  /** Every parent is there. */
  ghost predicate Rooted(log: set<Row>) {
    forall r :: r in log ==> Hashed(r) && ParentPresent(log, r)
  }

  lemma VerifiedLinks(env: Env, logA: set<Row>, logB: set<Row>)
    requires GoodEnv(env) && Verified(env, logA) && Verified(env, logB) && Ideal(env, logA + logB)
    ensures LinksAgree(logA, logB) && Rooted(logA) && Rooted(logB)
  {
    forall a, b | a in logA && b in logB && a.rowHash == b.rowHash
      ensures a.prevHash == b.prevHash
    {
      EqualHashesAgree(env, logA, a, logB, b);
      SameCoveredColumns(env, a, b);
    }
  }

  lemma AncestryTail(log: set<Row>, path: seq<Row>)
    requires Ancestry(log, path) && |path| > 1
    ensures Ancestry(log, path[1..])
  {
    forall i | 0 <= i < |path| - 2 ensures Linked(path[1..], i) {
      assert Linked(path, i + 1);
    }
  }

  lemma Match(logA: set<Row>, a: Row, logB: set<Row>, b: Row)
    requires LinksAgree(logA, logB) && a in logA && b in logB && a.rowHash == b.rowHash
    ensures a.prevHash == b.prevHash
  {
  }

  lemma ParentOf(log: set<Row>, r: Row) returns (p: Row)
    requires Rooted(log) && r in log && Hashed(r) && r.prevHash.value != GENESIS_HASH
    ensures p in log && p.rowHash == r.prevHash
  {
    assert ParentPresent(log, r);
    p :| p in log && p.rowHash == r.prevHash;
  }

  lemma {:induction false} MatchAncestry(logA: set<Row>, path: seq<Row>, logB: set<Row>, b: Row) returns (other: seq<Row>)
    requires LinksAgree(logA, logB) && Rooted(logB)
    requires Ancestry(logA, path) && b in logB && b.rowHash == path[0].rowHash
    ensures Ancestry(logB, other) && |other| == |path| && other[0] == b
    ensures forall i :: 0 <= i < |path| ==> path[i].rowHash == other[i].rowHash
    decreases |path|
  {
    if |path| == 1 {
      other := [b];
    } else {
      assert Linked(path, 0) && path[0] in logA && b in logB;
      Match(logA, path[0], logB, b);
      var p := ParentOf(logB, b);
      AncestryTail(logA, path);
      var rest := MatchAncestry(logA, path[1..], logB, p);
      Prepend(logB, b, rest);
      other := [b] + rest;
      forall i | 0 <= i < |path| ensures path[i].rowHash == other[i].rowHash {
        assert i > 0 ==> path[i] == path[1..][i - 1] && other[i] == rest[i - 1];
      }
    }
  }

  lemma Prepend(log: set<Row>, r: Row, path: seq<Row>)
    requires r in log && Hashed(r) && Ancestry(log, path)
    requires r.prevHash.value != GENESIS_HASH && path[0].rowHash == r.prevHash
    ensures Ancestry(log, [r] + path)
  {
    var longer := [r] + path;
    forall i | 0 <= i < |longer| - 1 ensures Linked(longer, i) {
      if i > 0 {
        assert Linked(path, i - 1);
      }
    }
  }

  /**
    A row hash commits to the whole history. If two verified logs each hold a row with the same
    hash, the second log has, ancestor for ancestor, the same covered fields as the first.
  */
  lemma HashFixesHistory(env: Env, logA: set<Row>, path: seq<Row>, logB: set<Row>, b: Row)
    returns (other: seq<Row>)
    requires GoodEnv(env) && Verified(env, logA) && Verified(env, logB) && Ideal(env, logA + logB)
    requires Ancestry(logA, path) && b in logB && b.rowHash == path[0].rowHash
    ensures Ancestry(logB, other) && |other| == |path| && other[0] == b
    ensures forall i :: 0 <= i < |path| ==> SameCovered(env, path[i], other[i])
  {
    VerifiedLinks(env, logA, logB);
    other := MatchAncestry(logA, path, logB, b);
    forall i | 0 <= i < |path|
      ensures SameCovered(env, path[i], other[i])
    {
      EqualHashesAgree(env, logA, path[i], logB, other[i]);
    }
  }

  lemma {:induction false} AncestryHashesAgree(logA: set<Row>, pathA: seq<Row>, logB: set<Row>, pathB: seq<Row>, j: nat, i: nat)
    requires LinksAgree(logA, logB) && Ancestry(logA, pathA) && Ancestry(logB, pathB)
    requires j <= i && i < |pathA| && i < |pathB| && pathA[j].rowHash == pathB[j].rowHash
    ensures pathA[i].rowHash == pathB[i].rowHash
    decreases i
  {
    if j < i {
      AncestryHashesAgree(logA, pathA, logB, pathB, j, i - 1);
      assert Linked(pathA, i - 1) && Linked(pathB, i - 1);
    }
  }

  /**
    An edit the verifier does not report changes the hash of every surviving descendant: if the
    ancestors at depth `i` differ in a covered field, so do the hashes at every depth up to `i`.
  */
  lemma EditChangesDescendants(env: Env, before: set<Row>, pathA: seq<Row>, after: set<Row>, pathB: seq<Row>, i: nat)
    requires GoodEnv(env) && Verified(env, before) && Verified(env, after) && Ideal(env, before + after)
    requires Ancestry(before, pathA) && Ancestry(after, pathB) && i < |pathA| && i < |pathB|
    requires !SameCovered(env, pathA[i], pathB[i])
    ensures forall j :: 0 <= j <= i ==> pathA[j].rowHash != pathB[j].rowHash
  {
    VerifiedLinks(env, before, after);
    if pathA[i].rowHash == pathB[i].rowHash {
      EqualHashesAgree(env, before, pathA[i], after, pathB[i]);
    }
    forall j | 0 <= j <= i
      ensures pathA[j].rowHash != pathB[j].rowHash
    {
      if pathA[j].rowHash == pathB[j].rowHash {
        AncestryHashesAgree(before, pathA, after, pathB, j, i);
      }
    }
  }

  /**
    Why rows must carry both hashes: the verifier skips a row whose prev_hash is null, so such
    a row may stand for any other with the same row_hash.
  */
  lemma NullParentIsSkipped(env: Env, log: set<Row>, r: Row, other: Row)
    requires Sound(env, log) && r in log && other !in log
    requires other.rowHash == r.rowHash && other.prevHash == None
    ensures Sound(env, log - {r} + {other})
  {
    var next := log - {r} + {other};
    forall q | q in next && Hashed(q)
      ensures ParentPresent(next, q) && Faithful(env, q)
    {
      assert q in log;
      if p :| p in log && p.rowHash == q.prevHash {
        assert (if p == r then other else p) in next;
      }
    }
  }

  /** Replacing a row in place moves no other row's parent, as long as the hash is kept. */
  lemma KeptHashKeepsParents(log: set<Row>, r: Row, other: Row, q: Row)
    requires r in log && other.rowHash == r.rowHash && Hashed(q)
    ensures ParentPresent(log - {r} + {other}, q) <==> ParentPresent(log, q)
  {
    var next := log - {r} + {other};
    if p :| p in log && p.rowHash == q.prevHash {
      assert (if p == r then other else p) in next;
    }
    if p :| p in next && p.rowHash == q.prevHash {
      assert (if p == other then r else p) in log;
    }
  }

  /**
    An edit in place that keeps the row's hash goes unreported exactly if it nulls prev_hash, or
    keeps the hashed text and still names a parent in the log.
  */
  lemma KeptHashUnreportedIff(env: Env, log: set<Row>, r: Row, other: Row)
    requires Sound(env, log) && r in log && Hashed(r) && other.rowHash == r.rowHash && Ideal(env, log + {other})
    ensures Sound(env, log - {r} + {other}) <==>
              other.prevHash.None? || (TextOf(env, other) == TextOf(env, r) && ParentPresent(log, other))
  {
    var next := log - {r} + {other};
    forall q | q in next && Hashed(q)
      ensures ParentPresent(next, q) <==> ParentPresent(log, q)
      ensures q != other ==> ParentPresent(next, q) && Faithful(env, q)
    {
      KeptHashKeepsParents(log, r, other, q);
    }
    assert other in next && Faithful(env, r);
    assert r in log + {other} && other in log + {other};
  }

  /**
    For rows whose caller columns hold no separator: such an edit goes unreported exactly if it
    nulls prev_hash, or changes nothing that the hash covers.
  */
  lemma PlainEditUnreportedIff(env: Env, log: set<Row>, r: Row, other: Row)
    requires GoodEnv(env) && Verified(env, log) && r in log && other.rowHash == r.rowHash && Ideal(env, log + {other})
    requires other.prevHash.Some? ==> PlainRow(other) && IsDigest(other.prevHash.value)
    ensures Sound(env, log - {r} + {other}) <==> other.prevHash.None? || SameCovered(env, r, other)
  {
    KeptHashUnreportedIff(env, log, r, other);
    if other.prevHash.Some? {
      PrevIsDigest(env, log, r);
      PlainEncodable(env, r);
      PlainEncodable(env, other);
      if TextOf(env, other) == TextOf(env, r) {
        HashedTextInjective(CoveredBy(env, other, other.prevHash.value), CoveredBy(env, r, r.prevHash.value));
      }
      if SameCovered(env, r, other) {
        SameCoveredColumns(env, r, other);
        assert ParentPresent(log, r);
      }
    }
  }

  /**
    Any edit in place goes unreported exactly if the new row passes the verifier's checks or is
    skipped by them, and either its hash is the old one or the old row had no children.
  */
  lemma EditUnreportedIff(env: Env, log: set<Row>, r: Row, other: Row)
    requires GoodEnv(env) && Verified(env, log) && Ideal(env, log) && UniqueIds(log) && r in log && other !in log
    ensures var next := log - {r} + {other};
            Sound(env, next) <==>
              && (Hashed(other) ==> Faithful(env, other) && ParentPresent(next, other))
              && (other.rowHash == r.rowHash || !exists q :: q in log && q != r && q.prevHash == r.rowHash)
  {
    var next := log - {r} + {other};
    assert Faithful(env, r) && r.rowHash != Some(GENESIS_HASH);
    if other.rowHash == r.rowHash {
      forall q | q in log && q != r ensures ParentPresent(next, q) {
        KeptHashKeepsParents(log, r, other, q);
      }
    } else {
      forall q | q in log && q != r
        ensures ParentPresent(next, q) <==> q.prevHash != r.rowHash
      {
        ChildOfReplaced(env, log, r, other, q);
      }
    }
    assert forall q :: q in next <==> (q in log && q != r) || q == other;
  }

  lemma ChildOfReplaced(env: Env, log: set<Row>, r: Row, other: Row, q: Row)
    requires GoodEnv(env) && Verified(env, log) && Ideal(env, log) && UniqueIds(log)
    requires r in log && q in log && q != r && other.rowHash != r.rowHash && r.rowHash != Some(GENESIS_HASH)
    ensures ParentPresent(log - {r} + {other}, q) <==> q.prevHash != r.rowHash
  {
    var next := log - {r} + {other};
    assert ParentPresent(log, q);
    if q.prevHash == r.rowHash {
      forall p | p in next ensures p.rowHash != r.rowHash {
        if p != other && p.rowHash == r.rowHash {
          HashIsKey(env, log, p, r);
        }
      }
    } else if p :| p in log && p.rowHash == q.prevHash {
      assert p in next;
    }
  }

  // ---- deletions ---------------------------------------------------------------------

  predicate IsParent(p: Row, r: Row)
    requires Hashed(r)
  {
    r.prevHash.value != GENESIS_HASH && p.rowHash == r.prevHash
  }

  lemma HashIsKey(env: Env, log: set<Row>, a: Row, b: Row)
    requires GoodEnv(env) && Verified(env, log) && Ideal(env, log) && UniqueIds(log)
    requires a in log && b in log && a.rowHash == b.rowHash
    ensures a == b
  {
    assert log + log == log;
    EqualHashesAgree(env, log, a, log, b);
    SameCoveredColumns(env, a, b);
  }

  /** A surviving row is reported as orphaned exactly when its parent was deleted. */
  lemma OrphansAreChildrenOfDeleted(env: Env, log: set<Row>, deleted: set<Row>, r: Row)
    requires GoodEnv(env) && Verified(env, log) && Ideal(env, log) && UniqueIds(log)
    requires deleted <= log && r in log - deleted
    ensures RowReport(env, log - deleted, r)
         == if exists p :: p in deleted && IsParent(p, r) then [Violation(r.id, OrphanedParent)] else []
  {
    assert Faithful(env, r) && ParentPresent(log, r);
    if p :| p in deleted && IsParent(p, r) {
      forall q | q in log - deleted
        ensures q.rowHash != r.prevHash
      {
        if q.rowHash == r.prevHash {
          HashIsKey(env, log, p, q);
        }
      }
    }
  }

  /** With every row of `deleted`, all rows descending from it are in `deleted`. */
  ghost predicate ClosedDownward(log: set<Row>, deleted: set<Row>)
    requires forall r :: r in log ==> Hashed(r)
  {
    forall p, r :: p in deleted && r in log && IsParent(p, r) ==> r in deleted
  }

  /** A deletion goes unreported exactly when it takes all descendants of what it takes. */
  lemma UnreportedIffClosed(env: Env, log: set<Row>, deleted: set<Row>)
    requires GoodEnv(env) && Verified(env, log) && Ideal(env, log) && UniqueIds(log)
    requires deleted <= log
    ensures Sound(env, log - deleted) <==> ClosedDownward(log, deleted)
  {
    forall r | r in log - deleted
      ensures (ParentPresent(log - deleted, r) && Faithful(env, r)) <==> forall p :: p in deleted ==> !IsParent(p, r)
    {
      OrphansAreChildrenOfDeleted(env, log, deleted, r);
    }
  }

  /** An unforked log: each row follows the one before it, the first follows genesis. */
  ghost predicate IsChain(log: set<Row>, chain: seq<Row>) {
    && Elements(chain) == log
    && Distinct(chain)
    && (forall i :: 0 <= i < |chain| ==> Hashed(chain[i]))
    && (|chain| > 0 ==> chain[0].prevHash.value == GENESIS_HASH)
    && (forall i :: 0 <= i < |chain| - 1 ==> chain[i + 1].prevHash == chain[i].rowHash)
  }

  /** On an unforked log the unreported deletions are exactly the tail segments. */
  lemma ChainUnreportedIffTail(env: Env, log: set<Row>, chain: seq<Row>, deleted: set<Row>)
    requires GoodEnv(env) && Verified(env, log) && Ideal(env, log) && UniqueIds(log)
    requires IsChain(log, chain) && deleted <= log
    ensures Sound(env, log - deleted) <==> exists m :: 0 <= m <= |chain| && deleted == Elements(chain[m..])
  {
    UnreportedIffClosed(env, log, deleted);
    if ClosedDownward(log, deleted) {
      var m := FirstDeleted(chain, deleted);
      TailDeleted(log, chain, deleted, m, |chain|);
      assert forall r :: r in deleted ==> r in Elements(chain);
      assert deleted == Elements(chain[m..]);
    }
    if m :| 0 <= m <= |chain| && deleted == Elements(chain[m..]) {
      forall p, r | p in deleted && r in log && IsParent(p, r)
        ensures r in deleted
      {
        TailClosed(env, log, chain, m, p, r);
      }
    }
  }

  lemma FirstDeleted(chain: seq<Row>, deleted: set<Row>) returns (m: nat)
    ensures m <= |chain|
    ensures forall i :: 0 <= i < m ==> chain[i] !in deleted
    ensures m < |chain| ==> chain[m] in deleted
  {
    m := 0;
    while m < |chain| && chain[m] !in deleted
      invariant m <= |chain|
      invariant forall i :: 0 <= i < m ==> chain[i] !in deleted
    {
      m := m + 1;
    }
  }

  lemma {:induction false} TailDeleted(log: set<Row>, chain: seq<Row>, deleted: set<Row>, m: nat, n: nat)
    requires IsChain(log, chain) && (forall r :: r in log ==> Hashed(r) && r.rowHash.value != GENESIS_HASH)
    requires ClosedDownward(log, deleted)
    requires m <= n <= |chain| && (m < |chain| ==> chain[m] in deleted)
    ensures forall i :: m <= i < n ==> chain[i] in deleted
    decreases n
  {
    if n > m {
      TailDeleted(log, chain, deleted, m, n - 1);
      if n - 1 > m {
        var p, r := chain[n - 2], chain[n - 1];
        assert p in Elements(chain) && r in Elements(chain);
        assert chain[n - 2 + 1].prevHash == chain[n - 2].rowHash;
        assert IsParent(p, r);
      }
    }
  }

  lemma TailClosed(env: Env, log: set<Row>, chain: seq<Row>, m: nat, p: Row, r: Row)
    requires GoodEnv(env) && Verified(env, log) && Ideal(env, log) && UniqueIds(log) && IsChain(log, chain)
    requires m <= |chain| && p in Elements(chain[m..]) && r in log && IsParent(p, r)
    ensures r in Elements(chain[m..])
  {
    var i :| m <= i < |chain| && chain[i] == p;
    assert r in Elements(chain);
    var j :| 0 <= j < |chain| && chain[j] == r;
    var q := chain[j - 1];
    assert chain[j - 1 + 1].prevHash == chain[j - 1].rowHash;
    assert p in Elements(chain) && q in Elements(chain);
    HashIsKey(env, log, p, q);
    assert j - 1 == i;
    assert chain[j] == chain[m..][j - m];
  }
}
