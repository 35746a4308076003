/** Types and sequence facts shared by the other modules. */
module Prelude {

  datatype Option<+T> = None | Some(value: T)

  /** No value occurs twice in `s`. */
  predicate Distinct<T(==)>(s: seq<T>) {
    forall i, j :: 0 <= i < j < |s| ==> s[i] != s[j]
  }

  /** The elements of `s`, as a set. */
  function Elements<T>(s: seq<T>): set<T> {
    set x | x in s
  }

  /** A sequence without repetition has as many elements as positions. */
  lemma {:induction false} DistinctSize<T>(s: seq<T>)
    requires Distinct(s)
    ensures |Elements(s)| == |s|
  {
    if s == [] {
    } else {
      DistinctSize(s[1..]);
      assert Elements(s) == {s[0]} + Elements(s[1..]);
    }
  }

  /** A subset is no larger than its superset, and equal to it when it is as large. */
  lemma SubsetSize<T>(a: set<T>, b: set<T>)
    requires a <= b
    ensures |a| <= |b|
    ensures |a| == |b| ==> a == b
  {
    assert b == a + (b - a);
    assert |b| == |a| + |b - a|;
  }

  /** First occurrences, in order. */
  function Dedup<T(==)>(list: seq<T>): seq<T> {
    if list == [] then []
    else
      var init := Dedup(list[..|list| - 1]);
      if list[|list| - 1] in init then init else init + [list[|list| - 1]]
  }

  lemma DedupAppend<T>(list: seq<T>, x: T)
    ensures Dedup(list + [x]) == if x in Dedup(list) then Dedup(list) else Dedup(list) + [x]
  {
    assert (list + [x])[..|list|] == list;
  }

  lemma {:induction false} DedupMeaning<T>(list: seq<T>)
    ensures Distinct(Dedup(list)) && Elements(Dedup(list)) == Elements(list)
    ensures |Dedup(list)| == |Elements(list)|
  {
    if list != [] {
      var init, last := list[..|list| - 1], list[|list| - 1];
      DedupMeaning(init);
      assert list == init + [last];
      assert Elements(list) == Elements(init) + {last};
      assert last in Dedup(init) <==> last in Elements(Dedup(init));
      assert Elements(Dedup(init) + [last]) == Elements(Dedup(init)) + {last};
    }
    DistinctSize(Dedup(list));
  }

  /** `x` occurs in `list` before `y` ever does. */
  ghost predicate Sooner<T>(list: seq<T>, x: T, y: T) {
    exists i :: 0 <= i < |list| && list[i] == x && y !in list[..i + 1]
  }

  lemma SoonerInPrefix<T>(list: seq<T>, last: T, x: T, y: T)
    requires Sooner(list, x, y) || (x in list && y !in list)
    ensures Sooner(list + [last], x, y)
  {
    var i :| 0 <= i < |list| && list[i] == x && (y !in list[..i + 1] || y !in list);
    assert (list + [last])[..i + 1] == list[..i + 1] && (list + [last])[i] == x;
  }

  lemma {:induction false} DedupOrder<T>(list: seq<T>)
    ensures forall i, j :: 0 <= i < j < |Dedup(list)| ==> Sooner(list, Dedup(list)[i], Dedup(list)[j])
  {
    if list != [] {
      var init, last := list[..|list| - 1], list[|list| - 1];
      DedupOrder(init);
      assert list == init + [last];
      forall i, j | 0 <= i < j < |Dedup(list)| ensures Sooner(list, Dedup(list)[i], Dedup(list)[j]) {
        InDedup(init, Dedup(list)[i]);
        InDedup(init, Dedup(list)[j]);
        SoonerInPrefix(init, last, Dedup(list)[i], Dedup(list)[j]);
      }
    }
  }

  lemma InDedup<T>(list: seq<T>, x: T)
    ensures x in Dedup(list) <==> x in list
  {
    DedupMeaning(list);
    assert x in Dedup(list) <==> x in Elements(Dedup(list));
    assert x in list <==> x in Elements(list);
  }

  lemma {:induction false} DedupGrows<T>(a: seq<T>, b: seq<T>)
    ensures Dedup(a) <= Dedup(a + b)
  {
    if b == [] {
      assert a + b == a;
    } else {
      DedupGrows(a, b[..|b| - 1]);
      assert (a + b)[..|a + b| - 1] == a + b[..|b| - 1];
    }
  }

  lemma {:induction false} DedupDistinct<T>(s: seq<T>)
    requires Distinct(s)
    ensures Dedup(s) == s
  {
    if s != [] {
      DedupDistinct(s[..|s| - 1]);
    }
  }

  /** No finite set holds all numbers. */
  lemma {:induction false} Above(s: set<nat>) returns (n: nat)
    ensures forall x :: x in s ==> x < n
  {
    if s == {} {
      n := 0;
    } else {
      var x :| x in s;
      var m := Above(s - {x});
      n := if x < m then m else x + 1;
      forall y | y in s ensures y < n {
        assert y == x || y in s - {x};
      }
    }
  }
}
