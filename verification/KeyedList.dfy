/**
  Lists in which an entry replaces whatever is filed under its key, for any notion of
  filing. The notion of the continuity experiment is in DecisionUpsert.
*/
module KeyedList {
  import opened Prelude

  /** An entry to put into the list, and the key it clears first. */
  datatype Keyed<D> = Keyed(key: string, entry: D)

  /** Every entry is filed under its own key. */
  predicate SelfFiled<D>(filed: (D, string) -> bool, items: seq<Keyed<D>>) {
    forall i :: 0 <= i < |items| ==> filed(items[i].entry, items[i].key)
  }

  function Without<D>(filed: (D, string) -> bool, list: seq<D>, key: string): seq<D> {
    if list == [] then []
    else
      var init, last := list[..|list| - 1], list[|list| - 1];
      Without(filed, init, key) + if filed(last, key) then [] else [last]
  }

  /** Item by item: what is filed under the item's key goes, the item's entry comes last. */
  function Upsert<D>(filed: (D, string) -> bool, list: seq<D>, items: seq<Keyed<D>>): seq<D> {
    if items == [] then list
    else
      var init, last := items[..|items| - 1], items[|items| - 1];
      Without(filed, Upsert(filed, list, init), last.key) + [last.entry]
  }

  /** Upserting in two portions is upserting them together. */
  lemma {:induction false} UpsertConcat<D>(filed: (D, string) -> bool, list: seq<D>, a: seq<Keyed<D>>, b: seq<Keyed<D>>)
    ensures Upsert(filed, list, a + b) == Upsert(filed, Upsert(filed, list, a), b)
  {
    if b == [] {
      assert a + b == a;
    } else {
      assert (a + b)[..|a + b| - 1] == a + b[..|b| - 1];
      UpsertConcat(filed, list, a, b[..|b| - 1]);
    }
  }

  /** Without what is filed under any of the items' keys. */
  function Survivors<D>(filed: (D, string) -> bool, list: seq<D>, items: seq<Keyed<D>>): seq<D> {
    if items == [] then list else Without(filed, Survivors(filed, list, items[..|items| - 1]), items[|items| - 1].key)
  }

  lemma {:induction false} WithoutConcat<D>(filed: (D, string) -> bool, a: seq<D>, b: seq<D>, key: string)
    ensures Without(filed, a + b, key) == Without(filed, a, key) + Without(filed, b, key)
  {
    if b == [] {
      assert a + b == a;
    } else {
      var init, last := b[..|b| - 1], b[|b| - 1];
      assert (a + b)[..|a + b| - 1] == a + init;
      WithoutConcat(filed, a, init, key);
      Assoc(Without(filed, a, key), Without(filed, init, key), if filed(last, key) then [] else [last]);
    }
  }

  lemma Assoc<D>(a: seq<D>, b: seq<D>, c: seq<D>)
    ensures (a + b) + c == a + (b + c) && a + [] == a
  {
  }

  /** An upsert keeps the survivors, then lists what upserting into nothing would. */
  lemma {:induction false} UpsertSplits<D>(filed: (D, string) -> bool, list: seq<D>, items: seq<Keyed<D>>)
    ensures Upsert(filed, list, items) == Survivors(filed, list, items) + Upsert(filed, [], items)
  {
    if items == [] {
      assert list + [] == list;
    } else {
      var init, last := items[..|items| - 1], items[|items| - 1];
      UpsertSplits(filed, list, init);
      WithoutConcat(filed, Survivors(filed, list, init), Upsert(filed, [], init), last.key);
      Assoc(Without(filed, Survivors(filed, list, init), last.key),
            Without(filed, Upsert(filed, [], init), last.key), [last.entry]);
    }
  }

  lemma {:induction false} SurvivorsConcat<D>(filed: (D, string) -> bool, a: seq<D>, b: seq<D>, items: seq<Keyed<D>>)
    ensures Survivors(filed, a + b, items) == Survivors(filed, a, items) + Survivors(filed, b, items)
  {
    if items != [] {
      var init, key := items[..|items| - 1], items[|items| - 1].key;
      SurvivorsConcat(filed, a, b, init);
      WithoutConcat(filed, Survivors(filed, a, init), Survivors(filed, b, init), key);
    }
  }

  lemma {:induction false} WithoutAre<D>(filed: (D, string) -> bool, list: seq<D>, key: string)
    ensures forall d :: d in Without(filed, list, key) ==> d in list && !filed(d, key)
  {
    if list != [] {
      WithoutAre(filed, list[..|list| - 1], key);
    }
  }

  /** A survivor is an old entry filed under none of the keys. */
  lemma {:induction false} SurvivorsAre<D>(filed: (D, string) -> bool, list: seq<D>, items: seq<Keyed<D>>)
    ensures forall d :: d in Survivors(filed, list, items) ==> d in list
    ensures forall d, i :: d in Survivors(filed, list, items) && 0 <= i < |items| ==> !filed(d, items[i].key)
  {
    if items != [] {
      var init := items[..|items| - 1];
      SurvivorsAre(filed, list, init);
      WithoutAre(filed, Survivors(filed, list, init), items[|items| - 1].key);
      forall d, i | d in Survivors(filed, list, items) && 0 <= i < |items| ensures !filed(d, items[i].key) {
        assert d in Survivors(filed, list, init);
        if i < |init| {
          assert init[i] == items[i];
        }
      }
    }
  }

  lemma {:induction false} NothingToDrop<D>(filed: (D, string) -> bool, list: seq<D>, key: string)
    requires forall d :: d in list ==> !filed(d, key)
    ensures Without(filed, list, key) == list
  {
    if list != [] {
      var init, last := list[..|list| - 1], list[|list| - 1];
      assert last in list && init + [last] == list;
      NothingToDrop(filed, init, key);
    }
  }

  lemma {:induction false} AllSurvive<D>(filed: (D, string) -> bool, list: seq<D>, items: seq<Keyed<D>>)
    requires forall d, i :: d in list && 0 <= i < |items| ==> !filed(d, items[i].key)
    ensures Survivors(filed, list, items) == list
  {
    if items != [] {
      var init := items[..|items| - 1];
      assert forall i :: 0 <= i < |init| ==> init[i] == items[i];
      AllSurvive(filed, list, init);
      NothingToDrop(filed, list, items[|items| - 1].key);
    }
  }

  /** What upserting lists are entries of the items. */
  lemma {:induction false} ListsEntries<D>(filed: (D, string) -> bool, items: seq<Keyed<D>>)
    ensures forall d :: d in Upsert(filed, [], items) ==> exists i :: 0 <= i < |items| && d == items[i].entry
  {
    if items != [] {
      var init := items[..|items| - 1];
      ListsEntries(filed, init);
      WithoutAre(filed, Upsert(filed, [], init), items[|items| - 1].key);
      forall d | d in Upsert(filed, [], items) ensures exists i :: 0 <= i < |items| && d == items[i].entry {
        if d in Upsert(filed, [], init) {
          var i :| 0 <= i < |init| && d == init[i].entry;
          assert d == items[i].entry;
        } else {
          assert d == items[|items| - 1].entry;
        }
      }
    }
  }

  lemma WithoutOne<D>(filed: (D, string) -> bool, entry: D, key: string)
    ensures Without(filed, [entry], key) == if filed(entry, key) then [] else [entry]
  {
    assert [entry][..0] == [];
  }

  lemma {:induction false} OneCleared<D>(filed: (D, string) -> bool, d: D, items: seq<Keyed<D>>, i: nat)
    requires i < |items| && filed(d, items[i].key)
    ensures Survivors(filed, [d], items) == []
  {
    var init := items[..|items| - 1];
    if i < |init| {
      OneCleared(filed, d, init, i);
    } else {
      SurvivesOnce(filed, d, init);
      WithoutOne(filed, d, items[i].key);
    }
  }

  lemma {:induction false} SurvivesOnce<D>(filed: (D, string) -> bool, d: D, items: seq<Keyed<D>>)
    ensures Survivors(filed, [d], items) == [] || Survivors(filed, [d], items) == [d]
  {
    if items != [] {
      SurvivesOnce(filed, d, items[..|items| - 1]);
      WithoutOne(filed, d, items[|items| - 1].key);
    }
  }

  /** If everything in a list is filed under some key of the items, nothing survives. */
  lemma {:induction false} AllCleared<D>(filed: (D, string) -> bool, list: seq<D>, items: seq<Keyed<D>>)
    requires forall d :: d in list ==> exists i :: 0 <= i < |items| && filed(d, items[i].key)
    ensures Survivors(filed, list, items) == []
  {
    if list == [] {
      AllSurvive(filed, list, items);
    } else {
      var init, last := list[..|list| - 1], list[|list| - 1];
      assert list == init + [last] && last in list;
      assert forall d :: d in init ==> d in list;
      AllCleared(filed, init, items);
      var i :| 0 <= i < |items| && filed(last, items[i].key);
      OneCleared(filed, last, items, i);
      SurvivorsConcat(filed, init, [last], items);
    }
  }

  /** Every entry is filed under its own key, so none survives the same items again. */
  lemma NoneSurvivesItself<D>(filed: (D, string) -> bool, items: seq<Keyed<D>>)
    requires SelfFiled(filed, items)
    ensures Survivors(filed, Upsert(filed, [], items), items) == []
  {
    ListsEntries(filed, items);
    AllCleared(filed, Upsert(filed, [], items), items);
  }

  /** Upserting the same items again leaves the list as it is. */
  lemma UpsertIdempotent<D>(filed: (D, string) -> bool, list: seq<D>, items: seq<Keyed<D>>)
    requires SelfFiled(filed, items)
    ensures Upsert(filed, Upsert(filed, list, items), items) == Upsert(filed, list, items)
  {
    var once := Upsert(filed, list, items);
    var kept := Survivors(filed, list, items);
    var added := Upsert(filed, [], items);
    UpsertSplits(filed, list, items);
    UpsertSplits(filed, once, items);
    SurvivorsConcat(filed, kept, added, items);
    SurvivorsAre(filed, list, items);
    AllSurvive(filed, kept, items);
    NoneSurvivesItself(filed, items);
    assert kept + [] == kept;
  }

  /** Entry `i` is not filed under a key that comes after it, up to item `n`. */
  predicate Stands<D>(filed: (D, string) -> bool, items: seq<Keyed<D>>, i: nat, n: nat)
    requires i < n <= |items|
  {
    forall j :: i < j < n ==> !filed(items[i].entry, items[j].key)
  }

  /** Of the first `m` entries, in order, those that stand among the first `n` items. */
  function Standing<D>(filed: (D, string) -> bool, items: seq<Keyed<D>>, m: nat, n: nat): seq<D>
    requires m <= n <= |items|
  {
    if m == 0 then []
    else Standing(filed, items, m - 1, n) + if Stands(filed, items, m - 1, n) then [items[m - 1].entry] else []
  }

  lemma StandsStep<D>(filed: (D, string) -> bool, items: seq<Keyed<D>>, i: nat, n: nat)
    requires i < n < |items|
    ensures Stands(filed, items, i, n + 1) <==> Stands(filed, items, i, n) && !filed(items[i].entry, items[n].key)
  {
  }

  lemma StandingStep<D>(filed: (D, string) -> bool, items: seq<Keyed<D>>, m: nat, n: nat)
    requires 0 < m <= n <= |items|
    ensures var before := Standing(filed, items, m - 1, n);
            Standing(filed, items, m, n) == if Stands(filed, items, m - 1, n) then before + [items[m - 1].entry] else before
  {
    assert Standing(filed, items, m - 1, n) + [] == Standing(filed, items, m - 1, n);
  }

  lemma WithoutAppend<D>(filed: (D, string) -> bool, list: seq<D>, entry: D, key: string)
    ensures Without(filed, list + [entry], key)
         == if filed(entry, key) then Without(filed, list, key) else Without(filed, list, key) + [entry]
  {
    WithoutConcat(filed, list, [entry], key);
    WithoutOne(filed, entry, key);
    assert Without(filed, list, key) + [] == Without(filed, list, key);
  }

  lemma {:induction false} StandingDrops<D>(filed: (D, string) -> bool, items: seq<Keyed<D>>, m: nat, n: nat)
    requires m <= n < |items|
    ensures Without(filed, Standing(filed, items, m, n), items[n].key) == Standing(filed, items, m, n + 1)
    decreases m
  {
    if m > 0 {
      StandingDrops(filed, items, m - 1, n);
      StandsStep(filed, items, m - 1, n);
      StandingStep(filed, items, m, n);
      StandingStep(filed, items, m, n + 1);
      WithoutAppend(filed, Standing(filed, items, m - 1, n), items[m - 1].entry, items[n].key);
    }
  }

  lemma {:induction false} UpsertStanding<D>(filed: (D, string) -> bool, items: seq<Keyed<D>>, n: nat)
    requires n <= |items|
    ensures Upsert(filed, [], items[..n]) == Standing(filed, items, n, n)
  {
    if n > 0 {
      assert items[..n][..n - 1] == items[..n - 1];
      UpsertStanding(filed, items, n - 1);
      StandingDrops(filed, items, n - 1, n - 1);
      assert Stands(filed, items, n - 1, n);
    }
  }

  /** The entry of the last item of its key. */
  predicate LastOfKey<D>(items: seq<Keyed<D>>, i: nat)
    requires i < |items|
  {
    forall j :: i < j < |items| ==> items[j].key != items[i].key
  }

  function LastEntries<D>(items: seq<Keyed<D>>, m: nat): seq<D>
    requires m <= |items|
  {
    if m == 0 then []
    else LastEntries(items, m - 1) + if LastOfKey(items, m - 1) then [items[m - 1].entry] else []
  }

  /** An entry is filed under its own key and under no other item's. */
  predicate OneKeyEach<D>(filed: (D, string) -> bool, items: seq<Keyed<D>>) {
    forall i, j :: 0 <= i < |items| && 0 <= j < |items| ==> (filed(items[i].entry, items[j].key) <==> items[i].key == items[j].key)
  }

  lemma {:induction false} StandingIsLast<D>(filed: (D, string) -> bool, items: seq<Keyed<D>>, m: nat)
    requires m <= |items| && OneKeyEach(filed, items)
    ensures Standing(filed, items, m, |items|) == LastEntries(items, m)
  {
    if m > 0 {
      StandingIsLast(filed, items, m - 1);
      assert Stands(filed, items, m - 1, |items|) <==> LastOfKey(items, m - 1);
    }
  }

  /** For unambiguous keys: the old list without the touched keys, then the last entry of each key. */
  lemma UpsertClosedForm<D>(filed: (D, string) -> bool, list: seq<D>, items: seq<Keyed<D>>)
    requires OneKeyEach(filed, items)
    ensures Upsert(filed, list, items) == Survivors(filed, list, items) + LastEntries(items, |items|)
  {
    UpsertSplits(filed, list, items);
    assert items[..|items|] == items;
    UpsertStanding(filed, items, |items|);
    StandingIsLast(filed, items, |items|);
  }

  /** Two keys: the list keeps the last entry of each, unless the first is filed under the second key too. */
  lemma TwoKeys<D>(filed: (D, string) -> bool, first: string, entry: D, second: string, other: D)
    requires first != second
    ensures var items := [Keyed(first, entry), Keyed(second, other)];
            && Upsert(filed, [], items) == (if filed(entry, second) then [other] else [entry, other])
            && LastEntries(items, 2) == [entry, other]
  {
    var items := [Keyed(first, entry), Keyed(second, other)];
    assert items[..1] == [items[0]] && items[..1][..0] == [];
    assert Upsert(filed, [], items[..1]) == [entry];
    WithoutOne(filed, entry, second);
    assert LastOfKey(items, 0) && LastOfKey(items, 1);
    assert LastEntries(items, 1) == [entry];
  }
}
