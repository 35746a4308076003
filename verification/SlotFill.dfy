/**
  Selectors that fill `k` result slots from a stream of offers, taking each document once.
  Source: agentmem/benchmarks/locomo_replay.py, `neighbor_expand` and `_seed_append_neighbors`;
  agentmem/benchmarks/longmemeval_replay.py, `session_pull`.
*/
module SlotFill {
  import opened Prelude

  // ---- taking the first k distinct offers --------------------------------------------

  function Take(k: nat, s: seq<nat>): seq<nat> {
    if |s| <= k then s else s[..k]
  }

  /** The slots after these offers. */
  function Slots(k: nat, offers: seq<nat>): seq<nat> {
    Take(k, Dedup(offers))
  }

  /** One more offer fills the next slot if it is new and a slot is left. */
  lemma Offer(k: nat, offers: seq<nat>, x: nat)
    ensures Slots(k, offers + [x])
         == if x !in Slots(k, offers) && |Slots(k, offers)| < k then Slots(k, offers) + [x] else Slots(k, offers)
  {
    DedupAppend(offers, x);
  }

  /** Full slots stay as they are. */
  lemma Full(k: nat, offers: seq<nat>, more: seq<nat>)
    requires |Slots(k, offers)| == k
    ensures Slots(k, offers + more) == Slots(k, offers)
  {
    DedupGrows(offers, more);
  }

  /**
    The slots hold the first distinct offers, in the order in which each was first offered: no
    repetition, none that was not offered, as many as there are slots or distinct offers, whichever
    is fewer, and each offered sooner than all that are left out.
  */
  lemma SlotsMeaning(k: nat, offers: seq<nat>)
    ensures Distinct(Slots(k, offers))
    ensures forall x :: x in Slots(k, offers) ==> x in offers
    ensures |Slots(k, offers)| == if k < |Elements(offers)| then k else |Elements(offers)|
    ensures var slots := Slots(k, offers);
            && (forall i, j :: 0 <= i < j < |slots| ==> Sooner(offers, slots[i], slots[j]))
            && (forall x, y :: x in slots && y in offers && y !in slots ==> Sooner(offers, x, y))
  {
    DedupMeaning(offers);
    DedupOrder(offers);
    forall x, y | x in Slots(k, offers) && y in offers && y !in Slots(k, offers) ensures Sooner(offers, x, y) {
      InDedup(offers, y);
      var i :| 0 <= i < |Slots(k, offers)| && Slots(k, offers)[i] == x;
      var j :| 0 <= j < |Dedup(offers)| && Dedup(offers)[j] == y;
      assert i < k <= j;
    }
    forall x | x in Slots(k, offers)
      ensures x in offers
    {
      assert x in Elements(Dedup(offers));
    }
  }

  /** Every document of the list belongs to a corpus of `n`. */
  predicate Below(s: seq<nat>, n: nat) {
    forall i :: 0 <= i < |s| ==> s[i] < n
  }

  /** A ranking of the documents below `n`. */
  predicate Ranking(order: seq<nat>, n: nat) {
    Distinct(order) && |order| == n && Below(order, n)
  }

  /** Offers that stay inside the corpus and include the whole ranking fill min(k, n) slots. */
  lemma FillsAllSlots(k: nat, n: nat, order: seq<nat>, offers: seq<nat>)
    requires Ranking(order, n)
    requires Elements(order) <= Elements(offers) && Below(offers, n)
    ensures |Slots(k, offers)| == if k < n then k else n
  {
    SlotsMeaning(k, offers);
    DistinctSize(order);
    assert Elements(order) <= UpTo(n) && Elements(offers) <= UpTo(n);
    SubsetSize(Elements(order), UpTo(n));
    assert Elements(offers) == UpTo(n);
  }

  function UpTo(n: nat): (all: set<nat>)
    ensures |all| == n && forall x: nat :: x in all <==> x < n
  {
    if n == 0 then {} else UpTo(n - 1) + {n - 1}
  }

  // ---- neighbours in the same session ------------------------------------------------

  /** Session and turn of the documents that have one, and back. */
  datatype Corpus = Corpus(coord: map<nat, (int, int)>, byCoord: map<(int, int), nat>)

  function At(c: Corpus, session: int, turn: int): seq<nat> {
    if (session, turn) in c.byCoord then [c.byCoord[(session, turn)]] else []
  }

  /** The turns at distance 1 to `window`, the later one first at each distance. */
  function Neighbours(c: Corpus, idx: nat, window: nat): seq<nat> {
    if idx !in c.coord || window == 0 then []
    else
      Neighbours(c, idx, window - 1)
      + At(c, c.coord[idx].0, c.coord[idx].1 + window)
      + At(c, c.coord[idx].0, c.coord[idx].1 - window)
  }

  /** Each ranked document followed by its neighbours. */
  function Interleaved(c: Corpus, order: seq<nat>, window: nat): seq<nat> {
    if order == [] then []
    else
      var last := order[|order| - 1];
      Interleaved(c, order[..|order| - 1], window) + ([last] + Neighbours(c, last, window))
  }

  /** `selected` is what `cap` slots hold, and the code's own limit `k` stops it in the same place. */
  ghost predicate Holds(k: nat, cap: nat, selected: seq<nat>, seen: set<nat>, offers: seq<nat>) {
    && selected == Slots(cap, offers)
    && seen == Elements(selected)
    && k <= cap && (k < cap ==> |selected| == cap)
  }

  /** `if x not in seen and len(selected) < k` is one offer. */
  method OfferOne(k: nat, ghost cap: nat, x: nat, selected: seq<nat>, seen: set<nat>, ghost offers: seq<nat>)
    returns (newSelected: seq<nat>, newSeen: set<nat>)
    requires Holds(k, cap, selected, seen, offers)
    ensures Holds(k, cap, newSelected, newSeen, offers + [x])
  {
    Offer(cap, offers, x);
    newSelected, newSeen := selected, seen;
    if x !in seen && |selected| < k {
      newSelected, newSeen := selected + [x], seen + {x};
    }
  }

  method OfferAll(k: nat, ghost cap: nat, list: seq<nat>, given: seq<nat>, givenSeen: set<nat>, ghost offers: seq<nat>)
    returns (selected: seq<nat>, seen: set<nat>)
    requires Holds(k, cap, given, givenSeen, offers)
    ensures Holds(k, cap, selected, seen, offers + list)
  {
    selected, seen := given, givenSeen;
    ghost var offered := offers;
    assert offers + list[..0] == offers;
    for j := 0 to |list|
      invariant offered == offers + list[..j]
      invariant Holds(k, cap, selected, seen, offered)
    {
      selected, seen := OfferOne(k, cap, list[j], selected, seen, offered);
      offered := offered + [list[j]];
      Assoc(offers, list[..j], [list[j]]);
      assert list[..j] + [list[j]] == list[..j + 1];
    }
    assert list[..|list|] == list;
  }

  /** Offer the document at a coordinate, if there is one. */
  method OfferAt(c: Corpus, k: nat, ghost cap: nat, session: int, turn: int,
                 selected: seq<nat>, seen: set<nat>, ghost offers: seq<nat>)
    returns (newSelected: seq<nat>, newSeen: set<nat>)
    requires Holds(k, cap, selected, seen, offers)
    ensures Holds(k, cap, newSelected, newSeen, offers + At(c, session, turn))
  {
    if (session, turn) in c.byCoord {
      newSelected, newSeen := OfferOne(k, cap, c.byCoord[(session, turn)], selected, seen, offers);
    } else {
      newSelected, newSeen := selected, seen;
      assert offers + [] == offers;
    }
  }

  /** Offer the turn `d` later and the turn `d` earlier. */
  method OfferBothSides(c: Corpus, k: nat, ghost cap: nat, session: int, turn: int, d: nat,
                        selected: seq<nat>, seen: set<nat>, ghost offers: seq<nat>)
    returns (newSelected: seq<nat>, newSeen: set<nat>)
    requires Holds(k, cap, selected, seen, offers)
    ensures Holds(k, cap, newSelected, newSeen, offers + At(c, session, turn + d) + At(c, session, turn - d))
  {
    newSelected, newSeen := OfferAt(c, k, cap, session, turn + d, selected, seen, offers);
    newSelected, newSeen := OfferAt(c, k, cap, session, turn - d, newSelected, newSeen, offers + At(c, session, turn + d));
  }

  lemma Assoc(a: seq<nat>, b: seq<nat>, c: seq<nat>)
    ensures a + b + c == a + (b + c)
  {
  }

  lemma NeighboursStep(c: Corpus, idx: nat, d: nat, offers: seq<nat>)
    requires idx in c.coord && d > 0
    ensures var (session, turn) := c.coord[idx];
            offers + Neighbours(c, idx, d)
            == offers + Neighbours(c, idx, d - 1) + At(c, session, turn + d) + At(c, session, turn - d)
  {
    var (session, turn) := c.coord[idx];
    Assoc(offers, Neighbours(c, idx, d - 1), At(c, session, turn + d));
    Assoc(offers, Neighbours(c, idx, d - 1) + At(c, session, turn + d), At(c, session, turn - d));
  }

  /** Offer all neighbours of one document. */
  method OfferNeighbours(c: Corpus, k: nat, ghost cap: nat, idx: nat, window: nat,
                         selected: seq<nat>, seen: set<nat>, ghost offers: seq<nat>)
    returns (newSelected: seq<nat>, newSeen: set<nat>)
    requires Holds(k, cap, selected, seen, offers)
    ensures Holds(k, cap, newSelected, newSeen, offers + Neighbours(c, idx, window))
  {
    newSelected, newSeen := selected, seen;
    ghost var offered := offers;
    assert offers + [] == offers;
    if idx !in c.coord {
      return;
    }
    var session, turn := c.coord[idx].0, c.coord[idx].1;
    for d := 1 to window + 1
      invariant offered == offers + Neighbours(c, idx, d - 1)
      invariant Holds(k, cap, newSelected, newSeen, offered)
    {
      newSelected, newSeen := OfferBothSides(c, k, cap, session, turn, d, newSelected, newSeen, offered);
      offered := offered + At(c, session, turn + d) + At(c, session, turn - d);
      NeighboursStep(c, idx, d, offers);
    }
  }

  lemma InterleavedStep(c: Corpus, order: seq<nat>, i: nat, window: nat)
    requires i < |order|
    ensures Interleaved(c, order[..i + 1], window)
         == Interleaved(c, order[..i], window) + [order[i]] + Neighbours(c, order[i], window)
  {
    assert order[..i + 1][..i] == order[..i];
    Assoc(Interleaved(c, order[..i], window), [order[i]], Neighbours(c, order[i], window));
  }

  method NeighborExpand(c: Corpus, order: seq<nat>, k: nat, window: nat) returns (selected: seq<nat>)
    ensures selected == Slots(k, Interleaved(c, order, window))
  {
    selected := [];
    var seen: set<nat> := {};
    ghost var offered: seq<nat> := [];
    for i := 0 to |order|
      invariant offered == Interleaved(c, order[..i], window)
      invariant Holds(k, k, selected, seen, offered)
    {
      if |selected| >= k {
        StreamSplits(c, order, i, window);
        Full(k, offered, Interleaved(c, order[i..], window));
        return;
      }
      InterleavedStep(c, order, i, window);
      selected, seen := OfferOne(k, k, order[i], selected, seen, offered);
      offered := offered + [order[i]];
      selected, seen := OfferNeighbours(c, k, k, order[i], window, selected, seen, offered);
      offered := offered + Neighbours(c, order[i], window);
    }
    assert order[..|order|] == order;
  }

  lemma {:induction false} StreamSplits(c: Corpus, order: seq<nat>, i: nat, window: nat)
    requires i <= |order|
    ensures Interleaved(c, order, window) == Interleaved(c, order[..i], window) + Interleaved(c, order[i..], window)
    decreases |order|
  {
    if i == |order| {
      assert order[..i] == order && order[i..] == [];
    } else {
      var n := |order| - 1;
      StreamSplits(c, order[..n], i, window);
      assert order[..n][..i] == order[..i] && order[..n][i..] == order[i..][..n - i];
      assert order[i..][|order[i..]| - 1] == order[n];
      Assoc(Interleaved(c, order[..i], window), Interleaved(c, order[..n][i..], window),
            [order[n]] + Neighbours(c, order[n], window));
    }
  }

  // ---- seeds first, then their neighbours --------------------------------------------

  function AllNeighbours(c: Corpus, seeds: seq<nat>): seq<nat> {
    if seeds == [] then []
    else AllNeighbours(c, seeds[..|seeds| - 1]) + Neighbours(c, seeds[|seeds| - 1], 1)
  }

  function SeedOffers(c: Corpus, order: seq<nat>, seeds: nat): seq<nat>
    requires seeds <= |order|
  {
    order[..seeds] + AllNeighbours(c, order[..seeds]) + order[seeds..]
  }

  function Larger(a: nat, b: nat): nat {
    if a < b then b else a
  }

  /** Fill what is left in rank order, from position `from`. */
  method FillByRank(order: seq<nat>, from: nat, k: nat, ghost cap: nat, given: seq<nat>, givenSeen: set<nat>, ghost offers: seq<nat>)
    returns (selected: seq<nat>)
    requires from <= |order| && Holds(k, cap, given, givenSeen, offers)
    ensures selected == Slots(cap, offers + order[from..])
  {
    selected := given;
    var seen := givenSeen;
    ghost var offered := offers;
    assert offers + order[from..from] == offers;
    for i := from to |order|
      invariant offered == offers + order[from..i]
      invariant Holds(k, cap, selected, seen, offered)
    {
      if |selected| >= k {
        Full(cap, offered, order[i..]);
        Assoc(offers, order[from..i], order[i..]);
        assert order[from..i] + order[i..] == order[from..];
        return;
      }
      selected, seen := OfferOne(k, cap, order[i], selected, seen, offered);
      offered := offered + [order[i]];
      Assoc(offers, order[from..i], [order[i]]);
      assert order[from..i] + [order[i]] == order[from..i + 1];
    }
    assert order[from..|order|] == order[from..];
  }

  /** The seeds keep their slots, even when there are more of them than `k`. */
  lemma SeedsKept(order: seq<nat>, seeds: nat, k: nat, more: seq<nat>)
    requires Distinct(order) && seeds <= |order|
    ensures order[..seeds] <= Slots(Larger(k, seeds), order[..seeds] + more)
    ensures Slots(Larger(k, seeds), order[..seeds]) == order[..seeds]
  {
    DedupDistinct(order[..seeds]);
    DedupGrows(order[..seeds], more);
  }

  method SeedAppendNeighbors(c: Corpus, order: seq<nat>, k: nat, seeds: nat) returns (selected: seq<nat>)
    requires Distinct(order)
    ensures var m := if seeds < |order| then seeds else |order|;
            selected == Slots(Larger(k, m), SeedOffers(c, order, m)) && order[..m] <= selected
  {
    var m := if seeds < |order| then seeds else |order|;
    ghost var cap := Larger(k, m);
    var first := order[..m];
    selected := first;
    var seen := set x | x in selected;
    ghost var offered := first;
    SeedsKept(order, m, k, AllNeighbours(c, first) + order[m..]);
    Assoc(first, AllNeighbours(c, first), order[m..]);
    assert first + AllNeighbours(c, first[..0]) == first;
    for i := 0 to |first|
      invariant offered == first + AllNeighbours(c, first[..i])
      invariant Holds(k, cap, selected, seen, offered)
    {
      selected, seen := OfferNeighbours(c, k, cap, first[i], 1, selected, seen, offered);
      offered := offered + Neighbours(c, first[i], 1);
      assert first[..i + 1][..i] == first[..i];
      Assoc(first, AllNeighbours(c, first[..i]), Neighbours(c, first[i], 1));
    }
    assert first[..|first|] == first;
    selected := FillByRank(order, m, k, cap, selected, seen, offered);
  }

  /** min(k, n) results exactly when the seeds do not outnumber the slots; with too many seeds, one for each. */
  lemma SeedAppendSize(c: Corpus, order: seq<nat>, k: nat, seeds: nat, n: nat)
    requires Ranking(order, n) && forall p :: p in c.byCoord ==> c.byCoord[p] < n
    ensures var m := if seeds < n then seeds else n;
            var size := |Slots(Larger(k, m), SeedOffers(c, order, m))|;
            && size == Larger(m, if k < n then k else n)
            && (size == (if k < n then k else n) <==> seeds <= k || n <= k)
  {
    var m := if seeds < n then seeds else n;
    var offers := SeedOffers(c, order, m);
    AllNeighboursInside(c, order[..m], n);
    forall x | x in Elements(order)
      ensures x in Elements(offers)
    {
      var i :| 0 <= i < |order| && order[i] == x;
      assert x in order[..m] || x in order[m..] by {
        assert order == order[..m] + order[m..];
      }
    }
    FillsAllSlots(Larger(k, m), n, order, offers);
  }

  lemma {:induction false} NeighboursInside(c: Corpus, idx: nat, window: nat, n: nat)
    requires forall p :: p in c.byCoord ==> c.byCoord[p] < n
    ensures Below(Neighbours(c, idx, window), n)
    decreases window
  {
    if idx in c.coord && window > 0 {
      NeighboursInside(c, idx, window - 1, n);
    }
  }

  lemma {:induction false} AllNeighboursInside(c: Corpus, seeds: seq<nat>, n: nat)
    requires forall p :: p in c.byCoord ==> c.byCoord[p] < n
    ensures Below(AllNeighbours(c, seeds), n)
  {
    if seeds != [] {
      AllNeighboursInside(c, seeds[..|seeds| - 1], n);
      NeighboursInside(c, seeds[|seeds| - 1], 1, n);
    }
  }

  lemma {:induction false} InterleavedCovers(c: Corpus, order: seq<nat>, window: nat, n: nat)
    requires Below(order, n) && forall p :: p in c.byCoord ==> c.byCoord[p] < n
    ensures Elements(order) <= Elements(Interleaved(c, order, window))
    ensures Below(Interleaved(c, order, window), n)
  {
    if order != [] {
      var init, last := order[..|order| - 1], order[|order| - 1];
      InterleavedCovers(c, init, window, n);
      NeighboursInside(c, last, window, n);
      assert order == init + [last];
      assert Elements(order) == Elements(init) + {last};
      assert last in [last] + Neighbours(c, last, window);
      assert Interleaved(c, order, window) == Interleaved(c, init, window) + ([last] + Neighbours(c, last, window));
    }
  }

  /** Neighbour expansion over a ranking of the whole corpus fills min(k, n) slots without repetition. */
  lemma NeighborExpandSize(c: Corpus, order: seq<nat>, k: nat, window: nat, n: nat)
    requires Ranking(order, n) && forall p :: p in c.byCoord ==> c.byCoord[p] < n
    ensures Distinct(Slots(k, Interleaved(c, order, window)))
    ensures |Slots(k, Interleaved(c, order, window))| == if k < n then k else n
  {
    InterleavedCovers(c, order, window, n);
    SlotsMeaning(k, Interleaved(c, order, window));
    FillsAllSlots(k, n, order, Interleaved(c, order, window));
  }

  // ---- whole sessions of the seeds ---------------------------------------------------

  /** The messages below `n` of session `s`, in corpus order. */
  function Members(sessions: seq<string>, s: string): seq<nat> {
    if sessions == [] then []
    else
      var n := |sessions| - 1;
      Members(sessions[..n], s) + if sessions[n] == s then [n] else []
  }

  function Pulled(sessions: seq<string>, seeds: seq<nat>): seq<nat>
    requires Below(seeds, |sessions|)
  {
    if seeds == [] then []
    else Pulled(sessions, seeds[..|seeds| - 1]) + Members(sessions, sessions[seeds[|seeds| - 1]])
  }

  function Listed(bySess: map<string, seq<nat>>, s: string): seq<nat> {
    if s in bySess then bySess[s] else []
  }

  lemma GroupStep(sessions: seq<string>, i: nat, bySess: map<string, seq<nat>>)
    requires i < |sessions| && forall s :: Listed(bySess, s) == Members(sessions[..i], s)
    ensures var next := bySess[sessions[i] := Listed(bySess, sessions[i]) + [i]];
            forall s :: Listed(next, s) == Members(sessions[..i + 1], s)
  {
    var next := bySess[sessions[i] := Listed(bySess, sessions[i]) + [i]];
    assert sessions[..i + 1][..i] == sessions[..i];
    forall s
      ensures Listed(next, s) == Members(sessions[..i + 1], s)
    {
      assert Listed(bySess, s) == Members(sessions[..i], s);
    }
  }

  /** setdefault and append: the session lists. */
  method GroupBySession(sessions: seq<string>) returns (bySess: map<string, seq<nat>>)
    ensures forall s :: Listed(bySess, s) == Members(sessions, s)
  {
    bySess := map[];
    for i := 0 to |sessions|
      invariant forall s :: Listed(bySess, s) == Members(sessions[..i], s)
    {
      GroupStep(sessions, i, bySess);
      bySess := bySess[sessions[i] := Listed(bySess, sessions[i]) + [i]];
    }
    assert sessions[..|sessions|] == sessions;
  }

  /** Each seed pulls its whole session, in seed order. */
  method PullSessions(sessions: seq<string>, bySess: map<string, seq<nat>>, seeds: seq<nat>, k: nat)
    returns (selected: seq<nat>, seen: set<nat>)
    requires Below(seeds, |sessions|) && forall s :: Listed(bySess, s) == Members(sessions, s)
    ensures Holds(k, k, selected, seen, Pulled(sessions, seeds))
  {
    selected, seen := [], {};
    ghost var offered: seq<nat> := [];
    for i := 0 to |seeds|
      invariant offered == Pulled(sessions, seeds[..i])
      invariant Holds(k, k, selected, seen, offered)
    {
      var s := sessions[seeds[i]];
      MembersMeaning(sessions, s);
      assert seeds[i] in Listed(bySess, s);
      selected, seen := OfferAll(k, k, bySess[s], selected, seen, offered);
      offered := offered + bySess[s];
      assert seeds[..i + 1][..i] == seeds[..i];
    }
    assert seeds[..|seeds|] == seeds;
  }

  method SessionPull(sessions: seq<string>, order: seq<nat>, seeds: nat, k: nat) returns (selected: seq<nat>)
    requires Below(order, |sessions|)
    ensures selected == Slots(k, Pulled(sessions, Take(seeds, order)) + order)
  {
    var bySess := GroupBySession(sessions);
    var seen;
    selected, seen := PullSessions(sessions, bySess, Take(seeds, order), k);
    selected := FillByRank(order, 0, k, k, selected, seen, Pulled(sessions, Take(seeds, order)));
    assert order[0..] == order;
  }

  lemma {:induction false} MembersMeaning(sessions: seq<string>, s: string)
    ensures forall i :: i in Members(sessions, s) <==> 0 <= i < |sessions| && sessions[i] == s
  {
    if sessions != [] {
      MembersMeaning(sessions[..|sessions| - 1], s);
    }
  }

  lemma {:induction false} PulledInside(sessions: seq<string>, seeds: seq<nat>)
    requires Below(seeds, |sessions|)
    ensures Below(Pulled(sessions, seeds), |sessions|)
  {
    if seeds != [] {
      var members := Members(sessions, sessions[seeds[|seeds| - 1]]);
      PulledInside(sessions, seeds[..|seeds| - 1]);
      MembersMeaning(sessions, sessions[seeds[|seeds| - 1]]);
      assert forall i :: 0 <= i < |members| ==> members[i] in members;
    }
  }

  /** Session pull fills min(k, n) slots; while there is room, a seed brings its whole session. */
  lemma SessionPullSize(sessions: seq<string>, order: seq<nat>, seeds: seq<nat>, k: nat)
    requires Ranking(order, |sessions|) && Below(seeds, |sessions|)
    ensures |Slots(k, Pulled(sessions, seeds) + order)| == if k < |sessions| then k else |sessions|
    ensures |Elements(Pulled(sessions, seeds))| <= k ==>
              forall i, x :: 0 <= i < |sessions| && x in seeds && sessions[i] == sessions[x] ==>
                i in Slots(k, Pulled(sessions, seeds) + order)
  {
    var pulled := Pulled(sessions, seeds);
    PulledInside(sessions, seeds);
    FillsAllSlots(k, |sessions|, order, pulled + order);
    if |Elements(pulled)| <= k {
      DedupMeaning(pulled);
      DedupGrows(pulled, order);
      forall i, x | 0 <= i < |sessions| && x in seeds && sessions[i] == sessions[x]
        ensures i in Slots(k, pulled + order)
      {
        WholeSession(sessions, seeds, x, i);
        assert i in Elements(Dedup(pulled));
        var j :| 0 <= j < |Dedup(pulled)| && Dedup(pulled)[j] == i;
        assert Slots(k, pulled + order)[j] == i;
      }
    }
  }

  lemma {:induction false} WholeSession(sessions: seq<string>, seeds: seq<nat>, x: nat, i: nat)
    requires Below(seeds, |sessions|) && x in seeds
    requires i < |sessions| && sessions[i] == sessions[x]
    ensures i in Elements(Pulled(sessions, seeds))
  {
    var init, last := seeds[..|seeds| - 1], seeds[|seeds| - 1];
    MembersMeaning(sessions, sessions[last]);
    if x != last {
      assert x in init;
      WholeSession(sessions, init, x, i);
    }
  }
}
