/**
  Result selection under a soft cap per session.
  Source: agentmem/benchmarks/locomo_replay.py, `_session_cap_select`.
*/
module SessionCap {
  import opened Prelude
  import opened SlotFill

  /** The session of a document, if it has a coordinate. */
  function SessionOf(c: Corpus, idx: nat): Option<int> {
    if idx in c.coord then Some(c.coord[idx].0) else None
  }

  /** How many of the list belong to the session. */
  function Count(c: Corpus, list: seq<nat>, s: int): nat {
    if list == [] then 0
    else Count(c, list[..|list| - 1], s) + if SessionOf(c, list[|list| - 1]) == Some(s) then 1 else 0
  }

  /** After `before`, document `idx` would not exceed its session's cap. */
  predicate UnderCap(c: Corpus, cap: nat, before: seq<nat>, idx: nat) {
    SessionOf(c, idx).Some? ==> Count(c, before, SessionOf(c, idx).value) < cap
  }

  /** In rank order: the documents within the cap, and the others. */
  function Kept(c: Corpus, cap: nat, order: seq<nat>): seq<nat> {
    if order == [] then []
    else
      var init, last := order[..|order| - 1], order[|order| - 1];
      Kept(c, cap, init) + if UnderCap(c, cap, init, last) then [last] else []
  }

  function Deferred(c: Corpus, cap: nat, order: seq<nat>): seq<nat> {
    if order == [] then []
    else
      var init, last := order[..|order| - 1], order[|order| - 1];
      Deferred(c, cap, init) + if UnderCap(c, cap, init, last) then [] else [last]
  }

  function Min(a: nat, b: nat): nat {
    if a < b then a else b
  }

  /** Of each session the kept documents are as many as there are, up to the cap. */
  lemma {:induction false} KeptCount(c: Corpus, cap: nat, order: seq<nat>, s: int)
    ensures Count(c, Kept(c, cap, order), s) == Min(cap, Count(c, order, s))
  {
    if order != [] {
      var init, last := order[..|order| - 1], order[|order| - 1];
      KeptCount(c, cap, init, s);
      if UnderCap(c, cap, init, last) {
        CountAppend(c, Kept(c, cap, init), last, s);
      } else {
        assert Kept(c, cap, init) + [] == Kept(c, cap, init);
      }
    }
  }

  lemma CountAppend(c: Corpus, list: seq<nat>, x: nat, s: int)
    ensures Count(c, list + [x], s) == Count(c, list, s) + if SessionOf(c, x) == Some(s) then 1 else 0
  {
    assert (list + [x])[..|list|] == list;
  }

  lemma {:induction false} KeptOrDeferred(c: Corpus, cap: nat, order: seq<nat>)
    ensures |Kept(c, cap, order)| + |Deferred(c, cap, order)| == |order|
    ensures forall x :: x in Kept(c, cap, order) + Deferred(c, cap, order) <==> x in order
    ensures Distinct(order) ==> Distinct(Kept(c, cap, order) + Deferred(c, cap, order))
  {
    if order != [] {
      var init, last := order[..|order| - 1], order[|order| - 1];
      KeptOrDeferred(c, cap, init);
      assert order == init + [last];
      var kept, deferred := Kept(c, cap, init), Deferred(c, cap, init);
      if Distinct(order) {
        assert forall i :: 0 <= i < |init| ==> init[i] == order[i];
        assert Distinct(init) && last !in init;
        assert last !in kept + deferred;
        DistinctSplit(kept, deferred, last);
        if UnderCap(c, cap, init, last) {
          assert Kept(c, cap, order) == kept + [last] && Deferred(c, cap, order) == deferred + [];
          assert deferred + [] == deferred;
        } else {
          assert Kept(c, cap, order) == kept + [] && Deferred(c, cap, order) == deferred + [last];
          assert kept + [] == kept;
        }
      }
    }
  }

  lemma DistinctSplit(a: seq<nat>, b: seq<nat>, x: nat)
    requires Distinct(a + b) && x !in a + b
    ensures Distinct(a + [x] + b) && Distinct(a + (b + [x]))
  {
    var ab := a + b;
    assert forall i :: 0 <= i < |a| ==> ab[i] == a[i];
    assert forall i :: 0 <= i < |b| ==> ab[|a| + i] == b[i];
    assert a + (b + [x]) == ab + [x];
  }

  /** One pass over the ranking, then the deferred documents for the slots left. */
  method SessionCapSelect(c: Corpus, order: seq<nat>, k: nat, cap: nat) returns (selected: seq<nat>)
    ensures selected == Take(k, Kept(c, cap, order) + Deferred(c, cap, order))
  {
    var deferred;
    selected, deferred := FirstPass(c, order, k, cap);
    ghost var kept := selected;
    if |selected| < k {
      assert kept + deferred[..0] == kept;
      for i := 0 to |deferred|
        invariant |selected| <= k && selected == kept + deferred[..i]
      {
        if |selected| >= k {
          assert selected == Take(k, kept + deferred);
          return;
        }
        selected := selected + [deferred[i]];
      }
      assert deferred[..|deferred|] == deferred;
    }
  }

  /** Stops at `k`; otherwise the whole ranking has been divided. */
  method FirstPass(c: Corpus, order: seq<nat>, k: nat, cap: nat) returns (selected: seq<nat>, deferred: seq<nat>)
    ensures |selected| <= k
    ensures |selected| == k ==> selected == Take(k, Kept(c, cap, order) + Deferred(c, cap, order))
    ensures |selected| < k ==> selected == Kept(c, cap, order) && deferred == Deferred(c, cap, order)
  {
    selected, deferred := [], [];
    var perSession: map<Option<int>, nat> := map[];
    for i := 0 to |order|
      invariant |selected| <= k
      invariant Divided(c, cap, order[..i], selected, deferred, perSession)
    {
      if |selected| >= k {
        KeptGrows(c, cap, order, i);
        return;
      }
      var sess := SessionOf(c, order[i]);
      DividedStep(c, cap, order, i, selected, deferred, perSession);
      if sess.Some? && Tally(perSession, sess) >= cap {
        deferred := deferred + [order[i]];
      } else {
        perSession := perSession[sess := Tally(perSession, sess) + 1];
        selected := selected + [order[i]];
      }
    }
    assert order[..|order|] == order;
    if |selected| == k {
      KeptGrows(c, cap, order, |order|);
    }
  }

  /** The dictionary holds, for each session, how many have been selected. */
  ghost predicate Tallies(c: Corpus, perSession: map<Option<int>, nat>, selected: seq<nat>) {
    forall s :: Tally(perSession, Some(s)) == Count(c, selected, s)
  }

  lemma TallyStep(c: Corpus, perSession: map<Option<int>, nat>, selected: seq<nat>, x: nat)
    requires Tallies(c, perSession, selected)
    ensures var sess := SessionOf(c, x);
            && (sess.Some? ==> Tally(perSession, sess) == Count(c, selected, sess.value))
            && Tallies(c, perSession[sess := Tally(perSession, sess) + 1], selected + [x])
  {
    forall s ensures Tally(perSession[SessionOf(c, x) := Tally(perSession, SessionOf(c, x)) + 1], Some(s)) == Count(c, selected + [x], s) {
      CountAppend(c, selected, x, s);
    }
  }

  /** Whether the next document is kept depends on how many of its session have been. */
  lemma PassStep(c: Corpus, cap: nat, order: seq<nat>, i: nat)
    requires i < |order|
    ensures var kept, deferred, x := Kept(c, cap, order[..i]), Deferred(c, cap, order[..i]), order[i];
            var over := SessionOf(c, x).Some? && Count(c, kept, SessionOf(c, x).value) >= cap;
            && Kept(c, cap, order[..i + 1]) == (if over then kept else kept + [x])
            && Deferred(c, cap, order[..i + 1]) == (if over then deferred + [x] else deferred)
  {
    assert order[..i + 1][..i] == order[..i];
    assert Kept(c, cap, order[..i]) + [] == Kept(c, cap, order[..i]);
    assert Deferred(c, cap, order[..i]) + [] == Deferred(c, cap, order[..i]);
    if SessionOf(c, order[i]).Some? {
      KeptCount(c, cap, order[..i], SessionOf(c, order[i]).value);
    }
  }

  /** Where the pass is after these documents. */
  ghost predicate Divided(c: Corpus, cap: nat, part: seq<nat>, selected: seq<nat>, deferred: seq<nat>, perSession: map<Option<int>, nat>) {
    selected == Kept(c, cap, part) && deferred == Deferred(c, cap, part) && Tallies(c, perSession, selected)
  }

  lemma DividedStep(c: Corpus, cap: nat, order: seq<nat>, i: nat, selected: seq<nat>, deferred: seq<nat>, perSession: map<Option<int>, nat>)
    requires i < |order| && Divided(c, cap, order[..i], selected, deferred, perSession)
    ensures var x, sess := order[i], SessionOf(c, order[i]);
            if sess.Some? && Tally(perSession, sess) >= cap then
              Divided(c, cap, order[..i + 1], selected, deferred + [x], perSession)
            else
              Divided(c, cap, order[..i + 1], selected + [x], deferred, perSession[sess := Tally(perSession, sess) + 1])
  {
    PassStep(c, cap, order, i);
    TallyStep(c, perSession, selected, order[i]);
  }

  function Tally(perSession: map<Option<int>, nat>, s: Option<int>): nat {
    if s in perSession then perSession[s] else 0
  }

  lemma {:induction false} KeptGrows(c: Corpus, cap: nat, order: seq<nat>, i: nat)
    requires i <= |order|
    ensures Kept(c, cap, order[..i]) <= Kept(c, cap, order) <= Kept(c, cap, order) + Deferred(c, cap, order)
    decreases |order|
  {
    if i < |order| {
      var init := order[..|order| - 1];
      KeptGrows(c, cap, init, i);
      assert init[..i] == order[..i];
    } else {
      assert order[..i] == order;
    }
  }

  // ---- optimality --------------------------------------------------------------------

  /** Picks beyond the cap of their session, summed over the sessions listed. */
  function Excess(c: Corpus, cap: nat, list: seq<nat>, sessions: seq<int>): nat {
    if sessions == [] then 0
    else
      var n := Count(c, list, sessions[0]);
      (if n > cap then n - cap else 0) + Excess(c, cap, list, sessions[1..])
  }

  /** What the cap admits: min(cap, size) for each session. */
  function Capacity(c: Corpus, cap: nat, order: seq<nat>, sessions: seq<int>): nat {
    if sessions == [] then 0
    else Min(cap, Count(c, order, sessions[0])) + Capacity(c, cap, order, sessions[1..])
  }

  /** Documents without a session. */
  function Uncoordinated(c: Corpus, list: seq<nat>): nat {
    if list == [] then 0
    else Uncoordinated(c, list[..|list| - 1]) + if SessionOf(c, list[|list| - 1]).None? then 1 else 0
  }

  function SumCounts(c: Corpus, list: seq<nat>, sessions: seq<int>): nat {
    if sessions == [] then 0 else Count(c, list, sessions[0]) + SumCounts(c, list, sessions[1..])
  }

  /** `sessions` lists, once each, the sessions of these documents. */
  predicate Lists(c: Corpus, sessions: seq<int>, list: seq<nat>) {
    && Distinct(sessions)
    && forall i :: 0 <= i < |list| && SessionOf(c, list[i]).Some? ==> SessionOf(c, list[i]).value in sessions
  }

  lemma {:induction false} SumCountsStep(c: Corpus, list: seq<nat>, x: nat, sessions: seq<int>)
    requires Distinct(sessions)
    ensures SumCounts(c, list + [x], sessions)
         == SumCounts(c, list, sessions)
            + if SessionOf(c, x).Some? && SessionOf(c, x).value in sessions then 1 else 0
  {
    assert (list + [x])[..|list|] == list;
    if sessions != [] {
      SumCountsStep(c, list, x, sessions[1..]);
      assert sessions == [sessions[0]] + sessions[1..];
    }
  }

  /** Every document is counted in its session or has none. */
  lemma {:induction false} CountsAddUp(c: Corpus, list: seq<nat>, sessions: seq<int>)
    requires Lists(c, sessions, list)
    ensures SumCounts(c, list, sessions) + Uncoordinated(c, list) == |list|
    decreases |list|
  {
    if list == [] {
      NoCounts(c, sessions);
    } else {
      var init, last := list[..|list| - 1], list[|list| - 1];
      CountsAddUp(c, init, sessions);
      SumCountsStep(c, init, last, sessions);
      assert list == init + [last];
    }
  }

  lemma {:induction false} NoCounts(c: Corpus, sessions: seq<int>)
    ensures SumCounts(c, [], sessions) == 0
  {
    if sessions != [] {
      NoCounts(c, sessions[1..]);
    }
  }

  lemma {:induction false} ExcessIsRest(c: Corpus, cap: nat, list: seq<nat>, sessions: seq<int>)
    ensures Excess(c, cap, list, sessions) + Capacity(c, cap, list, sessions) == SumCounts(c, list, sessions)
  {
    if sessions != [] {
      ExcessIsRest(c, cap, list, sessions[1..]);
    }
  }

  /** The documents of a session, as a set. */
  function InSession(c: Corpus, list: seq<nat>, s: int): set<nat> {
    set x | x in list && SessionOf(c, x) == Some(s)
  }

  lemma {:induction false} CountIsSize(c: Corpus, list: seq<nat>, s: int)
    requires Distinct(list)
    ensures Count(c, list, s) == |InSession(c, list, s)|
  {
    if list != [] {
      var init, last := list[..|list| - 1], list[|list| - 1];
      CountIsSize(c, init, s);
      assert list == init + [last] && last !in init;
      assert InSession(c, list, s) == InSession(c, init, s) + if SessionOf(c, last) == Some(s) then {last} else {};
    }
  }

  function WithoutSession(c: Corpus, list: seq<nat>): set<nat> {
    set x | x in list && SessionOf(c, x).None?
  }

  lemma {:induction false} UncoordinatedIsSize(c: Corpus, list: seq<nat>)
    requires Distinct(list)
    ensures Uncoordinated(c, list) == |WithoutSession(c, list)|
  {
    if list != [] {
      var init, last := list[..|list| - 1], list[|list| - 1];
      UncoordinatedIsSize(c, init);
      assert list == init + [last] && last !in init;
      assert last !in WithoutSession(c, init);
      if SessionOf(c, last).None? {
        assert WithoutSession(c, list) == WithoutSession(c, init) + {last};
      } else {
        assert WithoutSession(c, list) == WithoutSession(c, init);
      }
    }
  }

  /** A selection from the ranking: distinct documents of it. */
  predicate SelectionOf(order: seq<nat>, list: seq<nat>) {
    Distinct(list) && forall i :: 0 <= i < |list| ==> list[i] in order
  }

  lemma {:induction false} CapacityMonotone(c: Corpus, cap: nat, order: seq<nat>, list: seq<nat>, sessions: seq<int>)
    requires Distinct(order) && SelectionOf(order, list)
    ensures Capacity(c, cap, list, sessions) <= Capacity(c, cap, order, sessions)
  {
    if sessions != [] {
      CapacityMonotone(c, cap, order, list, sessions[1..]);
      CountIsSize(c, list, sessions[0]);
      CountIsSize(c, order, sessions[0]);
      SubsetSize(InSession(c, list, sessions[0]), InSession(c, order, sessions[0]));
    }
  }

  /** No selection has fewer over-cap picks than its size less what the cap admits. */
  lemma ExcessLowerBound(c: Corpus, cap: nat, order: seq<nat>, list: seq<nat>, sessions: seq<int>)
    requires Distinct(order) && SelectionOf(order, list) && Lists(c, sessions, order)
    ensures Excess(c, cap, list, sessions) >= |list| - Capacity(c, cap, order, sessions) - Uncoordinated(c, order)
  {
    assert Lists(c, sessions, list);
    CountsAddUp(c, list, sessions);
    ExcessIsRest(c, cap, list, sessions);
    CapacityMonotone(c, cap, order, list, sessions);
    UncoordinatedIsSize(c, list);
    UncoordinatedIsSize(c, order);
    SubsetSize(WithoutSession(c, list), WithoutSession(c, order));
  }

  /** The kept documents are exactly what the cap admits. */
  lemma {:induction false} KeptCapacity(c: Corpus, cap: nat, order: seq<nat>, sessions: seq<int>)
    ensures SumCounts(c, Kept(c, cap, order), sessions) == Capacity(c, cap, order, sessions)
    ensures Excess(c, cap, Kept(c, cap, order), sessions) == 0
  {
    if sessions != [] {
      KeptCapacity(c, cap, order, sessions[1..]);
      KeptCount(c, cap, order, sessions[0]);
    }
  }

  lemma {:induction false} KeptUncoordinated(c: Corpus, cap: nat, order: seq<nat>)
    ensures Uncoordinated(c, Kept(c, cap, order)) == Uncoordinated(c, order)
  {
    if order != [] {
      var init, last := order[..|order| - 1], order[|order| - 1];
      KeptUncoordinated(c, cap, init);
      var kept := Kept(c, cap, init);
      assert (kept + [last])[..|kept|] == kept;
      assert kept + [] == kept;
    }
  }

  lemma KeptSize(c: Corpus, cap: nat, order: seq<nat>, sessions: seq<int>)
    requires Lists(c, sessions, order)
    ensures |Kept(c, cap, order)| == Capacity(c, cap, order, sessions) + Uncoordinated(c, order)
    ensures Capacity(c, cap, Kept(c, cap, order), sessions) == Capacity(c, cap, order, sessions)
  {
    var kept := Kept(c, cap, order);
    KeptOrDeferred(c, cap, order);
    assert forall i :: 0 <= i < |kept| ==> kept[i] in kept + Deferred(c, cap, order);
    assert Lists(c, sessions, kept);
    CountsAddUp(c, kept, sessions);
    KeptCapacity(c, cap, order, sessions);
    KeptUncoordinated(c, cap, order);
    ExcessIsRest(c, cap, kept, sessions);
  }

  /** A selection drawn from within the kept documents has no over-cap pick. */
  lemma {:induction false} NoExcessWithinKept(c: Corpus, cap: nat, kept: seq<nat>, list: seq<nat>, sessions: seq<int>)
    requires Distinct(kept) && SelectionOf(kept, list) && Excess(c, cap, kept, sessions) == 0
    ensures Excess(c, cap, list, sessions) == 0
  {
    if sessions != [] {
      NoExcessWithinKept(c, cap, kept, list, sessions[1..]);
      CountIsSize(c, list, sessions[0]);
      CountIsSize(c, kept, sessions[0]);
      SubsetSize(InSession(c, list, sessions[0]), InSession(c, kept, sessions[0]));
    }
  }

  /** A selection that holds all kept documents has no more over-cap picks than its surplus over them. */
  lemma ExcessBeyondKept(c: Corpus, cap: nat, order: seq<nat>, list: seq<nat>, sessions: seq<int>)
    requires Distinct(order) && SelectionOf(order, list) && Lists(c, sessions, order)
    requires SelectionOf(list, Kept(c, cap, order))
    ensures Excess(c, cap, list, sessions) == |list| - |Kept(c, cap, order)|
  {
    var kept := Kept(c, cap, order);
    KeptSize(c, cap, order, sessions);
    KeptUncoordinated(c, cap, order);
    CapacityMonotone(c, cap, order, list, sessions);
    CapacityMonotone(c, cap, list, kept, sessions);
    UncoordinatedIsSize(c, kept);
    UncoordinatedIsSize(c, list);
    UncoordinatedIsSize(c, order);
    SubsetSize(WithoutSession(c, kept), WithoutSession(c, list));
    SubsetSize(WithoutSession(c, list), WithoutSession(c, order));
    CountsAddUp(c, list, sessions);
    ExcessIsRest(c, cap, list, sessions);
  }

  lemma TakeSelects(c: Corpus, cap: nat, order: seq<nat>, k: nat)
    requires Distinct(order)
    ensures SelectionOf(order, Take(k, Kept(c, cap, order) + Deferred(c, cap, order)))
    ensures |Take(k, Kept(c, cap, order) + Deferred(c, cap, order))| == Min(k, |order|)
    ensures SelectionOf(order, Kept(c, cap, order))
  {
    KeptOrDeferred(c, cap, order);
    var kept, all := Kept(c, cap, order), Kept(c, cap, order) + Deferred(c, cap, order);
    assert forall i :: 0 <= i < |kept| ==> kept[i] == all[i] && all[i] in all;
    assert forall i :: 0 <= i < |all| ==> all[i] in all;
  }

  /**
    The selection fills min(k, n) slots with distinct documents of the ranking and has the fewest
    over-cap picks any such selection can have: max(0, min(k, n) - sum of min(cap, size) - documents
    without a session).
  */
  lemma FewestOverCapPicks(c: Corpus, cap: nat, order: seq<nat>, k: nat, sessions: seq<int>, selected: seq<nat>)
    requires Distinct(order) && Lists(c, sessions, order)
    requires selected == Take(k, Kept(c, cap, order) + Deferred(c, cap, order))
    ensures SelectionOf(order, selected) && |selected| == Min(k, |order|)
    ensures var surplus := |selected| - Capacity(c, cap, order, sessions) - Uncoordinated(c, order);
            Excess(c, cap, selected, sessions) == if surplus > 0 then surplus else 0
    ensures forall list :: SelectionOf(order, list) && |list| == |selected| ==>
              Excess(c, cap, list, sessions) >= Excess(c, cap, selected, sessions)
  {
    var kept := Kept(c, cap, order);
    TakeSelects(c, cap, order, k);
    KeptSize(c, cap, order, sessions);
    if |selected| <= |kept| {
      KeptCapacity(c, cap, order, sessions);
      assert selected == kept[..|selected|];
      NoExcessWithinKept(c, cap, kept, selected, sessions);
    } else {
      assert forall i :: 0 <= i < |kept| ==> selected[i] == kept[i];
      ExcessBeyondKept(c, cap, order, selected, sessions);
    }
    forall list | SelectionOf(order, list) && |list| == |selected|
      ensures Excess(c, cap, list, sessions) >= Excess(c, cap, selected, sessions)
    {
      ExcessLowerBound(c, cap, order, list, sessions);
    }
  }
}
