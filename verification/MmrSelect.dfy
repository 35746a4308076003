/**
  Maximal marginal relevance with an incrementally maintained similarity array.
  Source: agentmem/benchmarks/locomo_replay.py, `mmr_select`.
*/
module MmrSelect {
  import opened Prelude

  /** Candidate scores, pairwise similarities, and the trade-off; reals, since rounding is not the point. */
  datatype Pool = Pool(scores: seq<real>, sim: seq<seq<real>>, lam: real)

  /** Every candidate has a score and a full row of similarities. */
  predicate Fits(pool: Pool, order: seq<nat>) {
    && |pool.sim| == |pool.scores|
    && (forall i :: 0 <= i < |pool.sim| ==> |pool.sim[i]| == |pool.scores|)
    && (forall i :: 0 <= i < |order| ==> order[i] < |pool.scores|)
  }

  function Max(x: real, y: real): real {
    if x >= y then x else y
  }

  /** The worst score in the pool, and the spread of scores, one if there is none. */
  function Low(pool: Pool, order: seq<nat>): real
    requires Fits(pool, order) && |order| > 0
  {
    pool.scores[order[|order| - 1]]
  }

  function Span(pool: Pool, order: seq<nat>): real
    requires Fits(pool, order) && |order| > 0
  {
    var span := pool.scores[order[0]] - Low(pool, order);
    if span == 0.0 then 1.0 else span
  }

  function Relevance(pool: Pool, order: seq<nat>, x: nat): real
    requires Fits(pool, order) && |order| > 0 && x < |pool.scores|
  {
    (pool.scores[x] - Low(pool, order)) / Span(pool, order)
  }

  /** Similarity of `x` to the closest of the candidates selected so far. */
  function MaxSim(pool: Pool, selected: seq<nat>, x: nat): real
    requires Fits(pool, selected) && |selected| > 0 && x < |pool.scores|
  {
    var last := selected[|selected| - 1];
    if |selected| == 1 then pool.sim[last][x]
    else Max(MaxSim(pool, selected[..|selected| - 1], x), pool.sim[last][x])
  }

  /** The objective with novelty recomputed against everything selected. */
  function Objective(pool: Pool, order: seq<nat>, selected: seq<nat>, x: nat): real
    requires Fits(pool, order) && |order| > 0
    requires Fits(pool, selected) && |selected| > 0 && x < |pool.scores|
  {
    pool.lam * Relevance(pool, order, x) - (1.0 - pool.lam) * MaxSim(pool, selected, x)
  }

  /** MaxSim is attained, and no selected candidate is closer: it is the maximum it is named for. */
  lemma {:induction false} MaxSimIsMaximum(pool: Pool, selected: seq<nat>, x: nat)
    requires Fits(pool, selected) && |selected| > 0 && x < |pool.scores|
    ensures exists c :: c in selected && pool.sim[c][x] == MaxSim(pool, selected, x)
    ensures forall c :: c in selected ==> pool.sim[c][x] <= MaxSim(pool, selected, x)
  {
    if |selected| > 1 {
      var init, last := selected[..|selected| - 1], selected[|selected| - 1];
      MaxSimIsMaximum(pool, init, x);
      assert selected == init + [last];
      var c :| c in init && pool.sim[c][x] == MaxSim(pool, init, x);
      assert c in selected && last in selected;
    } else {
      assert selected[0] in selected;
    }
  }

  /**
    Pick `t` of naive greedy selection: among the candidates not picked before, one of greatest
    objective, and of those the best ranked.
  */
  ghost predicate GreedyPick(pool: Pool, order: seq<nat>, result: seq<nat>, t: nat)
    requires Fits(pool, order) && Fits(pool, result) && 0 < t < |result|
  {
    exists p :: 0 <= p < |order| && order[p] == result[t] && BestAt(pool, order, result[..t], p)
  }

  /** Position `p` of the order holds the best remaining candidate given the picks so far. */
  ghost predicate BestAt(pool: Pool, order: seq<nat>, picked: seq<nat>, p: nat)
    requires Fits(pool, order) && Fits(pool, picked) && |picked| > 0 && p < |order|
  {
    && order[p] !in picked
    && (forall q :: 0 <= q < |order| && order[q] !in picked ==>
          Objective(pool, order, picked, order[q]) <= Objective(pool, order, picked, order[p]))
    && (forall q :: 0 <= q < p && order[q] !in picked ==>
          Objective(pool, order, picked, order[q]) < Objective(pool, order, picked, order[p]))
  }

  /** The greedy result: the best ranked first, then `k - 1` greedy picks, all distinct. */
  ghost predicate Greedy(pool: Pool, order: seq<nat>, result: seq<nat>, k: nat)
    requires Fits(pool, order)
  {
    && |result| == k
    && Distinct(result)
    && (forall i :: 0 <= i < |result| ==> result[i] in order)
    && (k > 0 ==> |order| > 0 && result[0] == order[0])
    && (forall t :: 0 < t < k ==> GreedyPick(pool, order, result, t))
  }

  /** `rest` lists the candidates of `order` that are not picked, in rank order. */
  ghost predicate Remaining(order: seq<nat>, picked: seq<nat>, rest: seq<nat>, at: seq<nat>) {
    && |at| == |rest|
    && (forall i :: 0 <= i < |at| ==> at[i] < |order| && order[at[i]] == rest[i])
    && (forall i, j :: 0 <= i < j < |at| ==> at[i] < at[j])
    && (forall q :: 0 <= q < |order| ==> (order[q] in picked || q in at))
    && (forall i :: 0 <= i < |rest| ==> rest[i] !in picked)
  }

  /** The first position of the greatest value. */
  method ArgMax(vals: seq<real>) returns (j: nat)
    requires |vals| > 0
    ensures j < |vals|
    ensures forall i :: 0 <= i < |vals| ==> vals[i] <= vals[j]
    ensures forall i :: 0 <= i < j ==> vals[i] < vals[j]
  {
    j := 0;
    for i := 1 to |vals|
      invariant j < i
      invariant forall q :: 0 <= q < i ==> vals[q] <= vals[j]
      invariant forall q :: 0 <= q < j ==> vals[q] < vals[j]
    {
      if vals[i] > vals[j] {
        j := i;
      }
    }
  }

  function Remove<T>(s: seq<T>, j: nat): seq<T>
    requires j < |s|
  {
    s[..j] + s[j + 1..]
  }

  /** The value array of one round. */
  method Values(pool: Pool, order: seq<nat>, ghost picked: seq<nat>, rest: seq<nat>, maxSim: seq<real>) returns (vals: seq<real>)
    requires Fits(pool, order) && |order| > 0 && Fits(pool, picked) && |picked| > 0 && Fits(pool, rest)
    requires |maxSim| == |rest| && forall i :: 0 <= i < |rest| ==> maxSim[i] == MaxSim(pool, picked, rest[i])
    ensures |vals| == |rest|
    ensures forall i :: 0 <= i < |rest| ==> vals[i] == Objective(pool, order, picked, rest[i])
  {
    vals := [];
    for i := 0 to |rest|
      invariant |vals| == i
      invariant forall j :: 0 <= j < i ==> vals[j] == Objective(pool, order, picked, rest[j])
    {
      vals := vals + [pool.lam * Relevance(pool, order, rest[i]) - (1.0 - pool.lam) * maxSim[i]];
    }
  }

  /** Raise each entry to the similarity with the candidate just chosen. */
  method Raise(pool: Pool, ghost picked: seq<nat>, chosen: nat, rest: seq<nat>, maxSim: seq<real>) returns (raised: seq<real>)
    requires Fits(pool, picked) && |picked| > 0 && Fits(pool, rest) && chosen < |pool.scores|
    requires |maxSim| == |rest| && forall i :: 0 <= i < |rest| ==> maxSim[i] == MaxSim(pool, picked, rest[i])
    ensures |raised| == |rest|
    ensures forall i :: 0 <= i < |rest| ==> raised[i] == MaxSim(pool, picked + [chosen], rest[i])
  {
    raised := [];
    assert (picked + [chosen])[..|picked|] == picked;
    for i := 0 to |rest|
      invariant |raised| == i
      invariant forall j :: 0 <= j < i ==> raised[j] == MaxSim(pool, picked + [chosen], rest[j])
    {
      raised := raised + [Max(maxSim[i], pool.sim[chosen][rest[i]])];
    }
  }

  /** The best of the remaining is the best of the order: the two argmaxes agree, ties included. */
  lemma ArgMaxIsBest(pool: Pool, order: seq<nat>, picked: seq<nat>, rest: seq<nat>, at: seq<nat>, j: nat)
    requires Fits(pool, order) && |order| > 0 && Fits(pool, picked) && |picked| > 0 && Fits(pool, rest)
    requires Remaining(order, picked, rest, at) && j < |rest|
    requires forall i :: 0 <= i < |rest| ==> Objective(pool, order, picked, rest[i]) <= Objective(pool, order, picked, rest[j])
    requires forall i :: 0 <= i < j ==> Objective(pool, order, picked, rest[i]) < Objective(pool, order, picked, rest[j])
    ensures BestAt(pool, order, picked, at[j])
  {
    forall q | 0 <= q < |order| && order[q] !in picked
      ensures Objective(pool, order, picked, order[q]) <= Objective(pool, order, picked, order[at[j]])
      ensures q < at[j] ==> Objective(pool, order, picked, order[q]) < Objective(pool, order, picked, order[at[j]])
    {
      var i :| 0 <= i < |at| && at[i] == q;
      assert order[at[i]] == rest[i] && order[at[j]] == rest[j];
      if q < at[j] {
        assert i < j;
      }
    }
  }

  /** Position `i` after a removal was position `Before(i, j)` before it. */
  function Before(i: nat, j: nat): nat {
    if i < j then i else i + 1
  }

  lemma RemoveAt<T>(s: seq<T>, j: nat)
    requires j < |s|
    ensures |Remove(s, j)| == |s| - 1
    ensures forall i :: 0 <= i < |s| - 1 ==> Remove(s, j)[i] == s[Before(i, j)]
    ensures forall x :: x in s && x != s[j] ==> x in Remove(s, j)
  {
    forall x | x in s && x != s[j] ensures x in Remove(s, j) {
      var i :| 0 <= i < |s| && s[i] == x;
      assert Remove(s, j)[if i < j then i else i - 1] == x;
    }
  }

  lemma DistinctRest(order: seq<nat>, picked: seq<nat>, rest: seq<nat>, at: seq<nat>, j: nat)
    requires Distinct(order) && Remaining(order, picked, rest, at) && j < |rest|
    ensures forall i :: 0 <= i < |rest| && i != j ==> rest[i] != rest[j]
  {
    forall i | 0 <= i < |rest| && i != j ensures rest[i] != rest[j] {
      assert at[i] != at[j] && order[at[i]] == rest[i] && order[at[j]] == rest[j];
    }
  }

  lemma RemoveKeepsRemaining(order: seq<nat>, picked: seq<nat>, rest: seq<nat>, at: seq<nat>, j: nat)
    requires Distinct(order) && Remaining(order, picked, rest, at) && j < |rest|
    ensures Remaining(order, picked + [rest[j]], Remove(rest, j), Remove(at, j))
  {
    RemoveAt(rest, j);
    RemoveAt(at, j);
    DistinctRest(order, picked, rest, at, j);
    forall q | 0 <= q < |order|
      ensures order[q] in picked + [rest[j]] || q in Remove(at, j)
    {
      if order[q] !in picked && q != at[j] {
        assert q in at;
      }
    }
    forall i | 0 <= i < |rest| - 1
      ensures Remove(rest, j)[i] !in picked + [rest[j]]
    {
      assert rest[Before(i, j)] !in picked;
    }
  }

  /** Appending the best remaining candidate extends a greedy selection. */
  lemma GreedyExtends(pool: Pool, order: seq<nat>, selected: seq<nat>, p: nat)
    requires Fits(pool, order) && Fits(pool, selected) && |selected| > 0 && p < |order|
    requires Greedy(pool, order, selected, |selected|) && BestAt(pool, order, selected, p)
    ensures Greedy(pool, order, selected + [order[p]], |selected| + 1)
  {
    var longer := selected + [order[p]];
    forall t | 0 < t < |longer|
      ensures GreedyPick(pool, order, longer, t)
    {
      assert longer[..t] == selected[..t];
      if t < |selected| {
        assert GreedyPick(pool, order, selected, t);
      } else {
        assert selected[..t] == selected;
      }
    }
  }

  lemma RemainingStart(order: seq<nat>, at: seq<nat>)
    requires |order| > 0 && Distinct(order) && |at| == |order| - 1
    requires forall i :: 0 <= i < |at| ==> at[i] == i + 1
    ensures Remaining(order, [order[0]], order[1..], at)
  {
    forall q | 0 <= q < |order|
      ensures order[q] in [order[0]] || q in at
    {
      if q > 0 {
        assert at[q - 1] == q;
      }
    }
  }

  /** The state of the loop: `maxSim` holds, for each remaining candidate, its true maximum similarity. */
  ghost predicate InStep(pool: Pool, order: seq<nat>, selected: seq<nat>, rest: seq<nat>, at: seq<nat>, maxSim: seq<real>)
    requires Fits(pool, order)
  {
    && |selected| > 0 && |rest| + |selected| == |order|
    && Fits(pool, selected) && Fits(pool, rest)
    && Remaining(order, selected, rest, at)
    && |maxSim| == |rest| && forall i :: 0 <= i < |rest| ==> maxSim[i] == MaxSim(pool, selected, rest[i])
  }

  lemma InStepAtStart(pool: Pool, order: seq<nat>, at: seq<nat>, maxSim: seq<real>)
    requires Fits(pool, order) && |order| > 0 && Distinct(order)
    requires |at| == |maxSim| == |order| - 1
    requires forall i :: 0 <= i < |at| ==> at[i] == i + 1
    requires forall i :: 0 <= i < |maxSim| ==> maxSim[i] == pool.sim[order[0]][order[1..][i]]
    ensures InStep(pool, order, [order[0]], order[1..], at, maxSim)
    ensures Greedy(pool, order, [order[0]], 1)
  {
    RemainingStart(order, at);
    assert order[0] in order;
  }

  /** One round: choose the best remaining candidate, take it out, and bring the array up to date. */
  method Round(pool: Pool, order: seq<nat>, selected: seq<nat>, rest: seq<nat>, ghost at: seq<nat>, maxSim: seq<real>)
    returns (chosen: nat, newRest: seq<nat>, ghost newAt: seq<nat>, newMaxSim: seq<real>)
    requires Fits(pool, order) && Distinct(order) && |rest| > 0
    requires InStep(pool, order, selected, rest, at, maxSim)
    ensures exists p :: 0 <= p < |order| && order[p] == chosen && BestAt(pool, order, selected, p)
    ensures InStep(pool, order, selected + [chosen], newRest, newAt, newMaxSim)
  {
    var vals := Values(pool, order, selected, rest, maxSim);
    var j := ArgMax(vals);
    chosen := rest[j];
    ArgMaxIsBest(pool, order, selected, rest, at, j);
    RemoveKeepsRemaining(order, selected, rest, at, j);
    newRest, newAt := Remove(rest, j), Remove(at, j);
    var shrunk := Remove(maxSim, j);
    newMaxSim := Raise(pool, selected, chosen, newRest, shrunk);
  }

  method MmrSelect(pool: Pool, order: seq<nat>, k: nat) returns (selected: seq<nat>)
    requires Fits(pool, order) && Distinct(order)
    ensures pool.lam >= 1.0 || |order| <= k ==> selected == order[..if k < |order| then k else |order|]
    ensures !(pool.lam >= 1.0 || |order| <= k) ==> Greedy(pool, order, selected, if k == 0 then 1 else k)
  {
    if pool.lam >= 1.0 || |order| <= k {
      return order[..if k < |order| then k else |order|];
    }
    selected := [order[0]];
    var rest := order[1..];
    ghost var at: seq<nat> := seq(|rest|, (i: nat) => i + 1);
    var maxSim := seq(|rest|, i requires 0 <= i < |rest| => pool.sim[order[0]][rest[i]]);
    InStepAtStart(pool, order, at, maxSim);
    while |rest| > 0 && |selected| < k
      invariant 1 <= |selected| <= (if k == 0 then 1 else k)
      invariant InStep(pool, order, selected, rest, at, maxSim)
      invariant Greedy(pool, order, selected, |selected|)
    {
      var chosen, newRest, newMaxSim;
      ghost var newAt;
      chosen, newRest, newAt, newMaxSim := Round(pool, order, selected, rest, at, maxSim);
      ghost var p :| 0 <= p < |order| && order[p] == chosen && BestAt(pool, order, selected, p);
      GreedyExtends(pool, order, selected, p);
      selected, rest, at, maxSim := selected + [chosen], newRest, newAt, newMaxSim;
    }
  }

  // ---- what the greedy result promises -----------------------------------------------

  /** The number of results is min(k, n), except that k = 0 still yields one. */
  lemma ResultSize(pool: Pool, order: seq<nat>, selected: seq<nat>, k: nat)
    requires Fits(pool, order)
    requires pool.lam >= 1.0 || |order| <= k ==> selected == order[..if k < |order| then k else |order|]
    requires !(pool.lam >= 1.0 || |order| <= k) ==> Greedy(pool, order, selected, if k == 0 then 1 else k)
    ensures |selected| == (if k < |order| then k else |order|) <==> k > 0 || pool.lam >= 1.0 || |order| == 0
  {
  }

  /** Scores fall along the ranking. */
  ghost predicate Ranked(pool: Pool, order: seq<nat>)
    requires Fits(pool, order)
  {
    forall i, j :: 0 <= i < j < |order| ==> pool.scores[order[i]] >= pool.scores[order[j]]
  }

  lemma RelevanceFollowsRank(pool: Pool, order: seq<nat>, i: nat, j: nat)
    requires Fits(pool, order) && Ranked(pool, order) && i < j < |order|
    ensures Relevance(pool, order, order[i]) >= Relevance(pool, order, order[j])
  {
    var span, x, y := Span(pool, order), pool.scores[order[i]] - Low(pool, order), pool.scores[order[j]] - Low(pool, order);
    assert span > 0.0 by {
      if |order| > 1 {
        assert pool.scores[order[0]] >= pool.scores[order[|order| - 1]];
      }
    }
    assert x >= y;
    DivideMonotone(x, y, span);
  }

  lemma DivideMonotone(x: real, y: real, d: real)
    requires d > 0.0 && x >= y
    ensures x / d >= y / d
  {
    assert x / d - y / d == (x - y) / d;
  }

  /**
    Without a novelty term the loop would choose what the shortcut returns: at lambda one, every
    greedy selection from a ranked order is the prefix of that order.
  */
  lemma {:induction false} ShortcutAgrees(pool: Pool, order: seq<nat>, result: seq<nat>, k: nat)
    requires Fits(pool, order) && Distinct(order) && Ranked(pool, order) && pool.lam == 1.0
    requires Greedy(pool, order, result, k) && 0 < k <= |order|
    ensures result == order[..k]
    decreases k
  {
    if k > 1 {
      GreedyPrefix(pool, order, result, k);
      ShortcutAgrees(pool, order, result[..k - 1], k - 1);
      LastPick(pool, order, result, k);
      assert result == result[..k - 1] + [result[k - 1]] == order[..k - 1] + [order[k - 1]];
    }
  }

  lemma LastPick(pool: Pool, order: seq<nat>, result: seq<nat>, k: nat)
    requires Fits(pool, order) && Distinct(order) && Ranked(pool, order) && pool.lam == 1.0
    requires 1 < k <= |order| && Fits(pool, result) && |result| == k && GreedyPick(pool, order, result, k - 1)
    requires result[..k - 1] == order[..k - 1]
    ensures result[k - 1] == order[k - 1]
  {
    var p :| 0 <= p < |order| && order[p] == result[k - 1] && BestAt(pool, order, result[..k - 1], p);
    NextInRank(pool, order, result[..k - 1], k - 1, p);
  }

  lemma GreedyPrefix(pool: Pool, order: seq<nat>, result: seq<nat>, k: nat)
    requires Fits(pool, order) && Greedy(pool, order, result, k) && k > 1
    ensures Greedy(pool, order, result[..k - 1], k - 1)
  {
    var init := result[..k - 1];
    forall t | 0 < t < k - 1
      ensures GreedyPick(pool, order, init, t)
    {
      assert GreedyPick(pool, order, result, t);
      assert init[..t] == result[..t];
    }
  }

  lemma ObjectiveFollowsRank(pool: Pool, order: seq<nat>, picked: seq<nat>, i: nat, j: nat)
    requires Fits(pool, order) && Ranked(pool, order) && pool.lam == 1.0 && i <= j < |order|
    requires Fits(pool, picked) && |picked| > 0
    ensures Objective(pool, order, picked, order[i]) >= Objective(pool, order, picked, order[j])
  {
    if i < j {
      RelevanceFollowsRank(pool, order, i, j);
    }
    assert Objective(pool, order, picked, order[i]) == Relevance(pool, order, order[i]);
    assert Objective(pool, order, picked, order[j]) == Relevance(pool, order, order[j]);
  }

  /** With the first `n` of a ranked order picked, the best remaining is the next one. */
  lemma NextInRank(pool: Pool, order: seq<nat>, picked: seq<nat>, n: nat, p: nat)
    requires Fits(pool, order) && Distinct(order) && Ranked(pool, order) && pool.lam == 1.0
    requires 0 < n < |order| && picked == order[..n] && p < |order|
    requires Fits(pool, picked) && BestAt(pool, order, picked, p)
    ensures p == n
  {
    assert forall q :: 0 <= q < n ==> order[q] == picked[q] && order[q] in picked;
    assert p >= n;
    assert order[n] !in picked;
    ObjectiveFollowsRank(pool, order, picked, n, p);
  }

  /** Ties included, greedy selection leaves no choice: its result is unique. */
  lemma {:induction false} GreedyUnique(pool: Pool, order: seq<nat>, a: seq<nat>, b: seq<nat>, k: nat)
    requires Fits(pool, order) && Distinct(order) && Greedy(pool, order, a, k) && Greedy(pool, order, b, k)
    ensures a == b
    decreases k
  {
    if k > 1 {
      GreedyPrefix(pool, order, a, k);
      GreedyPrefix(pool, order, b, k);
      GreedyUnique(pool, order, a[..k - 1], b[..k - 1], k - 1);
      SamePick(pool, order, a, b, k - 1);
      assert a == a[..k - 1] + [a[k - 1]] && b == b[..k - 1] + [b[k - 1]];
    }
  }

  lemma SamePick(pool: Pool, order: seq<nat>, a: seq<nat>, b: seq<nat>, t: nat)
    requires Fits(pool, order) && Fits(pool, a) && Fits(pool, b) && 0 < t < |a| && t < |b|
    requires a[..t] == b[..t] && GreedyPick(pool, order, a, t) && GreedyPick(pool, order, b, t)
    ensures a[t] == b[t]
  {
    var p :| 0 <= p < |order| && order[p] == a[t] && BestAt(pool, order, a[..t], p);
    var q :| 0 <= q < |order| && order[q] == b[t] && BestAt(pool, order, b[..t], q);
    assert p == q;
  }
}
