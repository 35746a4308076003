/**
  What a greedy selection by marginal relevance trades, in scores and similarities.
  Source: agentmem/benchmarks/locomo_replay.py, `mmr_select`.
*/
module MmrRule {
  import opened Prelude
  import opened MmrSelect

  /** `m` is the similarity of `x` to the closest of the picked candidates. */
  ghost predicate Closest(pool: Pool, picked: seq<nat>, x: nat, m: real)
    requires Fits(pool, picked) && x < |pool.scores|
  {
    && (exists c :: c in picked && pool.sim[c][x] == m)
    && (forall c :: c in picked ==> pool.sim[c][x] <= m)
  }

  /** The distance from the best to the worst score, one if they are equal. */
  function ScoreRange(pool: Pool, order: seq<nat>): real
    requires Fits(pool, order) && |order| > 0
  {
    var best, worst := pool.scores[order[0]], pool.scores[order[|order| - 1]];
    if best == worst then 1.0 else best - worst
  }

  lemma ClosestIsMaxSim(pool: Pool, picked: seq<nat>, x: nat, m: real)
    requires Fits(pool, picked) && |picked| > 0 && x < |pool.scores|
    ensures Closest(pool, picked, x, m) <==> m == MaxSim(pool, picked, x)
  {
    MaxSimIsMaximum(pool, picked, x);
  }

  lemma Linear(lam: real, x: real, y: real, lo: real, span: real)
    requires span != 0.0
    ensures lam * ((x - lo) / span) - lam * ((y - lo) / span) == lam * ((x - y) / span)
  {
    var a, b := (x - lo) / span, (y - lo) / span;
    assert a - b == (x - y) / span;
    assert lam * a - lam * b == lam * (a - b);
  }

  lemma Scale(factor: real, x: real, y: real)
    ensures factor * x - factor * y == factor * (x - y)
  {
  }

  /** What a candidate has over another: its better score against its greater similarity. */
  function Lead(pool: Pool, order: seq<nat>, x: nat, y: nat, mx: real, my: real): real
    requires Fits(pool, order) && |order| > 0 && x < |pool.scores| && y < |pool.scores|
  {
    pool.lam * ((pool.scores[x] - pool.scores[y]) / ScoreRange(pool, order)) - (1.0 - pool.lam) * (mx - my)
  }

  /**
    The exchange rate: a candidate's objective is at least another's exactly if lambda times their
    gap in score, as a share of the range, makes up for (1 - lambda) times their gap in similarity
    to what is picked.
  */
  lemma ExchangeRate(pool: Pool, order: seq<nat>, picked: seq<nat>, x: nat, y: nat, mx: real, my: real)
    requires Fits(pool, order) && |order| > 0 && Fits(pool, picked) && |picked| > 0
    requires x < |pool.scores| && y < |pool.scores| && Closest(pool, picked, x, mx) && Closest(pool, picked, y, my)
    ensures Objective(pool, order, picked, x) - Objective(pool, order, picked, y) == Lead(pool, order, x, y, mx, my)
  {
    ClosestIsMaxSim(pool, picked, x, mx);
    ClosestIsMaxSim(pool, picked, y, my);
    Linear(pool.lam, pool.scores[x], pool.scores[y], Low(pool, order), Span(pool, order));
    Scale(1.0 - pool.lam, mx, my);
  }

  /** Position `p` holds the next pick: no remaining candidate leads over it, and no better ranked one draws level. */
  ghost predicate NextPick(pool: Pool, order: seq<nat>, picked: seq<nat>, p: nat)
    requires Fits(pool, order) && Fits(pool, picked) && |picked| > 0 && p < |order|
  {
    && order[p] !in picked
    && forall q, mp, mq ::
         0 <= q < |order| && order[q] !in picked && Closest(pool, picked, order[p], mp) && Closest(pool, picked, order[q], mq) ==>
           && Lead(pool, order, order[p], order[q], mp, mq) >= 0.0
           && (q < p ==> Lead(pool, order, order[p], order[q], mp, mq) > 0.0)
  }

  lemma LeadIsGap(pool: Pool, order: seq<nat>, picked: seq<nat>, x: nat, y: nat)
    requires Fits(pool, order) && |order| > 0 && Fits(pool, picked) && |picked| > 0 && x < |pool.scores| && y < |pool.scores|
    ensures forall mx, my :: Closest(pool, picked, x, mx) && Closest(pool, picked, y, my) ==>
              Lead(pool, order, x, y, mx, my) == Objective(pool, order, picked, x) - Objective(pool, order, picked, y)
    ensures exists mx, my :: Closest(pool, picked, x, mx) && Closest(pool, picked, y, my)
              && Lead(pool, order, x, y, mx, my) == Objective(pool, order, picked, x) - Objective(pool, order, picked, y)
  {
    forall mx, my | Closest(pool, picked, x, mx) && Closest(pool, picked, y, my)
      ensures Lead(pool, order, x, y, mx, my) == Objective(pool, order, picked, x) - Objective(pool, order, picked, y)
    {
      ExchangeRate(pool, order, picked, x, y, mx, my);
    }
    ClosestIsMaxSim(pool, picked, x, MaxSim(pool, picked, x));
    ClosestIsMaxSim(pool, picked, y, MaxSim(pool, picked, y));
  }

  lemma NextPickIff(pool: Pool, order: seq<nat>, picked: seq<nat>, p: nat)
    requires Fits(pool, order) && Fits(pool, picked) && |picked| > 0 && p < |order|
    ensures NextPick(pool, order, picked, p) <==> BestAt(pool, order, picked, p)
  {
    forall q | 0 <= q < |order| && order[q] !in picked
      ensures (forall mp, mq :: Closest(pool, picked, order[p], mp) && Closest(pool, picked, order[q], mq) ==>
                 && Lead(pool, order, order[p], order[q], mp, mq) >= 0.0
                 && (q < p ==> Lead(pool, order, order[p], order[q], mp, mq) > 0.0))
              <==> && Objective(pool, order, picked, order[q]) <= Objective(pool, order, picked, order[p])
                   && (q < p ==> Objective(pool, order, picked, order[q]) < Objective(pool, order, picked, order[p]))
    {
      LeadIsGap(pool, order, picked, order[p], order[q]);
    }
  }

  /**
    The greedy results, in scores and similarities alone: the best ranked candidate first, then at
    each pick one that no remaining candidate leads over, the best ranked of those.
  */
  lemma GreedyInNumbersIff(pool: Pool, order: seq<nat>, result: seq<nat>, k: nat)
    requires Fits(pool, order) && Fits(pool, result) && 0 < k
    ensures Greedy(pool, order, result, k) <==>
              && |result| == k && Distinct(result) && (forall i :: 0 <= i < |result| ==> result[i] in order)
              && |order| > 0 && result[0] == order[0]
              && forall t :: 0 < t < k ==> exists p :: 0 <= p < |order| && order[p] == result[t] && NextPick(pool, order, result[..t], p)
  {
    if |result| == k {
      forall t | 0 < t < k
        ensures GreedyPick(pool, order, result, t) <==>
                exists p :: 0 <= p < |order| && order[p] == result[t] && NextPick(pool, order, result[..t], p)
      {
        forall p | 0 <= p < |order| ensures NextPick(pool, order, result[..t], p) <==> BestAt(pool, order, result[..t], p) {
          NextPickIff(pool, order, result[..t], p);
        }
      }
    }
  }

  /**
    For lambda below one no pick is dominated: no candidate left out is at least as well scored and
    strictly less similar to everything picked before.
  */
  lemma NoPickIsDominated(pool: Pool, order: seq<nat>, result: seq<nat>, k: nat, t: nat, q: nat)
    requires Fits(pool, order) && Ranked(pool, order) && Greedy(pool, order, result, k) && 0.0 <= pool.lam < 1.0
    requires 0 < t < k && q in order && q !in result[..t] && pool.scores[q] >= pool.scores[result[t]]
    ensures exists c :: c in result[..t] && pool.sim[c][q] >= pool.sim[c][result[t]]
  {
    assert GreedyPick(pool, order, result, t);
    var p :| 0 <= p < |order| && order[p] == result[t] && BestAt(pool, order, result[..t], p);
    var i :| 0 <= i < |order| && order[i] == q;
    BestIsNovel(pool, order, result[..t], p, i);
  }

  lemma BestIsNovel(pool: Pool, order: seq<nat>, picked: seq<nat>, p: nat, i: nat)
    requires Fits(pool, order) && Ranked(pool, order) && Fits(pool, picked) && |picked| > 0 && 0.0 <= pool.lam < 1.0
    requires p < |order| && i < |order| && BestAt(pool, order, picked, p) && order[i] !in picked
    requires pool.scores[order[i]] >= pool.scores[order[p]]
    ensures exists c :: c in picked && pool.sim[c][order[i]] >= pool.sim[c][order[p]]
  {
    var x, y := order[p], order[i];
    MaxSimIsMaximum(pool, picked, x);
    MaxSimIsMaximum(pool, picked, y);
    CloserOnlyForScore(pool, order, picked, x, y);
    var c :| c in picked && pool.sim[c][y] == MaxSim(pool, picked, y);
  }

  /** What is no better scored can only be preferred for being no closer to what is picked. */
  lemma CloserOnlyForScore(pool: Pool, order: seq<nat>, picked: seq<nat>, x: nat, y: nat)
    requires Fits(pool, order) && |order| > 0 && Ranked(pool, order) && Fits(pool, picked) && |picked| > 0 && 0.0 <= pool.lam < 1.0
    requires x < |pool.scores| && y < |pool.scores| && pool.scores[y] >= pool.scores[x]
    requires Objective(pool, order, picked, y) <= Objective(pool, order, picked, x)
    ensures MaxSim(pool, picked, x) <= MaxSim(pool, picked, y)
  {
    var mx, my := MaxSim(pool, picked, x), MaxSim(pool, picked, y);
    ClosestIsMaxSim(pool, picked, x, mx);
    ClosestIsMaxSim(pool, picked, y, my);
    ExchangeRate(pool, order, picked, x, y, mx, my);
    LeadNeedsNovelty(pool, order, x, y, mx, my);
  }

  lemma LeadNeedsNovelty(pool: Pool, order: seq<nat>, x: nat, y: nat, mx: real, my: real)
    requires Fits(pool, order) && |order| > 0 && Ranked(pool, order) && 0.0 <= pool.lam < 1.0
    requires x < |pool.scores| && y < |pool.scores| && pool.scores[y] >= pool.scores[x] && Lead(pool, order, x, y, mx, my) >= 0.0
    ensures mx <= my
  {
    RangeIsPositive(pool, order);
    NoLeadWithoutNovelty(pool.lam, pool.scores[x] - pool.scores[y], ScoreRange(pool, order), mx - my);
  }

  lemma RangeIsPositive(pool: Pool, order: seq<nat>)
    requires Fits(pool, order) && |order| > 0 && Ranked(pool, order)
    ensures ScoreRange(pool, order) > 0.0
  {
    if |order| > 1 {
      assert pool.scores[order[0]] >= pool.scores[order[|order| - 1]];
    }
  }

  lemma NoLeadWithoutNovelty(lam: real, gap: real, range: real, closer: real)
    requires 0.0 <= lam < 1.0 && gap <= 0.0 && range > 0.0 && lam * (gap / range) - (1.0 - lam) * closer >= 0.0
    ensures closer <= 0.0
  {
    var share := gap / range;
    assert share <= 0.0;
    var gained, lost := lam * share, (1.0 - lam) * closer;
    Signs(lam, share);
    Signs(1.0 - lam, closer);
  }

  lemma Signs(factor: real, x: real)
    requires factor >= 0.0
    ensures x <= 0.0 ==> factor * x <= 0.0
    ensures factor > 0.0 && x > 0.0 ==> factor * x > 0.0
  {
  }
}
