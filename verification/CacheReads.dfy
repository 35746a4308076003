/**
  That the cache behind the barrier is of use: what a recall computes is stored, and served to the
  next one as long as nothing changed.
  Source: agentmem/src/lians/cache.py, `get_cached_recall` and `set_cached_recall`;
  agentmem/src/lians/memory_service.py, the cache path of recall.
*/
module CacheReads {
  import opened Prelude
  import opened CacheBarrier

  /** The step takes the recall from one stage to the next and changes nothing else. */
  ghost predicate Moves(s: State, r: nat, from: Reader, step: Step, to: Reader) {
    Enabled(SetReader(s, r, from), step) && Next(SetReader(s, r, from), step) == SetReader(s, r, to)
  }

  lemma SamePending(s: State, r: nat, from: Reader, p: Pair)
    ensures HasPending(SetReader(s, r, from), p) <==> HasPending(s, p)
  {
    assert SetReader(s, r, from).jobs == s.jobs;
  }

  lemma Overwritten(s: State, r: nat, from: Reader, to: Reader)
    ensures SetReader(SetReader(s, r, from), r, to) == SetReader(s, r, to)
  {
    assert s.readers[r := from][r := to] == s.readers[r := to];
  }

  lemma ReadsGeneration(s: State, r: nat, p: Pair, asOf: nat)
    ensures Moves(s, r, Checked(p, asOf), ReadGeneration(r), GotGeneration(p, asOf, Generation(s, p)))
  {
    Overwritten(s, r, Checked(p, asOf), GotGeneration(p, asOf, Generation(s, p)));
  }

  lemma ReadsPayload(s: State, r: nat, e: Entry, asOf: nat)
    requires e in s.cache
    ensures Moves(s, r, GotGeneration(e.pair, asOf, e.generation), ReadPayload(r, Some(e)), Hit(e.pair, asOf, e.generation, e.version))
  {
    Overwritten(s, r, GotGeneration(e.pair, asOf, e.generation), Hit(e.pair, asOf, e.generation, e.version));
  }

  lemma Confirms(s: State, r: nat, p: Pair, asOf: nat, version: nat)
    ensures var g := Generation(s, p);
            Moves(s, r, Hit(p, asOf, g, version), ConfirmGeneration(r), Confirmed(p, asOf, g, version))
  {
    Overwritten(s, r, Hit(p, asOf, Generation(s, p), version), Confirmed(p, asOf, Generation(s, p), version));
  }

  lemma Rechecks(s: State, r: nat, p: Pair, asOf: nat, g: nat, version: nat)
    requires !HasPending(s, p)
    ensures Moves(s, r, Confirmed(p, asOf, g, version), RecheckPending(r), Rechecked(p, Commits(s, p), g, version))
  {
    SamePending(s, r, Confirmed(p, asOf, g, version), p);
    Overwritten(s, r, Confirmed(p, asOf, g, version), Rechecked(p, Commits(s, p), g, version));
  }

  lemma Serves(s: State, r: nat, p: Pair, asOf: nat, version: nat)
    ensures Moves(s, r, Rechecked(p, asOf, Generation(s, p), version), Serve(r), Served(p, asOf, version))
  {
    Overwritten(s, r, Rechecked(p, asOf, Generation(s, p), version), Served(p, asOf, version));
  }

  lemma FindsNothing(s: State, r: nat, p: Pair, asOf: nat, g: nat)
    ensures Moves(s, r, GotGeneration(p, asOf, g), ReadPayload(r, None), Miss(p, g))
  {
    Overwritten(s, r, GotGeneration(p, asOf, g), Miss(p, g));
  }

  lemma Computes(s: State, r: nat, p: Pair, g: nat)
    ensures Moves(s, r, Miss(p, g), Compute(r), Computed(p, g, Commits(s, p)))
  {
    Overwritten(s, r, Miss(p, g), Computed(p, g, Commits(s, p)));
  }

  /** Stage by stage. */
  lemma {:induction false} RunMoves(s: State, r: nat, stages: seq<Reader>, steps: seq<Step>)
    requires |stages| == |steps| + 1 && forall i :: 0 <= i < |steps| ==> Moves(s, r, stages[i], steps[i], stages[i + 1])
    ensures IsRun(SetReader(s, r, stages[0]), steps)
    ensures After(SetReader(s, r, stages[0]), steps) == SetReader(s, r, stages[|steps|])
    decreases |steps|
  {
    if steps != [] {
      assert Moves(s, r, stages[0], steps[0], stages[1]);
      forall i | 0 <= i < |steps[1..]| ensures Moves(s, r, stages[1..][i], steps[1..][i], stages[1..][i + 1]) {
        assert Moves(s, r, stages[i + 1], steps[i + 1], stages[i + 2]);
      }
      RunMoves(s, r, stages[1..], steps[1..]);
    }
  }

  /** After its first barrier check: the steps of a recall that finds an entry. */
  function HitSteps(r: nat, e: Entry): seq<Step> {
    [ReadGeneration(r), ReadPayload(r, Some(e)), ConfirmGeneration(r), RecheckPending(r), Serve(r)]
  }

  /** A recall that finds an entry of the current generation, while no job is pending, is served it. */
  lemma CachedIsServed(s: State, r: nat, e: Entry)
    requires r !in s.readers && e in s.cache && e.generation == Generation(s, e.pair) && !HasPending(s, e.pair)
    ensures Enabled(s, CheckPending(r, e.pair)) && IsRun(Next(s, CheckPending(r, e.pair)), HitSteps(r, e))
    ensures After(Next(s, CheckPending(r, e.pair)), HitSteps(r, e))
         == s.(readers := s.readers[r := Served(e.pair, Commits(s, e.pair), e.version)])
  {
    var p, now, g, v := e.pair, Commits(s, e.pair), e.generation, e.version;
    ReadsGeneration(s, r, p, now);
    ReadsPayload(s, r, e, now);
    Confirms(s, r, p, now, v);
    Rechecks(s, r, p, now, g, v);
    Serves(s, r, p, now, v);
    RunMoves(s, r, [Checked(p, now), GotGeneration(p, now, g), Hit(p, now, g, v), Confirmed(p, now, g, v),
                    Rechecked(p, now, g, v), Served(p, now, v)], HitSteps(r, e));
  }

  /** One that finds none computes its result, */
  lemma MissIsComputed(s: State, r: nat, p: Pair)
    requires r !in s.readers && !HasPending(s, p)
    ensures var steps := [ReadGeneration(r), ReadPayload(r, None), Compute(r)];
            && IsRun(Next(s, CheckPending(r, p)), steps)
            && After(Next(s, CheckPending(r, p)), steps) == SetReader(s, r, Computed(p, Generation(s, p), Commits(s, p)))
  {
    var now, g := Commits(s, p), Generation(s, p);
    ReadsGeneration(s, r, p, now);
    FindsNothing(s, r, p, now, g);
    Computes(s, r, p, g);
    RunMoves(s, r, [Checked(p, now), GotGeneration(p, now, g), Miss(p, g), Computed(p, g, now)],
             [ReadGeneration(r), ReadPayload(r, None), Compute(r)]);
  }

  /** and stores it under the generation it read, as of the mutations committed when it computed. */
  lemma ComputedIsStored(s: State, r: nat, p: Pair, g: nat, v: nat)
    requires r !in s.readers && !HasPending(s, p)
    ensures var computed := SetReader(s, r, Computed(p, g, v));
            Enabled(computed, Store(r)) && Next(computed, Store(r)) == s.(cache := s.cache + {Entry(p, g, v)})
  {
    SamePending(s, r, Computed(p, g, v), p);
    assert s.readers[r := Computed(p, g, v)] - {r} == s.readers;
  }

  /** A generation that moved on between the read and its confirmation sends the recall to the store itself. */
  lemma MovedOnIsMiss(s: State, r: nat)
    requires r in s.readers && s.readers[r].Hit? && Generation(s, s.readers[r].pair) != s.readers[r].generation
    ensures Next(s, ConfirmGeneration(r)) == SetReader(s, r, Miss(s.readers[r].pair, Generation(s, s.readers[r].pair)))
  {
  }
}
