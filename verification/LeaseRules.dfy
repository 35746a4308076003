/**
  Who may complete an invalidation job, and when a commit may rely on one, in the statuses of jobs.
  Source: agentmem/src/lians/durable_jobs.py, `enqueue_job`, `lease_jobs`, `complete_job` and
  `fail_job`; agentmem/src/lians/cache_invalidation.py, `flush_recall_invalidation`.
*/
module LeaseRules {
  import opened Prelude
  import opened CacheBarrier

  /**
    Every way in which a job's status changes: a lease of a pending or leased job, a failure
    reported by the worker that holds it, and a completion after a bump, by the worker that holds
    the job or by a request that flushes it without a lease.
  */
  lemma StatusMoves(s: State, step: Step, k: JobKey)
    requires Enabled(s, step) && k in s.jobs
    ensures k in Next(s, step).jobs
    ensures var old_, new_ := s.jobs[k], Next(s, step).jobs[k];
            && new_.pair == old_.pair && old_.guards <= new_.guards
            && (new_.status == old_.status
                || (step.Lease? && step.key == k && new_.status == Leased(step.worker) && old_.status != Dead && old_.status != Completed)
                || (step.Release? && step.key == k && old_.status == Leased(step.worker)
                    && new_.status == if step.dead then Dead else Pending)
                || (step.FinishFlush? && step.committed && new_.status == Completed
                    && step.f in s.flushers && s.flushers[step.f].job == k && s.flushers[step.f].bumped
                    && (s.flushers[step.f].worker.None? || old_.status == Leased(s.flushers[step.f].worker.value))))
  {
  }

  /** A finishing flush completes its job exactly if its commit succeeds and it may, and no other job changes. */
  lemma FinishCompletesIff(s: State, f: nat, committed: bool)
    requires Enabled(s, FinishFlush(f, committed))
    ensures var flusher, next := s.flushers[f], Next(s, FinishFlush(f, committed));
            && next.jobs == s.jobs[flusher.job :=
                 if committed && (flusher.worker.None? || s.jobs[flusher.job].status == Leased(flusher.worker.value))
                 then s.jobs[flusher.job].(status := Completed) else s.jobs[flusher.job]]
            && next.commits == s.commits && next.epochs == s.epochs && next.flushers == s.flushers - {f}
  {
    var flusher := s.flushers[f];
    assert s.jobs[flusher.job := s.jobs[flusher.job]] == s.jobs;
  }

  // ---- a lost lease ------------------------------------------------------------------

  /** A step that worker `w` takes on jobs it leased before: it fails them, flushes them, or crashes. */
  predicate StepOf(s: State, w: nat, step: Step) {
    match step
    case Release(v, _, _) => v == w
    case StartFlush(_, _, lease) => lease == Some(w)
    case Bump(f, _) => f in s.flushers && s.flushers[f].worker == Some(w)
    case FinishFlush(f, _) => f in s.flushers && s.flushers[f].worker == Some(w)
    case CrashFlush(f) => f in s.flushers && s.flushers[f].worker == Some(w)
    case _ => false
  }

  ghost predicate RunOf(s: State, w: nat, steps: seq<Step>)
    decreases |steps|
  {
    steps == [] || (Enabled(s, steps[0]) && StepOf(s, w, steps[0]) && RunOf(Next(s, steps[0]), w, steps[1..]))
  }

  /** Once another worker has leased the job, nothing the first one still does to it has an effect. */
  lemma {:induction false} LostLease(s: State, w: nat, steps: seq<Step>, k: JobKey, v: nat)
    requires RunOf(s, w, steps) && k in s.jobs && s.jobs[k].status == Leased(v) && v != w
    ensures k in After(s, steps).jobs && After(s, steps).jobs[k] == s.jobs[k]
    decreases |steps|
  {
    if steps != [] {
      KeptFromOthers(s, w, steps[0], k, v);
      LostLease(Next(s, steps[0]), w, steps[1..], k, v);
    }
  }

  lemma KeptFromOthers(s: State, w: nat, step: Step, k: JobKey, v: nat)
    requires Enabled(s, step) && StepOf(s, w, step) && k in s.jobs && s.jobs[k].status == Leased(v) && v != w
    ensures k in Next(s, step).jobs && Next(s, step).jobs[k] == s.jobs[k]
  {
    StatusMoves(s, step, k);
  }

  // ---- the guard of a commit ---------------------------------------------------------

  /** A flush that has bumped for the job and would be let complete it as the job stands. */
  predicate MayStillComplete(s: State, f: nat, k: JobKey)
    requires k in s.jobs
  {
    && f in s.flushers && s.flushers[f].job == k && s.flushers[f].bumped
    && (s.flushers[f].worker.Some? ==> s.jobs[k].status == Leased(s.flushers[f].worker.value))
  }

  /**
    A commit keeps the barrier exactly if its job is new, or is pending, leased or dead and no
    flush that has already bumped may complete it: such a flush holds the job's lease, or needs none.
  */
  lemma CommitGuardIff(s: State, p: Pair, k: JobKey)
    requires Inv(s) && Enabled(s, CommitMutation(p, k))
    ensures StandsAfter(s, CommitMutation(p, k)) <==>
            k !in s.jobs || (s.jobs[k].status != Completed && forall f :: !MayStillComplete(s, f, k))
  {
    GuardExact(s, CommitMutation(p, k));
    if k in s.jobs {
      forall f | f in s.flushers && s.flushers[f].job == k && s.flushers[f].bumped
        ensures MayStillComplete(s, f, k) <==> CanFinish(s, s.flushers[f])
      {
      }
      assert forall f :: MayStillComplete(s, f, k) ==> !ReuseHarmless(s, k);
    }
  }

  /**
    A flush from a process with its cache switched off keeps the barrier exactly if it may not
    complete the job as it stands, or each mutation that relies on the job was followed by a bump.
  */
  lemma CacheOffGuardIff(s: State, f: nat)
    requires Inv(s) && Enabled(s, Bump(f, CacheOff))
    ensures var flusher := s.flushers[f]; var job := s.jobs[flusher.job];
            var covered := if job.pair in s.epochs && s.epochs[job.pair] != [] then s.epochs[job.pair][|s.epochs[job.pair]| - 1] else 0;
            StandsAfter(s, Bump(f, CacheOff)) <==>
              (flusher.worker.Some? && job.status != Leased(flusher.worker.value)) || forall n :: n in job.guards ==> n <= covered
  {
    GuardExact(s, Bump(f, CacheOff));
  }

  /** Every other step keeps it. */
  lemma OtherStepsStand(s: State, step: Step)
    requires Inv(s) && Enabled(s, step) && !step.CommitMutation? && !(step.Bump? && step.outcome.CacheOff?)
    ensures StandsAfter(s, step)
  {
    GuardExact(s, step);
  }

  // ---- what may happen at any time ---------------------------------------------------

  /**
    Nothing that the store, Redis, the workers and the processes can do is left out: mutations on a
    new job or one of their own agent, leases of pending and leased jobs, failures, flushes of open
    jobs with and without a lease, all outcomes of a bump and of the last commit, and crashes.
  */
  lemma AnythingMayHappen(s: State, k: JobKey, f: nat, p: Pair, w: nat)
    ensures k !in s.jobs || s.jobs[k].pair == p ==> Enabled(s, CommitMutation(p, k))
    ensures (&& k in s.jobs && (s.jobs[k].status == Pending || s.jobs[k].status.Leased?)
             && forall g :: g in s.flushers ==> s.flushers[g].worker != Some(w)) ==> Enabled(s, Lease(w, k))
    ensures k in s.jobs && s.jobs[k].status == Leased(w) ==>
              && Enabled(s, Release(w, k, true)) && Enabled(s, Release(w, k, false))
              && (f !in s.flushers ==> Enabled(s, StartFlush(f, k, Some(w))))
    ensures k in s.jobs && s.jobs[k].status != Completed && f !in s.flushers ==> Enabled(s, StartFlush(f, k, None))
    ensures f in s.flushers && s.flushers[f].job in s.jobs && !s.flushers[f].bumped ==>
              && Enabled(s, Bump(f, Applied)) && Enabled(s, Bump(f, NotApplied))
              && Enabled(s, Bump(f, ReplyLost)) && Enabled(s, Bump(f, CacheOff))
    ensures f in s.flushers && s.flushers[f].job in s.jobs && s.flushers[f].bumped ==>
              Enabled(s, FinishFlush(f, true)) && Enabled(s, FinishFlush(f, false))
    ensures f in s.flushers ==> Enabled(s, CrashFlush(f))
    ensures forall entry :: Enabled(s, Evict(entry))
  {
  }

  /** Nor anything that recalls do. */
  lemma AnyRecall(s: State, r: nat, p: Pair, e: Entry)
    ensures r !in s.readers && (forall k :: k in s.jobs && s.jobs[k].pair == p ==> s.jobs[k].status == Completed) ==>
              Enabled(s, CheckPending(r, p))
    ensures r in s.readers ==> Enabled(s, Drop(r))
    ensures r in s.readers && s.readers[r].Checked? ==> Enabled(s, ReadGeneration(r))
    ensures r in s.readers && s.readers[r].GotGeneration? ==>
              && Enabled(s, ReadPayload(r, None))
              && (e in s.cache && e.pair == s.readers[r].pair && e.generation == s.readers[r].generation ==>
                    Enabled(s, ReadPayload(r, Some(e))))
    ensures r in s.readers && s.readers[r].Hit? ==> Enabled(s, ConfirmGeneration(r))
    ensures r in s.readers && s.readers[r].Miss? ==> Enabled(s, Compute(r))
  {
  }
}
