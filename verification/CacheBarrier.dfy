/**
  The durable invalidation barrier in front of the shared recall cache.
  Source: agentmem/src/lians/cache_invalidation.py, with `enqueue_job`, `lease_jobs`,
  `complete_job`, `fail_job` of durable_jobs.py, `invalidate_agent` and `get_cached_recall` of
  cache.py, and the cache path of recall in memory_service.py.
*/
module CacheBarrier {
  import opened Prelude

  datatype Pair = Pair(namespace: string, agent: string)

  /** The unique (namespace, kind, dedupe_key) of a job. */
  type JobKey = nat

  datatype Status = Pending | Leased(worker: nat) | Dead | Completed

  /** `guards` records which of the pair's mutations, numbered in commit order, rely on the job. */
  datatype Job = Job(pair: Pair, status: Status, guards: set<nat>)

  /** A flush under way: of a request, or of the worker that leased the job. */
  datatype Flusher = Flusher(job: JobKey, worker: Option<nat>, bumped: bool)

  /** A cached result computed from the pair's first `version` mutations. */
  datatype Entry = Entry(pair: Pair, generation: nat, version: nat)

  /** How far a recall has come on the cache path. `asOf` is the commit count at its last barrier check. */
  datatype Reader =
    | Checked(pair: Pair, asOf: nat)
    | GotGeneration(pair: Pair, asOf: nat, generation: nat)
    | Miss(pair: Pair, generation: nat)
    | Hit(pair: Pair, asOf: nat, generation: nat, version: nat)
    | Confirmed(pair: Pair, asOf: nat, generation: nat, version: nat)
    | Rechecked(pair: Pair, asOf: nat, generation: nat, version: nat)
    | Served(pair: Pair, asOf: nat, version: nat)
    | Computed(pair: Pair, generation: nat, version: nat)

  /**
    `epochs[p]` is the history of the pair's generation counter: how many mutations were committed
    at each bump. The counter itself is its length.
  */
  datatype State = State(
    commits: map<Pair, nat>,
    jobs: map<JobKey, Job>,
    epochs: map<Pair, seq<nat>>,
    cache: set<Entry>,
    flushers: map<nat, Flusher>,
    readers: map<nat, Reader>)

  function Commits(s: State, p: Pair): nat {
    if p in s.commits then s.commits[p] else 0
  }

  function Epochs(s: State, p: Pair): seq<nat> {
    if p in s.epochs then s.epochs[p] else []
  }

  function Generation(s: State, p: Pair): nat {
    |Epochs(s, p)|
  }

  /** Mutations committed when generation `g` began. */
  function CoveredAt(s: State, p: Pair, g: nat): nat
    requires g <= Generation(s, p)
  {
    if g == 0 then 0 else Epochs(s, p)[g - 1]
  }

  function Covered(s: State, p: Pair): nat {
    CoveredAt(s, p, Generation(s, p))
  }

  predicate Open(j: Job) {
    j.status != Completed
  }

  ghost predicate HasPending(s: State, p: Pair) {
    exists k :: k in s.jobs && s.jobs[k].pair == p && Open(s.jobs[k])
  }

  // ---- steps -------------------------------------------------------------------------

  /** INCR answered, raised without effect, raised after taking effect, or was never sent because this process has the cache switched off. */
  datatype BumpOutcome = Applied | NotApplied | ReplyLost | CacheOff

  datatype Step =
    | CommitMutation(pair: Pair, key: JobKey)
    | Lease(worker: nat, key: JobKey)
    | Release(worker: nat, key: JobKey, dead: bool)
    | StartFlush(f: nat, key: JobKey, lease: Option<nat>)
    | Bump(f: nat, outcome: BumpOutcome)
    | FinishFlush(f: nat, committed: bool)
    | CrashFlush(f: nat)
    | Evict(entry: Entry)
    | CheckPending(r: nat, pair: Pair)
    | ReadGeneration(r: nat)
    | ReadPayload(r: nat, found: Option<Entry>)
    | ConfirmGeneration(r: nat)
    | RecheckPending(r: nat)
    | Serve(r: nat)
    | Compute(r: nat)
    | Store(r: nat)
    | Drop(r: nat)

  /** `complete_job` needs the lease; a request's own flush writes the row it holds. */
  predicate CanFinish(s: State, f: Flusher) {
    f.job in s.jobs && (f.worker.None? || s.jobs[f.job].status == Leased(f.worker.value))
  }

  ghost predicate Enabled(s: State, step: Step) {
    match step
    case CommitMutation(p, k) => k in s.jobs ==> s.jobs[k].pair == p
    case Lease(w, k) =>
      && k in s.jobs && (s.jobs[k].status.Pending? || s.jobs[k].status.Leased?)
      && forall f :: f in s.flushers && s.flushers[f].job == k ==> s.flushers[f].worker != Some(w)
    case Release(w, k, dead) => k in s.jobs && s.jobs[k].status == Leased(w)
    case StartFlush(f, k, worker) =>
      && f !in s.flushers && k in s.jobs && Open(s.jobs[k])
      && (worker.Some? ==> s.jobs[k].status == Leased(worker.value))
    case Bump(f, outcome) => f in s.flushers && s.flushers[f].job in s.jobs && !s.flushers[f].bumped
    case FinishFlush(f, committed) => f in s.flushers && s.flushers[f].job in s.jobs && s.flushers[f].bumped
    case CrashFlush(f) => f in s.flushers
    case Evict(entry) => true
    case CheckPending(r, p) => r !in s.readers && !HasPending(s, p)
    case ReadGeneration(r) => r in s.readers && s.readers[r].Checked?
    case ReadPayload(r, found) =>
      && r in s.readers && s.readers[r].GotGeneration?
      && (found.Some? ==>
            && found.value in s.cache
            && found.value.pair == s.readers[r].pair && found.value.generation == s.readers[r].generation)
    case ConfirmGeneration(r) => r in s.readers && s.readers[r].Hit?
    case RecheckPending(r) => r in s.readers && s.readers[r].Confirmed? && !HasPending(s, s.readers[r].pair)
    case Serve(r) =>
      r in s.readers && s.readers[r].Rechecked? && s.readers[r].generation == Generation(s, s.readers[r].pair)
    case Compute(r) => r in s.readers && s.readers[r].Miss?
    case Store(r) => r in s.readers && s.readers[r].Computed? && !HasPending(s, s.readers[r].pair)
    case Drop(r) => r in s.readers
  }

  function BumpEpoch(s: State, p: Pair): State {
    s.(epochs := s.epochs[p := Epochs(s, p) + [Commits(s, p)]])
  }

  function SetStatus(s: State, k: JobKey, status: Status): State
    requires k in s.jobs
  {
    s.(jobs := s.jobs[k := s.jobs[k].(status := status)])
  }

  function SetReader(s: State, r: nat, reader: Reader): State {
    s.(readers := s.readers[r := reader])
  }

  /** `enqueue_job` returns a row that already carries the dedupe key, whatever its status. */
  function Enqueue(s: State, p: Pair, k: JobKey): State {
    var n := Commits(s, p) + 1;
    var job := if k in s.jobs then s.jobs[k].(guards := s.jobs[k].guards + {n}) else Job(p, Pending, {n});
    s.(commits := s.commits[p := n], jobs := s.jobs[k := job])
  }

  function NextFlush(s: State, f: nat, outcome: BumpOutcome): State
    requires f in s.flushers && s.flushers[f].job in s.jobs
  {
    var flusher := s.flushers[f];
    var p := s.jobs[flusher.job].pair;
    match outcome
    case Applied => BumpEpoch(s, p).(flushers := s.flushers[f := flusher.(bumped := true)])
    case NotApplied => s.(flushers := s.flushers - {f})
    case ReplyLost => BumpEpoch(s, p).(flushers := s.flushers - {f})
    case CacheOff => s.(flushers := s.flushers[f := flusher.(bumped := true)])
  }

  function NextReader(s: State, step: Step, r: nat): State
    requires r in s.readers
  {
    var reader := s.readers[r];
    var p := reader.pair;
    match step
    case ReadGeneration(_) =>
      if reader.Checked? then SetReader(s, r, GotGeneration(p, reader.asOf, Generation(s, p))) else s
    case ReadPayload(_, entry) =>
      if !reader.GotGeneration? then s
      else if entry.None? then SetReader(s, r, Miss(p, reader.generation))
      else SetReader(s, r, Hit(p, reader.asOf, reader.generation, entry.value.version))
    case ConfirmGeneration(_) =>
      if !reader.Hit? then s
      else if Generation(s, p) == reader.generation then
        SetReader(s, r, Confirmed(p, reader.asOf, reader.generation, reader.version))
      else SetReader(s, r, Miss(p, Generation(s, p)))
    case RecheckPending(_) =>
      if reader.Confirmed? then SetReader(s, r, Rechecked(p, Commits(s, p), reader.generation, reader.version)) else s
    case Serve(_) =>
      if reader.Rechecked? then SetReader(s, r, Served(p, reader.asOf, reader.version)) else s
    case Compute(_) =>
      if reader.Miss? then SetReader(s, r, Computed(p, reader.generation, Commits(s, p))) else s
    case Store(_) =>
      if reader.Computed? then
        s.(cache := s.cache + {Entry(p, reader.generation, reader.version)}, readers := s.readers - {r})
      else s
    case _ => s.(readers := s.readers - {r})
  }

  function Next(s: State, step: Step): State {
    match step
    case CommitMutation(p, k) => Enqueue(s, p, k)
    case Lease(w, k) => if k in s.jobs then SetStatus(s, k, Leased(w)) else s
    case Release(w, k, dead) => if k in s.jobs then SetStatus(s, k, if dead then Dead else Pending) else s
    case StartFlush(f, k, worker) => s.(flushers := s.flushers[f := Flusher(k, worker, false)])
    case Bump(f, outcome) => if f in s.flushers && s.flushers[f].job in s.jobs then NextFlush(s, f, outcome) else s
    case FinishFlush(f, committed) =>
      if f !in s.flushers then s
      else
        var done := s.(flushers := s.flushers - {f});
        if committed && CanFinish(s, s.flushers[f]) then SetStatus(done, s.flushers[f].job, Completed) else done
    case CrashFlush(f) => s.(flushers := s.flushers - {f})
    case Evict(entry) => s.(cache := s.cache - {entry})
    case CheckPending(r, p) => SetReader(s, r, Checked(p, Commits(s, p)))
    case _ => if step.r in s.readers then NextReader(s, step, step.r) else s
  }

  // ---- the invariant -----------------------------------------------------------------

  /** Mutation `n` of the pair, if committed and not yet followed by a bump, has a job that is not completed. */
  ghost predicate Protected(s: State, p: Pair, n: nat) {
    Covered(s, p) < n <= Commits(s, p) ==>
      exists k :: k in s.jobs && s.jobs[k].pair == p && n in s.jobs[k].guards && Open(s.jobs[k])
  }

  ghost predicate Barrier(s: State) {
    forall p, n :: Protected(s, p, n)
  }

  ghost predicate ClockInv(s: State) {
    && (forall p, g :: 0 <= g < Generation(s, p) ==> Epochs(s, p)[g] <= Commits(s, p))
    && (forall p, g, h :: 0 <= g <= h < Generation(s, p) ==> Epochs(s, p)[g] <= Epochs(s, p)[h])
  }

  ghost predicate JobInv(s: State) {
    && (forall k, n :: k in s.jobs && n in s.jobs[k].guards ==> 1 <= n <= Commits(s, s.jobs[k].pair))
    && (forall k, l, n :: k in s.jobs && l in s.jobs && n in s.jobs[k].guards && n in s.jobs[l].guards ==>
          s.jobs[k].pair == s.jobs[l].pair ==> k == l)
  }

  /** The mutations a job guards are covered. */
  ghost predicate Released(s: State, k: JobKey)
    requires k in s.jobs
  {
    forall n :: n in s.jobs[k].guards ==> n <= Covered(s, s.jobs[k].pair)
  }

  /** A flush that has bumped and can still complete its job guards nothing newer than the bump. */
  ghost predicate FlushInv(s: State) {
    forall f :: f in s.flushers ==>
      && s.flushers[f].job in s.jobs
      && (s.flushers[f].bumped && CanFinish(s, s.flushers[f]) ==> Released(s, s.flushers[f].job))
  }

  ghost predicate EntryOk(s: State, p: Pair, generation: nat, version: nat) {
    generation <= Generation(s, p) && CoveredAt(s, p, generation) <= version
  }

  ghost predicate ReaderOk(s: State, r: Reader) {
    match r
    case Checked(p, asOf) => asOf <= Covered(s, p)
    case GotGeneration(p, asOf, g) => g <= Generation(s, p) && asOf <= CoveredAt(s, p, g)
    case Miss(p, g) => g <= Generation(s, p)
    case Hit(p, asOf, g, v) => EntryOk(s, p, g, v) && asOf <= v
    case Confirmed(p, asOf, g, v) => EntryOk(s, p, g, v) && asOf <= v
    case Rechecked(p, asOf, g, v) => EntryOk(s, p, g, v) && asOf <= Covered(s, p)
    case Served(p, asOf, v) => asOf <= v
    case Computed(p, g, v) => EntryOk(s, p, g, v)
  }

  ghost predicate CacheInv(s: State) {
    && (forall e :: e in s.cache ==> EntryOk(s, e.pair, e.generation, e.version))
    && (forall r :: r in s.readers ==> ReaderOk(s, s.readers[r]))
  }

  ghost predicate Inv(s: State) {
    Barrier(s) && ClockInv(s) && JobInv(s) && FlushInv(s) && CacheInv(s)
  }

  // ---- steps that keep the invariant -------------------------------------------------

  /** Generations only advance, and keep what they covered. */
  ghost predicate ClockGrows(s: State, t: State) {
    forall p :: Epochs(s, p) <= Epochs(t, p)
  }

  lemma CoveredStable(s: State, t: State, p: Pair, g: nat)
    requires ClockGrows(s, t) && ClockInv(t) && g <= Generation(s, p)
    ensures g <= Generation(t, p) && CoveredAt(t, p, g) == CoveredAt(s, p, g) <= Covered(t, p)
  {
    assert Epochs(s, p) <= Epochs(t, p);
  }

  lemma ReaderStable(s: State, t: State, r: Reader)
    requires ClockGrows(s, t) && ClockInv(t) && ReaderOk(s, r)
    ensures ReaderOk(t, r)
  {
    var p := r.pair;
    CoveredStable(s, t, p, Generation(s, p));
    match r
    case Checked(_, _) =>
    case GotGeneration(_, _, g) => CoveredStable(s, t, p, g);
    case Miss(_, g) => CoveredStable(s, t, p, g);
    case Hit(_, _, g, _) => CoveredStable(s, t, p, g);
    case Confirmed(_, _, g, _) => CoveredStable(s, t, p, g);
    case Rechecked(_, _, g, _) => CoveredStable(s, t, p, g);
    case Served(_, _, _) =>
    case Computed(_, g, _) => CoveredStable(s, t, p, g);
  }

  /** Cache entries and readers survive any step that only lets the clock grow. */
  lemma CacheStable(s: State, t: State)
    requires CacheInv(s) && ClockGrows(s, t) && ClockInv(t)
    requires t.cache <= s.cache
    requires forall r :: r in t.readers ==> r in s.readers && t.readers[r] == s.readers[r]
    ensures CacheInv(t)
  {
    forall e | e in t.cache
      ensures EntryOk(t, e.pair, e.generation, e.version)
    {
      CoveredStable(s, t, e.pair, e.generation);
    }
    forall r | r in t.readers
      ensures ReaderOk(t, t.readers[r])
    {
      ReaderStable(s, t, s.readers[r]);
    }
  }

  /**
    When a commit may reuse a job: the job is still open, and no flush that could complete it
    bumped before this mutation was committed.
  */
  ghost predicate ReuseHarmless(s: State, k: JobKey)
    requires k in s.jobs
  {
    && Open(s.jobs[k])
    && forall f :: f in s.flushers && s.flushers[f].job == k && s.flushers[f].bumped ==> !CanFinish(s, s.flushers[f])
  }

  /** The condition under which a step keeps the barrier; only two kinds of step need one. */
  ghost predicate Guarded(s: State, step: Step) {
    match step
    case CommitMutation(p, k) => k in s.jobs ==> ReuseHarmless(s, k)
    case Bump(f, outcome) =>
      outcome.CacheOff? && f in s.flushers && s.flushers[f].job in s.jobs && CanFinish(s, s.flushers[f]) ==>
        Released(s, s.flushers[f].job)
    case _ => true
  }

  lemma CommitKeepsBarrier(s: State, p: Pair, k: JobKey)
    requires Barrier(s) && ClockInv(s) && Enabled(s, CommitMutation(p, k))
    requires k in s.jobs ==> Open(s.jobs[k])
    ensures Barrier(Enqueue(s, p, k)) && ClockInv(Enqueue(s, p, k))
  {
    var t := Enqueue(s, p, k);
    assert forall q :: Epochs(t, q) == Epochs(s, q) && Commits(t, q) >= Commits(s, q);
    forall q, n: nat
      ensures Protected(t, q, n)
    {
      assert Protected(s, q, n);
      if q == p && n == Commits(t, p) {
        assert k in t.jobs && n in t.jobs[k].guards;
      } else if l :| l in s.jobs && s.jobs[l].pair == q && n in s.jobs[l].guards && Open(s.jobs[l]) {
        assert l in t.jobs && n in t.jobs[l].guards;
      }
    }
  }

  lemma CommitKeepsJobs(s: State, p: Pair, k: JobKey)
    requires JobInv(s) && Enabled(s, CommitMutation(p, k))
    ensures JobInv(Enqueue(s, p, k))
  {
    var t, n := Enqueue(s, p, k), Commits(s, p) + 1;
    assert forall q :: Commits(t, q) == if q == p then n else Commits(s, q);
    forall l | l in t.jobs && l != k
      ensures t.jobs[l] == s.jobs[l]
    {
    }
  }

  lemma CommitKeepsFlushes(s: State, p: Pair, k: JobKey)
    requires FlushInv(s) && Enabled(s, CommitMutation(p, k)) && Guarded(s, CommitMutation(p, k))
    ensures FlushInv(Enqueue(s, p, k))
  {
    var t := Enqueue(s, p, k);
    forall f | f in t.flushers && t.flushers[f].bumped && CanFinish(t, t.flushers[f])
      ensures Released(t, t.flushers[f].job)
    {
      assert CanFinish(s, s.flushers[f]);
      assert Released(s, s.flushers[f].job);
    }
  }

  lemma BumpCovers(s: State, p: Pair)
    requires ClockInv(s)
    ensures ClockInv(BumpEpoch(s, p)) && ClockGrows(s, BumpEpoch(s, p))
    ensures forall q :: Commits(BumpEpoch(s, p), q) == Commits(s, q)
    ensures Covered(BumpEpoch(s, p), p) == Commits(s, p)
    ensures forall q :: Covered(s, q) <= Covered(BumpEpoch(s, p), q)
  {
    var t := BumpEpoch(s, p);
    assert forall q :: q != p ==> Epochs(t, q) == Epochs(s, q);
    assert Epochs(t, p) == Epochs(s, p) + [Commits(s, p)];
    assert forall g :: 0 <= g < Generation(s, p) ==> Epochs(t, p)[g] == Epochs(s, p)[g];
  }

  /** A bump, or anything else that only moves the clock, leaves mutations protected. */
  lemma BarrierStable(s: State, t: State)
    requires Barrier(s)
    requires forall q :: Commits(t, q) == Commits(s, q) && Covered(s, q) <= Covered(t, q)
    requires forall k :: k in s.jobs ==> k in t.jobs && t.jobs[k].pair == s.jobs[k].pair && t.jobs[k].guards == s.jobs[k].guards
    requires forall k :: k in s.jobs && Open(s.jobs[k]) && t.jobs[k].status == Completed ==> Released(t, k)
    ensures Barrier(t)
  {
    forall q, n: nat
      ensures Protected(t, q, n)
    {
      assert Protected(s, q, n);
      if l :| l in s.jobs && s.jobs[l].pair == q && n in s.jobs[l].guards && Open(s.jobs[l]) {
        assert l in t.jobs && n in t.jobs[l].guards;
      }
    }
  }

  lemma BumpEpochKeepsInv(s: State, p: Pair)
    requires Inv(s)
    ensures Inv(BumpEpoch(s, p))
  {
    var t := BumpEpoch(s, p);
    BumpCovers(s, p);
    CacheStable(s, t);
    BarrierStable(s, t);
    forall f | f in t.flushers && t.flushers[f].bumped && CanFinish(t, t.flushers[f])
      ensures Released(t, t.flushers[f].job)
    {
      assert Released(s, s.flushers[f].job);
    }
  }

  lemma SetFlusherKeepsInv(s: State, f: nat, flusher: Flusher)
    requires Inv(s) && flusher.job in s.jobs
    requires flusher.bumped && CanFinish(s, flusher) ==> Released(s, flusher.job)
    ensures Inv(s.(flushers := s.flushers[f := flusher]))
  {
    var t := s.(flushers := s.flushers[f := flusher]);
    CacheStable(s, t);
    BarrierStable(s, t);
    forall g | g in t.flushers && t.flushers[g].bumped && CanFinish(t, t.flushers[g])
      ensures Released(t, t.flushers[g].job)
    {
      assert CanFinish(s, t.flushers[g]);
      assert Released(s, t.flushers[g].job);
    }
  }

  /** A bump covers whatever any job of the pair guards. */
  lemma BumpReleases(s: State, k: JobKey)
    requires Inv(s) && k in s.jobs
    ensures Released(BumpEpoch(s, s.jobs[k].pair), k)
  {
    BumpCovers(s, s.jobs[k].pair);
  }

  lemma BumpKeepsInv(s: State, f: nat, outcome: BumpOutcome)
    requires Inv(s) && Enabled(s, Bump(f, outcome)) && Guarded(s, Bump(f, outcome))
    ensures Inv(NextFlush(s, f, outcome))
  {
    var flusher := s.flushers[f];
    var p := s.jobs[flusher.job].pair;
    match outcome
    case Applied =>
      BumpEpochKeepsInv(s, p);
      BumpReleases(s, flusher.job);
      SetFlusherKeepsInv(BumpEpoch(s, p), f, flusher.(bumped := true));
    case NotApplied => DropFlusherKeepsInv(s, f);
    case ReplyLost =>
      BumpEpochKeepsInv(s, p);
      DropFlusherKeepsInv(BumpEpoch(s, p), f);
    case CacheOff => SetFlusherKeepsInv(s, f, flusher.(bumped := true));
  }

  lemma SetStatusKeepsInv(s: State, k: JobKey, status: Status)
    requires Inv(s) && k in s.jobs
    requires status == Completed ==> Released(s, k)
    requires forall f :: f in s.flushers && s.flushers[f].job == k && s.flushers[f].worker.Some? ==>
               status != Leased(s.flushers[f].worker.value)
    ensures Inv(SetStatus(s, k, status))
  {
    var t := SetStatus(s, k, status);
    CacheStable(s, t);
    assert status == Completed ==> Released(t, k);
    BarrierStable(s, t);
    forall f | f in t.flushers && t.flushers[f].bumped && CanFinish(t, t.flushers[f])
      ensures Released(t, t.flushers[f].job)
    {
      assert CanFinish(s, s.flushers[f]);
      assert Released(s, s.flushers[f].job);
    }
  }

  lemma DropFlusherKeepsInv(s: State, f: nat)
    requires Inv(s)
    ensures Inv(s.(flushers := s.flushers - {f}))
  {
    var t := s.(flushers := s.flushers - {f});
    CacheStable(s, t);
    BarrierStable(s, t);
  }

  lemma FlusherStepKeepsInv(s: State, step: Step)
    requires Inv(s) && Enabled(s, step) && Guarded(s, step)
    requires step.Lease? || step.Release? || step.StartFlush? || step.FinishFlush? || step.CrashFlush?
    ensures Inv(Next(s, step))
  {
    match step
    case Lease(w, k) => SetStatusKeepsInv(s, k, Leased(w));
    case Release(w, k, dead) => SetStatusKeepsInv(s, k, if dead then Dead else Pending);
    case StartFlush(f, k, lease) => SetFlusherKeepsInv(s, f, Flusher(k, lease, false));
    case FinishFlush(f, committed) =>
      DropFlusherKeepsInv(s, f);
      var flusher := s.flushers[f];
      if committed && CanFinish(s, flusher) {
        assert Released(s, flusher.job);
        SetStatusKeepsInv(s.(flushers := s.flushers - {f}), flusher.job, Completed);
      }
    case CrashFlush(f) => DropFlusherKeepsInv(s, f);
  }

  /** No pending job: everything committed has been covered by a bump. */
  lemma NothingPending(s: State, p: Pair)
    requires Barrier(s) && !HasPending(s, p)
    ensures Commits(s, p) <= Covered(s, p)
  {
    assert Protected(s, p, Commits(s, p));
  }

  /** Changing only readers and the cache keeps the rest of the invariant. */
  lemma ReadSideKeepsInv(s: State, t: State)
    requires Inv(s) && t == s.(cache := t.cache, readers := t.readers)
    requires forall e :: e in t.cache ==> EntryOk(s, e.pair, e.generation, e.version)
    requires forall r :: r in t.readers ==> ReaderOk(s, t.readers[r])
    ensures Inv(t)
  {
    BarrierStable(s, t);
    assert forall p :: Epochs(t, p) == Epochs(s, p);
    forall r | r in t.readers
      ensures ReaderOk(t, t.readers[r])
    {
      ReaderStable(s, t, t.readers[r]);
    }
    forall f | f in t.flushers && t.flushers[f].bumped && CanFinish(t, t.flushers[f])
      ensures Released(t, t.flushers[f].job)
    {
      assert CanFinish(s, s.flushers[f]) && Released(s, s.flushers[f].job);
    }
  }

  predicate IsReaderStep(step: Step) {
    || step.ReadGeneration? || step.ReadPayload? || step.ConfirmGeneration? || step.RecheckPending?
    || step.Serve? || step.Compute? || step.Store? || step.Drop?
  }

  lemma ReaderStepOk(s: State, step: Step)
    requires Inv(s) && IsReaderStep(step) && Enabled(s, step)
    ensures step.r in Next(s, step).readers ==> ReaderOk(s, Next(s, step).readers[step.r])
  {
    var reader := s.readers[step.r];
    assert ReaderOk(s, reader);
    if step.RecheckPending? {
      NothingPending(s, reader.pair);
    }
  }

  lemma ReaderStepKeepsInv(s: State, step: Step)
    requires Inv(s) && IsReaderStep(step) && Enabled(s, step)
    ensures Inv(Next(s, step))
  {
    var t := Next(s, step);
    ReaderStepFrame(s, step);
    ReaderStepOk(s, step);
    forall r | r in t.readers ensures ReaderOk(s, t.readers[r]) {
      if r != step.r {
        assert t.readers[r] == s.readers[r];
      }
    }
    ReadSideKeepsInv(s, t);
  }

  /** A reader's step touches its own progress and the cache, where it adds what it computed. */
  lemma ReaderStepFrame(s: State, step: Step)
    requires Inv(s) && IsReaderStep(step) && Enabled(s, step)
    ensures Next(s, step) == s.(cache := Next(s, step).cache, readers := Next(s, step).readers)
    ensures forall r :: r in Next(s, step).readers && r != step.r ==>
              r in s.readers && Next(s, step).readers[r] == s.readers[r]
    ensures forall e :: e in Next(s, step).cache ==> EntryOk(s, e.pair, e.generation, e.version)
  {
    assert ReaderOk(s, s.readers[step.r]);
  }

  lemma CheckPendingKeepsInv(s: State, r: nat, p: Pair)
    requires Inv(s) && !HasPending(s, p)
    ensures Inv(SetReader(s, r, Checked(p, Commits(s, p))))
  {
    NothingPending(s, p);
    ReadSideKeepsInv(s, SetReader(s, r, Checked(p, Commits(s, p))));
  }

  lemma CommitKeepsInv(s: State, p: Pair, k: JobKey)
    requires Inv(s) && Enabled(s, CommitMutation(p, k)) && Guarded(s, CommitMutation(p, k))
    ensures Inv(Enqueue(s, p, k))
  {
    CommitKeepsBarrier(s, p, k);
    CommitKeepsJobs(s, p, k);
    CommitKeepsFlushes(s, p, k);
    CacheStable(s, Enqueue(s, p, k));
  }

  /** Every guarded step keeps the invariant. */
  lemma StepKeepsInv(s: State, step: Step)
    requires Inv(s) && Enabled(s, step) && Guarded(s, step)
    ensures Inv(Next(s, step))
  {
    if IsReaderStep(step) {
      ReaderStepKeepsInv(s, step);
    } else {
      match step
      case CommitMutation(p, k) => CommitKeepsInv(s, p, k);
      case Bump(f, outcome) => BumpKeepsInv(s, f, outcome);
      case Evict(entry) => ReadSideKeepsInv(s, Next(s, step));
      case CheckPending(r, p) => CheckPendingKeepsInv(s, r, p);
      case _ => FlusherStepKeepsInv(s, step);
    }
  }

  // ---- runs --------------------------------------------------------------------------

  ghost predicate IsGuardedRun(s: State, steps: seq<Step>)
    decreases steps
  {
    steps == [] || (Enabled(s, steps[0]) && Guarded(s, steps[0]) && IsGuardedRun(Next(s, steps[0]), steps[1..]))
  }

  function After(s: State, steps: seq<Step>): State
    decreases steps
  {
    if steps == [] then s else After(Next(s, steps[0]), steps[1..])
  }

  lemma {:induction false} RunKeepsInv(s: State, steps: seq<Step>)
    requires Inv(s) && IsGuardedRun(s, steps)
    ensures Inv(After(s, steps))
    decreases steps
  {
    if steps != [] {
      StepKeepsInv(s, steps[0]);
      RunKeepsInv(Next(s, steps[0]), steps[1..]);
    }
  }

  const EMPTY: State := State(map[], map[], map[], {}, map[], map[])

  /**
    Over every run with Redis failures, lost replies, failed commits, crashes and concurrent
    flushes: each committed mutation not yet followed by a bump has a job that is not completed.
  */
  lemma BarrierHolds(steps: seq<Step>)
    requires IsGuardedRun(EMPTY, steps)
    ensures Barrier(After(EMPTY, steps))
  {
    RunKeepsInv(EMPTY, steps);
  }

  /**
    A recall served from the cache holds every mutation committed before its last barrier check.
  */
  lemma NeverServedStale(steps: seq<Step>, r: nat)
    requires IsGuardedRun(EMPTY, steps)
    requires r in After(EMPTY, steps).readers && After(EMPTY, steps).readers[r].Served?
    ensures After(EMPTY, steps).readers[r].version >= After(EMPTY, steps).readers[r].asOf
  {
    RunKeepsInv(EMPTY, steps);
    assert ReaderOk(After(EMPTY, steps), After(EMPTY, steps).readers[r]);
  }

  // ---- exactly which steps break the barrier -----------------------------------------

  /** The barrier stands after `step`, and still stands if any flush under way completes next. */
  ghost predicate StandsAfter(s: State, step: Step) {
    && Barrier(Next(s, step))
    && forall f :: Enabled(Next(s, step), FinishFlush(f, true)) ==> Barrier(Next(Next(s, step), FinishFlush(f, true)))
  }

  /** A completed job no longer protects what it alone guards. */
  lemma CompletedUnprotects(s: State, k: JobKey, n: nat)
    requires JobInv(s) && k in s.jobs && s.jobs[k].status == Completed && n in s.jobs[k].guards
    requires Covered(s, s.jobs[k].pair) < n
    ensures !Barrier(s)
  {
    assert !Protected(s, s.jobs[k].pair, n);
  }

  lemma CoveredAtMostCommits(s: State, p: Pair)
    requires ClockInv(s)
    ensures Covered(s, p) <= Commits(s, p)
  {
  }

  lemma HarmfulReuse(s: State, p: Pair, k: JobKey)
    requires Inv(s) && k in s.jobs && s.jobs[k].pair == p && !ReuseHarmless(s, k)
    ensures !StandsAfter(s, CommitMutation(p, k))
  {
    var t, n := Enqueue(s, p, k), Commits(s, p) + 1;
    CommitKeepsJobs(s, p, k);
    CoveredAtMostCommits(s, p);
    assert Epochs(t, p) == Epochs(s, p) && n in t.jobs[k].guards;
    if !Open(s.jobs[k]) {
      CompletedUnprotects(t, k, n);
    } else {
      var f :| f in s.flushers && s.flushers[f].job == k && s.flushers[f].bumped && CanFinish(s, s.flushers[f]);
      var u := Next(t, FinishFlush(f, true));
      assert CanFinish(t, t.flushers[f]);
      assert Epochs(u, p) == Epochs(s, p);
      CompletedUnprotects(u, k, n);
    }
  }

  lemma HarmfulCacheOff(s: State, f: nat)
    requires Inv(s) && Enabled(s, Bump(f, CacheOff)) && !Guarded(s, Bump(f, CacheOff))
    ensures !StandsAfter(s, Bump(f, CacheOff))
  {
    var t, k := Next(s, Bump(f, CacheOff)), s.flushers[f].job;
    var n :| n in s.jobs[k].guards && n > Covered(s, s.jobs[k].pair);
    var u := Next(t, FinishFlush(f, true));
    assert CanFinish(t, t.flushers[f]);
    assert Epochs(u, s.jobs[k].pair) == Epochs(s, s.jobs[k].pair);
    CompletedUnprotects(u, k, n);
  }

  /**
    The guard is exact: a step keeps the barrier, through the completion of any flush already
    under way, if and only if it is guarded. What fails otherwise is a commit that reuses a job
    already completed or bumped too early, or a flush from a process with its cache switched off.
  */
  lemma GuardExact(s: State, step: Step)
    requires Inv(s) && Enabled(s, step)
    ensures StandsAfter(s, step) <==> Guarded(s, step)
  {
    if Guarded(s, step) {
      StepKeepsInv(s, step);
      forall f | Enabled(Next(s, step), FinishFlush(f, true))
        ensures Barrier(Next(Next(s, step), FinishFlush(f, true)))
      {
        StepKeepsInv(Next(s, step), FinishFlush(f, true));
      }
    } else {
      match step
      case CommitMutation(p, k) => HarmfulReuse(s, p, k);
      case Bump(f, outcome) => HarmfulCacheOff(s, f);
      case _ =>
    }
  }

  // ---- runs that lose the barrier ----------------------------------------------------

  /** A run that need not be guarded. */
  ghost predicate IsRun(s: State, steps: seq<Step>)
    decreases steps
  {
    steps == [] || (Enabled(s, steps[0]) && IsRun(Next(s, steps[0]), steps[1..]))
  }

  lemma {:induction false} RunSnoc(s: State, steps: seq<Step>, step: Step)
    requires IsRun(s, steps) && Enabled(After(s, steps), step)
    ensures IsRun(s, steps + [step]) && After(s, steps + [step]) == Next(After(s, steps), step)
    decreases steps
  {
    if steps == [] {
      assert steps + [step] == [step] && [step][1..] == [];
      assert IsRun(Next(s, step), []);
    } else {
      assert (steps + [step])[1..] == steps[1..] + [step];
      RunSnoc(Next(s, steps[0]), steps[1..], step);
    }
  }

  /** One mutation, committed with job 0, and its flush up to the final commit. */
  function FlushRun(p: Pair, outcome: BumpOutcome): seq<Step> {
    [CommitMutation(p, 0), StartFlush(0, 0, None)] + [Bump(0, outcome)] + [FinishFlush(0, true)]
  }

  /** The first two steps of that run, and the store they lead to. */
  lemma FlushStarts(p: Pair)
    ensures var steps := [CommitMutation(p, 0), StartFlush(0, 0, None)];
            && IsRun(EMPTY, steps)
            && After(EMPTY, steps) == State(map[p := 1], map[0 := Job(p, Pending, {1})], map[], {}, map[0 := Flusher(0, None, false)], map[])
  {
    var committed := State(map[p := 1], map[0 := Job(p, Pending, {1})], map[], {}, map[], map[]);
    assert IsRun(EMPTY, []);
    RunSnoc(EMPTY, [], CommitMutation(p, 0));
    assert [] + [CommitMutation(p, 0)] == [CommitMutation(p, 0)];
    assert After(EMPTY, [CommitMutation(p, 0)]) == committed;
    RunSnoc(EMPTY, [CommitMutation(p, 0)], StartFlush(0, 0, None));
    assert [CommitMutation(p, 0)] + [StartFlush(0, 0, None)] == [CommitMutation(p, 0), StartFlush(0, 0, None)];
  }

  lemma FlushRuns(p: Pair, outcome: BumpOutcome)
    requires outcome.Applied? || outcome.CacheOff?
    ensures IsRun(EMPTY, FlushRun(p, outcome))
    ensures After(EMPTY, FlushRun(p, outcome))
            == State(map[p := 1], map[0 := Job(p, Completed, {1})], if outcome.Applied? then map[p := [1]] else map[], {}, map[], map[])
  {
    var steps := [CommitMutation(p, 0), StartFlush(0, 0, None)];
    FlushStarts(p);
    RunSnoc(EMPTY, steps, Bump(0, outcome));
    var bumped := After(EMPTY, steps + [Bump(0, outcome)]);
    if outcome.Applied? {
      assert Epochs(After(EMPTY, steps), p) + [1] == [1];
      assert bumped.epochs == map[p := [1]];
    }
    assert bumped.flushers == map[0 := Flusher(0, None, true)];
    assert bumped == State(map[p := 1], map[0 := Job(p, Pending, {1})], if outcome.Applied? then map[p := [1]] else map[],
                           {}, map[0 := Flusher(0, None, true)], map[]);
    RunSnoc(EMPTY, steps + [Bump(0, outcome)], FinishFlush(0, true));
    assert steps + [Bump(0, outcome)] + [FinishFlush(0, true)] == FlushRun(p, outcome);
    assert CanFinish(bumped, Flusher(0, None, true));
    assert Next(bumped, FinishFlush(0, true)).jobs == map[0 := Job(p, Completed, {1})];
    assert Next(bumped, FinishFlush(0, true)).flushers == map[];
  }

  /** From an empty store: a second mutation that brings back the first one's completed job. */
  lemma ReuseLosesBarrier(p: Pair)
    ensures var steps := FlushRun(p, Applied) + [CommitMutation(p, 0)];
            IsRun(EMPTY, steps) && !Barrier(After(EMPTY, steps))
  {
    FlushRuns(p, Applied);
    RunSnoc(EMPTY, FlushRun(p, Applied), CommitMutation(p, 0));
    var s := After(EMPTY, FlushRun(p, Applied) + [CommitMutation(p, 0)]);
    assert Covered(s, p) == 1 && Commits(s, p) == 2;
    assert !Protected(s, p, 2);
  }

  /** From an empty store: a flush from a process whose cache is switched off. */
  lemma CacheOffLosesBarrier(p: Pair)
    ensures IsRun(EMPTY, FlushRun(p, CacheOff)) && !Barrier(After(EMPTY, FlushRun(p, CacheOff)))
  {
    FlushRuns(p, CacheOff);
    var s := After(EMPTY, FlushRun(p, CacheOff));
    assert Covered(s, p) == 0 && Commits(s, p) == 1;
    assert !Protected(s, p, 1);
  }

  // ---- the flush operations ----------------------------------------------------------

  /** The database rows and the Redis counters, with the operations of one uninterrupted caller. */
  class BarrierStore {
    var commits: map<Pair, nat>
    var jobs: map<JobKey, Job>
    var epochs: map<Pair, seq<nat>>

    ghost function Abstract(): State
      reads this
    {
      State(commits, jobs, epochs, {}, map[], map[])
    }

    constructor ()
      ensures Abstract() == EMPTY && Inv(Abstract())
    {
      commits, jobs, epochs := map[], map[], map[];
    }

    /** A negative answer means that every committed mutation of the pair has been followed by a bump. */
    method HasPendingRecallInvalidation(p: Pair) returns (pending: bool)
      ensures pending <==> HasPending(Abstract(), p)
      ensures Inv(Abstract()) && !pending ==> Commits(Abstract(), p) <= Covered(Abstract(), p)
    {
      pending := exists k :: k in jobs && jobs[k].pair == p && Open(jobs[k]);
      if Inv(Abstract()) && !pending {
        NothingPending(Abstract(), p);
      }
    }

    /** Commit a mutation with its job; a key already in use brings back its job, whatever its status. */
    method QueueRecallInvalidation(p: Pair, key: JobKey)
      requires Inv(Abstract()) && (key in jobs ==> jobs[key].pair == p)
      modifies this
      ensures Abstract() == Enqueue(old(Abstract()), p, key)
      ensures Inv(Abstract()) <==> (key in old(jobs) ==> Open(old(jobs)[key]))
    {
      ghost var before := Abstract();
      var n := (if p in commits then commits[p] else 0) + 1;
      var job := if key in jobs then jobs[key].(guards := jobs[key].guards + {n}) else Job(p, Pending, {n});
      commits, jobs := commits[p := n], jobs[key := job];
      if key in before.jobs && !Open(before.jobs[key]) {
        ReuseBreaksBarrier(before, p, key);
      } else {
        CommitKeepsInv(before, p, key);
      }
    }

    /**
      Bump Redis, then release the barrier. `redis` is how INCR went and `persisted` whether the
      final commit succeeded. Returning without an error completes the job, and everything it
      guards is covered unless the bump was never sent; an error leaves every job as it was.
    */
    method FlushRecallInvalidation(key: JobKey, redis: BumpOutcome, persisted: bool) returns (raised: bool)
      requires key in jobs
      modifies this`jobs, this`epochs
      ensures raised <==> Raises(old(Abstract()), key, redis, persisted)
      ensures jobs == if raised then old(jobs) else old(jobs)[key := old(jobs)[key].(status := Completed)]
      ensures Abstract() == Flushed(old(Abstract()), key, redis, persisted)
      ensures raised <==> old(jobs)[key].status != Completed && (redis == NotApplied || redis == ReplyLost || !persisted)
      ensures epochs == if old(jobs)[key].status == Completed || redis == NotApplied || redis == CacheOff then old(epochs)
                        else var p := old(jobs)[key].pair;
                             old(epochs)[p := (if p in old(epochs) then old(epochs)[p] else [])
                                              + [if p in old(commits) then old(commits)[p] else 0]]
    {
      if jobs[key].status == Completed {
        assert jobs == jobs[key := jobs[key].(status := Completed)];
        return false;
      }
      var p := jobs[key].pair;
      if redis.Applied? || redis.ReplyLost? {
        epochs := epochs[p := (if p in epochs then epochs[p] else []) + [if p in commits then commits[p] else 0]];
      }
      if redis.NotApplied? || redis.ReplyLost? || !persisted {
        return true;
      }
      jobs := jobs[key := jobs[key].(status := Completed)];
      return false;
    }

    /** Flush the listed jobs in order, stopping at the first error. */
    method FlushPendingRecallInvalidations(keys: seq<JobKey>, redis: seq<BumpOutcome>, persisted: seq<bool>)
      returns (count: nat, raised: bool)
      requires Listed(Abstract(), keys, redis) && |persisted| == |keys|
      modifies this`jobs, this`epochs
      ensures FlushesEnd(old(Abstract()), keys, redis, persisted, count, raised)
      ensures Abstract() == FlushedAll(old(Abstract()), keys, redis, persisted, if raised then count + 1 else count)
    {
      ghost var before := Abstract();
      for i := 0 to |keys|
        invariant Abstract() == FlushedAll(before, keys, redis, persisted, i)
        invariant NoneRaises(before, keys, redis, persisted, i)
      {
        raised := FlushRecallInvalidation(keys[i], redis[i], persisted[i]);
        if raised {
          return i, raised;
        }
      }
      return |keys|, false;
    }
  }

  predicate Raises(s: State, k: JobKey, redis: BumpOutcome, persisted: bool)
    requires k in s.jobs
  {
    Open(s.jobs[k]) && !Succeeds(redis, persisted)
  }

  /** The state that uninterrupted flushes of the first `n` jobs leave. */
  function FlushedAll(s: State, keys: seq<JobKey>, redis: seq<BumpOutcome>, persisted: seq<bool>, n: nat): (t: State)
    requires Listed(s, keys, redis) && n <= |keys| == |persisted|
    ensures t.jobs.Keys == s.jobs.Keys && t.flushers == s.flushers
  {
    if n == 0 then s
    else
      var before := FlushedAll(s, keys, redis, persisted, n - 1);
      FlushedJobs(before, keys[n - 1], redis[n - 1], persisted[n - 1]);
      Flushed(before, keys[n - 1], redis[n - 1], persisted[n - 1])
  }

  predicate NoneRaises(s: State, keys: seq<JobKey>, redis: seq<BumpOutcome>, persisted: seq<bool>, n: nat)
    requires Listed(s, keys, redis) && n <= |keys| == |persisted|
  {
    n == 0
    || (NoneRaises(s, keys, redis, persisted, n - 1)
        && !Raises(FlushedAll(s, keys, redis, persisted, n - 1), keys[n - 1], redis[n - 1], persisted[n - 1]))
  }

  /** The first `count` flushes succeed, and the next one, if there is one, raises. */
  predicate FlushesEnd(s: State, keys: seq<JobKey>, redis: seq<BumpOutcome>, persisted: seq<bool>, count: nat, raised: bool)
    requires Listed(s, keys, redis) && |keys| == |persisted|
  {
    && count <= |keys| && (raised <==> count < |keys|)
    && NoneRaises(s, keys, redis, persisted, count)
    && (raised ==> Raises(FlushedAll(s, keys, redis, persisted, count), keys[count], redis[count], persisted[count]))
  }

  /**
    What flushing the listed jobs achieves: those before the first error are done, and the others
    are as they were. If none of these was harmful, the invariant holds and what they guard is covered.
  */
  lemma FlushesMeaning(s: State, keys: seq<JobKey>, redis: seq<BumpOutcome>, persisted: seq<bool>, count: nat, raised: bool)
    requires Inv(s) && s.flushers == map[] && Listed(s, keys, redis) && |persisted| == |keys|
    requires FlushesEnd(s, keys, redis, persisted, count, raised)
    ensures FlushedUpTo(s, FlushedAll(s, keys, redis, persisted, if raised then count + 1 else count), keys, redis, count)
    ensures var t := FlushedAll(s, keys, redis, persisted, if raised then count + 1 else count);
            && (forall i :: 0 <= i < count ==> t.jobs[keys[i]].status == Completed)
            && (forall k :: k in s.jobs && k !in keys[..count] ==> t.jobs[k] == s.jobs[k])
  {
    FlushesSoFar(s, keys, redis, persisted, count);
    if raised {
      FlushOneMore(s, keys, redis, persisted, count);
    }
  }

  lemma {:induction false} FlushesSoFar(s: State, keys: seq<JobKey>, redis: seq<BumpOutcome>, persisted: seq<bool>, n: nat)
    requires Inv(s) && s.flushers == map[] && Listed(s, keys, redis) && n <= |keys| == |persisted|
    requires NoneRaises(s, keys, redis, persisted, n)
    ensures FlushedUpTo(s, FlushedAll(s, keys, redis, persisted, n), keys, redis, n)
    decreases n
  {
    if n == 0 {
      FlushesBegin(s, keys, redis);
    } else {
      FlushesSoFar(s, keys, redis, persisted, n - 1);
      FlushOneMore(s, keys, redis, persisted, n - 1);
    }
  }

  lemma FlushOneMore(s: State, keys: seq<JobKey>, redis: seq<BumpOutcome>, persisted: seq<bool>, n: nat)
    requires Listed(s, keys, redis) && n < |keys| == |persisted| && s.flushers == map[]
    requires FlushedUpTo(s, FlushedAll(s, keys, redis, persisted, n), keys, redis, n)
    ensures FlushedUpTo(s, FlushedAll(s, keys, redis, persisted, n + 1), keys, redis,
                        if Raises(FlushedAll(s, keys, redis, persisted, n), keys[n], redis[n], persisted[n]) then n else n + 1)
  {
    var before := FlushedAll(s, keys, redis, persisted, n);
    assert FlushedAll(s, keys, redis, persisted, n + 1) == Flushed(before, keys[n], redis[n], persisted[n]);
    FlushStep(s, before, keys, redis, n, persisted[n]);
  }

  /** The first `count` jobs are done, and the others as they were. */
  predicate Progress(before: map<JobKey, Job>, now: map<JobKey, Job>, keys: seq<JobKey>, count: nat) {
    && count <= |keys| && now.Keys == before.Keys
    && (forall i :: 0 <= i < count ==> keys[i] in now && !Open(now[keys[i]]))
    && forall k :: k in now && k !in keys[..count] ==> now[k] == before[k]
  }

  lemma ProgressStep(before: map<JobKey, Job>, now: map<JobKey, Job>, keys: seq<JobKey>, count: nat)
    requires Progress(before, now, keys, count) && count < |keys| && keys[count] in now
    ensures Progress(before, now[keys[count] := now[keys[count]].(status := Completed)], keys, count + 1)
  {
    assert keys[..count + 1] == keys[..count] + [keys[count]];
  }

  /** INCR counts as done when it answered, and when the cache is switched off. */
  predicate Succeeds(redis: BumpOutcome, persisted: bool) {
    (redis.Applied? || redis.CacheOff?) && persisted
  }

  /** The state an uninterrupted flush leaves. */
  function Flushed(s: State, k: JobKey, redis: BumpOutcome, persisted: bool): State
    requires k in s.jobs
  {
    if !Open(s.jobs[k]) then s
    else
      var bumped := if redis.Applied? || redis.ReplyLost? then BumpEpoch(s, s.jobs[k].pair) else s;
      if Succeeds(redis, persisted) then SetStatus(bumped, k, Completed) else bumped
  }

  /** What was covered stays covered. */
  ghost predicate KeepsReleased(s: State, t: State) {
    t.jobs.Keys == s.jobs.Keys && forall k :: k in s.jobs && Released(s, k) ==> Released(t, k)
  }

  /** The jobs to flush, each with the outcome of its bump. */
  predicate Listed(s: State, keys: seq<JobKey>, redis: seq<BumpOutcome>) {
    |redis| == |keys| && forall i :: 0 <= i < |keys| ==> keys[i] in s.jobs
  }

  /** Every job flushed with the cache switched off was covered beforehand. */
  ghost predicate Harmless(s: State, keys: seq<JobKey>, redis: seq<BumpOutcome>, count: nat)
    requires count <= |keys| && Listed(s, keys, redis)
  {
    forall i :: 0 <= i < count && redis[i].CacheOff? ==> Released(s, keys[i])
  }

  lemma FlushedKeepsReleased(s: State, k: JobKey, redis: BumpOutcome, persisted: bool)
    requires Inv(s) && k in s.jobs
    ensures KeepsReleased(s, Flushed(s, k, redis, persisted))
  {
    forall l | l in s.jobs && Released(s, l) ensures Released(Flushed(s, k, redis, persisted), l) {
      FlushedKeepsOne(s, k, redis, persisted, l);
    }
  }

  lemma FlushedKeepsOne(s: State, k: JobKey, redis: BumpOutcome, persisted: bool, l: JobKey)
    requires Inv(s) && k in s.jobs && l in s.jobs && Released(s, l)
    ensures Released(Flushed(s, k, redis, persisted), l)
  {
    var t := Flushed(s, k, redis, persisted);
    FlushedCovers(s, k, redis, persisted, s.jobs[l].pair);
    assert t.jobs[l].guards == s.jobs[l].guards && t.jobs[l].pair == s.jobs[l].pair;
  }

  lemma FlushedCovers(s: State, k: JobKey, redis: BumpOutcome, persisted: bool, p: Pair)
    requires Inv(s) && k in s.jobs
    ensures Covered(Flushed(s, k, redis, persisted), p) >= Covered(s, p)
  {
    BumpCovers(s, s.jobs[k].pair);
    CoveredAtMostCommits(s, p);
  }

  /**
    A flush with nothing else under way keeps the invariant exactly if it did not complete, with
    the cache switched off, a job that was not covered before.
  */
  lemma FlushedInvIff(s: State, k: JobKey, redis: BumpOutcome, persisted: bool)
    requires Inv(s) && k in s.jobs && s.flushers == map[]
    ensures Inv(Flushed(s, k, redis, persisted)) <==> (redis.CacheOff? && persisted ==> Released(s, k))
    ensures Inv(Flushed(s, k, redis, persisted)) && (Succeeds(redis, persisted) || !Open(s.jobs[k])) ==>
              Released(Flushed(s, k, redis, persisted), k)
  {
    var t := Flushed(s, k, redis, persisted);
    if !Open(s.jobs[k]) {
      CompletedIsReleased(s, k);
    } else if redis.Applied? || redis.ReplyLost? {
      BumpEpochKeepsInv(s, s.jobs[k].pair);
      BumpReleases(s, k);
      if Succeeds(redis, persisted) {
        SetStatusKeepsInv(BumpEpoch(s, s.jobs[k].pair), k, Completed);
        CompletedIsReleased(t, k);
      }
    } else if Succeeds(redis, persisted) {
      CacheOffInvIff(s, k);
    }
  }

  lemma HarmlessStep(before: State, s: State, k: JobKey, redis: BumpOutcome, persisted: bool)
    requires Inv(s) && KeepsReleased(before, s) && k in before.jobs && s.flushers == map[]
    ensures var t := Flushed(s, k, redis, persisted);
            HarmlessOne(before, k, redis, persisted) ==> Inv(t) && KeepsReleased(before, t)
  {
    FlushedInvIff(s, k, redis, persisted);
    FlushedKeepsReleased(s, k, redis, persisted);
  }

  /**
    The first `count` jobs are done and the others as they were. If none of these flushes was
    harmful, the invariant holds and what the jobs guard is covered.
  */
  ghost predicate FlushedUpTo(before: State, now: State, keys: seq<JobKey>, redis: seq<BumpOutcome>, count: nat)
    requires Listed(before, keys, redis)
  {
    && Progress(before.jobs, now.jobs, keys, count)
    && (Harmless(before, keys, redis, count) ==> Unharmed(before, now, keys[..count]))
  }

  ghost predicate HarmlessOne(before: State, k: JobKey, redis: BumpOutcome, persisted: bool)
    requires k in before.jobs
  {
    redis.CacheOff? && persisted ==> Released(before, k)
  }

  /** The invariant holds, what was covered still is, and what the jobs `done` guard is covered. */
  ghost predicate Unharmed(before: State, now: State, done: seq<JobKey>) {
    && Inv(now) && KeepsReleased(before, now)
    && forall i :: 0 <= i < |done| ==> done[i] in now.jobs && Released(now, done[i])
  }

  lemma FlushesBegin(s: State, keys: seq<JobKey>, redis: seq<BumpOutcome>)
    requires Inv(s) && Listed(s, keys, redis)
    ensures FlushedUpTo(s, s, keys, redis, 0)
  {
  }

  lemma FlushStep(before: State, s: State, keys: seq<JobKey>, redis: seq<BumpOutcome>, count: nat, persisted: bool)
    requires Listed(before, keys, redis)
    requires FlushedUpTo(before, s, keys, redis, count) && count < |keys| && s.flushers == map[]
    ensures FlushedUpTo(before, Flushed(s, keys[count], redis[count], persisted), keys, redis,
                        if Raises(s, keys[count], redis[count], persisted) then count else count + 1)
  {
    ProgressStep(before.jobs, s.jobs, keys, count);
    FlushedJobs(s, keys[count], redis[count], persisted);
    assert keys[..count + 1] == keys[..count] + [keys[count]];
    if Harmless(before, keys, redis, count) && HarmlessOne(before, keys[count], redis[count], persisted) {
      UnharmedStep(before, s, keys[..count], keys[count], redis[count], persisted);
    }
  }

  lemma UnharmedStep(before: State, s: State, done: seq<JobKey>, k: JobKey, redis: BumpOutcome, persisted: bool)
    requires Unharmed(before, s, done) && k in before.jobs && s.flushers == map[]
    requires HarmlessOne(before, k, redis, persisted)
    ensures var t := Flushed(s, k, redis, persisted);
            && Unharmed(before, t, done)
            && (!Open(t.jobs[k]) ==> Unharmed(before, t, done + [k]))
  {
    HarmlessStep(before, s, k, redis, persisted);
    FlushedReleases(s, k, redis, persisted);
  }

  lemma FlushedReleases(s: State, k: JobKey, redis: BumpOutcome, persisted: bool)
    requires Inv(s) && k in s.jobs
    ensures var t := Flushed(s, k, redis, persisted);
            && (forall l :: l in s.jobs && Released(s, l) ==> l in t.jobs && Released(t, l))
            && (Inv(t) && !Open(t.jobs[k]) ==> Released(t, k))
  {
    FlushedKeepsReleased(s, k, redis, persisted);
    var t := Flushed(s, k, redis, persisted);
    if Inv(t) && !Open(t.jobs[k]) {
      CompletedIsReleased(t, k);
    }
  }

  lemma FlushedJobs(s: State, k: JobKey, redis: BumpOutcome, persisted: bool)
    requires k in s.jobs
    ensures Flushed(s, k, redis, persisted).jobs
         == if Raises(s, k, redis, persisted) then s.jobs else s.jobs[k := s.jobs[k].(status := Completed)]
    ensures Flushed(s, k, redis, persisted).flushers == s.flushers
  {
  }

  lemma CacheOffInvIff(s: State, k: JobKey)
    requires Inv(s) && k in s.jobs && s.flushers == map[]
    ensures Inv(SetStatus(s, k, Completed)) <==> Released(s, k)
    ensures Inv(SetStatus(s, k, Completed)) ==> Released(SetStatus(s, k, Completed), k)
  {
    var t := SetStatus(s, k, Completed);
    if Released(s, k) {
      SetStatusKeepsInv(s, k, Completed);
    } else {
      var n :| n in s.jobs[k].guards && n > Covered(s, s.jobs[k].pair);
      if JobInv(t) {
        CompletedUnprotects(t, k, n);
      }
    }
  }

  /** Committing onto a completed job leaves the new mutation unprotected at once. */
  lemma ReuseBreaksBarrier(s: State, p: Pair, k: JobKey)
    requires Inv(s) && k in s.jobs && s.jobs[k].pair == p && !Open(s.jobs[k])
    ensures !Barrier(Enqueue(s, p, k))
  {
    var t := Enqueue(s, p, k);
    CommitKeepsJobs(s, p, k);
    CoveredAtMostCommits(s, p);
    assert Epochs(t, p) == Epochs(s, p);
    CompletedUnprotects(t, k, Commits(s, p) + 1);
  }

  /** A completed job guards nothing uncovered. */
  lemma CompletedIsReleased(s: State, k: JobKey)
    requires Inv(s) && k in s.jobs && s.jobs[k].status == Completed
    ensures Released(s, k)
  {
    forall n | n in s.jobs[k].guards
      ensures n <= Covered(s, s.jobs[k].pair)
    {
      if n > Covered(s, s.jobs[k].pair) {
        CompletedUnprotects(s, k, n);
      }
    }
  }
}
