/**
  The held-for-review queue over every interleaving of writes and reviews.
  Source: agentmem/src/lians/admission_service.py, `enforce_memory_admission` and
  `resolve_pending`; agentmem/src/lians/memory_service.py, the commit of `add_memory` and the
  cache flush behind it.
*/
module ReviewRuns {
  import opened Prelude
  import opened Admission
  import opened ReviewQueue

  /** The commits of writes and reviews, the reading of an item's status, and the early end of a review. */
  datatype Step =
    | Write(namespace: string, request: Request, override: Option<string>, decision: Decision, id: nat)
    | Check(v: nat, review: Review)
    | CommitRejection(v: nat)
    | StoreMemory(v: nat, id: nat)
    | CommitApproval(v: nat)
    | Abandon(v: nat)

  predicate FreshId(s: State, id: nat) {
    id !in s.pendings && id !in s.memories
  }

  ghost predicate Enabled(policy: Policy, s: State, step: Step) {
    match step
    case Write(_, request, _, decision, id) => FreshId(s, id) && Decides(policy, request, decision)
    case Check(v, review) => v !in s.reviews && Checked(s.pendings, review).None?
    case CommitRejection(v) => Rejecting(s, v)
    case StoreMemory(v, id) => Approving(s, v) && FreshId(s, id)
    case CommitApproval(v) => Finishing(s, v)
    case Abandon(v) => v in s.reviews
  }

  ghost function Next(policy: Policy, s: State, step: Step): State
    requires Enabled(policy, s, step)
  {
    match step
    case Write(namespace, request, override, decision, id) => Written(policy, s, namespace, request, override, decision, id)
    case Check(v, review) => Begin(s, v, review)
    case CommitRejection(v) => RejectionDone(s, v)
    case StoreMemory(v, id) => MemoryDone(policy, s, v, id)
    case CommitApproval(v) => ApprovalDone(s, v)
    case Abandon(v) => Abandoned(s, v)
  }

  ghost predicate Runs(policy: Policy, s: State, steps: seq<Step>)
    decreases |steps|
  {
    steps == [] || (Enabled(policy, s, steps[0]) && Runs(policy, Next(policy, s, steps[0]), steps[1..]))
  }

  ghost function After(policy: Policy, s: State, steps: seq<Step>): State
    requires Runs(policy, s, steps)
    decreases |steps|
  {
    if steps == [] then s else After(policy, Next(policy, s, steps[0]), steps[1..])
  }

  const EMPTY := State(map[], map[], [], map[], {}, {})

  // ---- the invariant -----------------------------------------------------------------

  ghost predicate InProgress(s: State, memory: nat) {
    exists v :: v in s.reviews && s.reviews[v].HalfDone? && s.reviews[v].memory == memory
  }

  /** The approval that the item records is that of the memory. */
  predicate ApprovedAs(s: State, item: nat, memory: nat) {
    item in s.pendings && s.pendings[item].status == Approved && s.pendings[item].memoryId == Some(memory)
  }

  ghost predicate LoggedRejected(s: State, item: nat) {
    exists e :: e in s.log && e.op == ReviewRejected && e.item == Some(item)
  }

  /** A held item: sensitive, otherwise clean; the memory it names was stored for it. */
  ghost predicate PendingOk(s: State, item: nat)
    requires item in s.pendings
  {
    var p := s.pendings[item];
    && Clean(p.tags) && Sensitive(p.tags)
    && (p.status == Waiting ==> p.memoryId.None?)
    && (p.status == Approved ==> p.memoryId.Some?)
    && (p.memoryId.Some? ==>
          && p.memoryId.value in s.memories && s.memories[p.memoryId.value].origin == Some(item)
          && p.memoryId.value !in s.halfway && !InProgress(s, p.memoryId.value))
  }

  /** A memory is clean; if sensitive it came from a held item, of which it keeps text, tags and barrier. */
  predicate MemoryOk(s: State, id: nat)
    requires id in s.memories
  {
    var m := s.memories[id];
    && Clean(m.tags)
    && (Sensitive(m.tags) ==> m.origin.Some?)
    && (m.origin.Some? ==>
          && m.origin.value in s.pendings
          && var p := s.pendings[m.origin.value];
             && m.namespace == p.namespace && m.request == p.request && m.tags == p.tags
             && (p.barrier.Some? && p.barrier.value != "" ==> m.barrier == p.barrier))
  }

  /** A review under way passed its checks; an approval past its first commit stored its own memory. */
  predicate ReviewOk(s: State, v: nat)
    requires v in s.reviews
  {
    var r := s.reviews[v].review;
    && r.id in s.pendings && s.pendings[r.id].namespace == r.namespace
    && (r.override.Some? ==> s.pendings[r.id].barrier == None || s.pendings[r.id].barrier == r.override)
    && (s.reviews[v].HalfDone? ==>
          && Approves(r) && s.reviews[v].memory in s.memories
          && s.memories[s.reviews[v].memory].origin == Some(r.id) && s.reviews[v].memory !in s.halfway)
  }

  /** Two reviews under way store different memories; if they are of one item, that is on record. */
  ghost predicate Separate(s: State, u: nat, v: nat)
    requires u in s.reviews && v in s.reviews
  {
    && (s.reviews[u].review.id == s.reviews[v].review.id ==> s.reviews[u].review.id in s.overlaps)
    && (s.reviews[u].HalfDone? && s.reviews[v].HalfDone? ==> s.reviews[u].memory != s.reviews[v].memory)
  }

  ghost predicate StateInv(s: State) {
    && (forall item :: item in s.pendings ==> PendingOk(s, item))
    && (forall id :: id in s.memories ==> MemoryOk(s, id))
    && (forall v :: v in s.reviews ==> ReviewOk(s, v))
    && (forall u, v :: u in s.reviews && v in s.reviews && u != v ==> Separate(s, u, v))
    && (forall id :: id in s.halfway ==> id in s.memories)
    && (forall e :: e in s.log && e.op == ReviewRejected ==> e.item.Some? && e.item.value in s.pendings)
  }

  /** While reviews of the item do not overlap: it waits during a review, */
  ghost predicate WaitsInReview(s: State, v: nat)
    requires v in s.reviews && s.reviews[v].review.id in s.pendings
  {
    s.reviews[v].review.id !in s.overlaps ==> s.pendings[s.reviews[v].review.id].status == Waiting
  }

  /** each of its memories is cut off, still in progress, or the one it was approved as, */
  ghost predicate Settled(s: State, id: nat)
    requires id in s.memories
  {
    var origin := s.memories[id].origin;
    origin.Some? && origin.value !in s.overlaps ==>
      id in s.halfway || InProgress(s, id) || ApprovedAs(s, origin.value, id)
  }

  /** and it is rejected exactly if a rejection of it is logged. */
  ghost predicate LogOk(s: State, item: nat)
    requires item in s.pendings
  {
    && (s.pendings[item].status == Rejected ==> LoggedRejected(s, item))
    && (item !in s.overlaps && LoggedRejected(s, item) ==> s.pendings[item].status == Rejected)
  }

  ghost predicate SoloInv(s: State) {
    && (forall v :: v in s.reviews && s.reviews[v].review.id in s.pendings ==> WaitsInReview(s, v))
    && (forall id :: id in s.memories ==> Settled(s, id))
    && (forall item :: item in s.pendings ==> LogOk(s, item))
  }

  ghost predicate Inv(s: State) {
    StateInv(s) && SoloInv(s)
  }

  /** The parts of a step's effect on other objects. */
  lemma OtherItems(policy: Policy, s: State, step: Step, item: nat)
    requires Enabled(policy, s, step) && item in s.pendings
    requires step.CommitRejection? || step.StoreMemory? || step.CommitApproval? ==> s.reviews[step.v].review.id != item
    ensures item in Next(policy, s, step).pendings && Next(policy, s, step).pendings[item] == s.pendings[item]
  {
  }

  lemma MemoriesStay(policy: Policy, s: State, step: Step, id: nat)
    requires Enabled(policy, s, step) && id in s.memories
    ensures id in Next(policy, s, step).memories && Next(policy, s, step).memories[id] == s.memories[id]
  {
  }

  lemma ItemsStay(policy: Policy, s: State, step: Step, item: nat)
    requires Enabled(policy, s, step) && item in s.pendings
    ensures var next := Next(policy, s, step);
            && item in next.pendings
            && next.pendings[item].(status := Waiting, memoryId := None, note := "")
               == s.pendings[item].(status := Waiting, memoryId := None, note := "")
  {
  }

  lemma ProgressAfter(policy: Policy, s: State, step: Step, memory: nat)
    requires Enabled(policy, s, step) && memory in s.memories
    ensures InProgress(Next(policy, s, step), memory) ==> InProgress(s, memory)
    ensures InProgress(s, memory) ==>
              || InProgress(Next(policy, s, step), memory)
              || ((step.CommitApproval? || step.Abandon?) && s.reviews[step.v].HalfDone? && s.reviews[step.v].memory == memory)
  {
    var next := Next(policy, s, step);
    if v :| v in next.reviews && next.reviews[v].HalfDone? && next.reviews[v].memory == memory {
      assert v in s.reviews && s.reviews[v] == next.reviews[v];
    }
    if v :| v in s.reviews && s.reviews[v].HalfDone? && s.reviews[v].memory == memory {
      assert v in next.reviews ==> next.reviews[v] == s.reviews[v];
    }
  }

  /** The memory an item names stays as the item needs it. */
  lemma NamedKept(policy: Policy, s: State, step: Step, item: nat)
    requires Enabled(policy, s, step) && StateInv(s) && item in s.pendings && s.pendings[item].memoryId.Some?
    ensures var next, id := Next(policy, s, step), s.pendings[item].memoryId.value;
            && id in next.memories && next.memories[id].origin == Some(item)
            && id !in next.halfway && !InProgress(next, id)
  {
    var id := s.pendings[item].memoryId.value;
    assert PendingOk(s, item);
    MemoriesStay(policy, s, step, id);
    ProgressAfter(policy, s, step, id);
  }

  lemma PendingKept(policy: Policy, s: State, step: Step, item: nat)
    requires Enabled(policy, s, step) && StateInv(s) && item in Next(policy, s, step).pendings
    ensures PendingOk(Next(policy, s, step), item)
  {
    if item in s.pendings {
      assert PendingOk(s, item);
      ItemsStay(policy, s, step, item);
      if s.pendings[item].memoryId.Some? {
        NamedKept(policy, s, step, item);
      }
      if step.CommitApproval? {
        FinishedAlone(s, step.v);
      }
    }
  }

  /** Nobody else is storing the memory of an approval under way. */
  lemma FinishedAlone(s: State, v: nat)
    requires StateInv(s) && Finishing(s, v)
    ensures !InProgress(ApprovalDone(s, v), s.reviews[v].memory)
    ensures s.reviews[v].memory in s.memories && s.memories[s.reviews[v].memory].origin == Some(s.reviews[v].review.id)
    ensures s.reviews[v].memory !in s.halfway
  {
    assert ReviewOk(s, v);
    forall u | u in s.reviews && u != v ensures Separate(s, u, v) {
    }
  }

  lemma MemoryKept(policy: Policy, s: State, step: Step, id: nat)
    requires Enabled(policy, s, step) && StateInv(s) && id in Next(policy, s, step).memories
    ensures MemoryOk(Next(policy, s, step), id)
  {
    if id in s.memories {
      assert MemoryOk(s, id);
      if s.memories[id].origin.Some? {
        ItemsStay(policy, s, step, s.memories[id].origin.value);
      }
    } else if step.StoreMemory? {
      assert ReviewOk(s, step.v) && PendingOk(s, s.reviews[step.v].review.id);
    }
  }

  lemma ReviewKept(policy: Policy, s: State, step: Step, v: nat)
    requires Enabled(policy, s, step) && StateInv(s) && v in Next(policy, s, step).reviews
    ensures ReviewOk(Next(policy, s, step), v)
  {
    if v in s.reviews {
      assert ReviewOk(s, v);
      ItemsStay(policy, s, step, s.reviews[v].review.id);
      if s.reviews[v].HalfDone? {
        HalfKept(policy, s, step, v);
      }
    }
  }

  /** The memory of an approval under way is there, and not cut off. */
  lemma HalfKept(policy: Policy, s: State, step: Step, v: nat)
    requires Enabled(policy, s, step) && StateInv(s) && v in s.reviews && s.reviews[v].HalfDone?
    requires v in Next(policy, s, step).reviews
    ensures var next, id := Next(policy, s, step), s.reviews[v].memory;
            && next.reviews[v] == s.reviews[v] && id in next.memories
            && next.memories[id] == s.memories[id] && id !in next.halfway
  {
    assert ReviewOk(s, v);
    MemoriesStay(policy, s, step, s.reviews[v].memory);
    if step.Abandon? {
      assert Separate(s, v, step.v);
    }
  }

  lemma SeparateKept(policy: Policy, s: State, step: Step, u: nat, v: nat)
    requires Enabled(policy, s, step) && StateInv(s)
    requires u in Next(policy, s, step).reviews && v in Next(policy, s, step).reviews && u != v
    ensures Separate(Next(policy, s, step), u, v)
  {
    if u in s.reviews && v in s.reviews {
      assert Separate(s, u, v);
      assert ReviewOk(s, u) && ReviewOk(s, v);
    }
  }

  lemma StateKept(policy: Policy, s: State, step: Step)
    requires Enabled(policy, s, step) && StateInv(s)
    ensures StateInv(Next(policy, s, step))
  {
    var next := Next(policy, s, step);
    forall item | item in next.pendings ensures PendingOk(next, item) {
      PendingKept(policy, s, step, item);
    }
    forall id | id in next.memories ensures MemoryOk(next, id) {
      MemoryKept(policy, s, step, id);
    }
    forall v | v in next.reviews ensures ReviewOk(next, v) {
      ReviewKept(policy, s, step, v);
    }
    forall u, v | u in next.reviews && v in next.reviews && u != v ensures Separate(next, u, v) {
      SeparateKept(policy, s, step, u, v);
    }
    RecordsKept(policy, s, step);
  }

  /** What the record of cut off approvals and the log name exists. */
  lemma RecordsKept(policy: Policy, s: State, step: Step)
    requires Enabled(policy, s, step) && StateInv(s)
    ensures forall id :: id in Next(policy, s, step).halfway ==> id in Next(policy, s, step).memories
    ensures forall e :: e in Next(policy, s, step).log && e.op == ReviewRejected ==>
              e.item.Some? && e.item.value in Next(policy, s, step).pendings
  {
    var next := Next(policy, s, step);
    if step.Abandon? {
      assert ReviewOk(s, step.v);
    }
    forall e | e in next.log && e.op == ReviewRejected ensures e.item.Some? && e.item.value in next.pendings {
      if e in s.log {
        ItemsStay(policy, s, step, e.item.value);
      }
    }
  }

  /** An item of which one review is under way has no other, unless that is on record. */
  lemma OnlyReview(s: State, u: nat, v: nat)
    requires StateInv(s) && u in s.reviews && v in s.reviews && s.reviews[u].review.id == s.reviews[v].review.id
    ensures u == v || s.reviews[u].review.id in s.overlaps
  {
    if u != v {
      assert Separate(s, u, v);
    }
  }

  lemma WaitsKept(policy: Policy, s: State, step: Step, v: nat)
    requires Enabled(policy, s, step) && Inv(s)
    requires v in Next(policy, s, step).reviews && Next(policy, s, step).reviews[v].review.id in Next(policy, s, step).pendings
    ensures WaitsInReview(Next(policy, s, step), v)
  {
    if v in s.reviews {
      assert ReviewOk(s, v) && WaitsInReview(s, v);
      var item := s.reviews[v].review.id;
      if (step.CommitRejection? || step.CommitApproval?) && s.reviews[step.v].review.id == item {
        OnlyReview(s, v, step.v);
      }
    }
  }

  /** A memory in progress stays so, is approved, or is left behind. */
  lemma ProgressSettles(policy: Policy, s: State, step: Step, id: nat)
    requires Enabled(policy, s, step) && Inv(s) && id in s.memories && InProgress(s, id)
    ensures var next := Next(policy, s, step);
            var origin := s.memories[id].origin;
            origin.Some? && (id in next.halfway || InProgress(next, id) || ApprovedAs(next, origin.value, id))
  {
    var v :| v in s.reviews && s.reviews[v].HalfDone? && s.reviews[v].memory == id;
    assert ReviewOk(s, v);
    HalfDoneSettles(policy, s, step, v);
  }

  lemma HalfDoneSettles(policy: Policy, s: State, step: Step, v: nat)
    requires Enabled(policy, s, step) && v in s.reviews && s.reviews[v].HalfDone?
    ensures var next, id := Next(policy, s, step), s.reviews[v].memory;
            id in next.halfway || InProgress(next, id) || ApprovedAs(next, s.reviews[v].review.id, id)
  {
    if step != CommitApproval(v) && step != Abandon(v) {
      assert v in Next(policy, s, step).reviews && Next(policy, s, step).reviews[v] == s.reviews[v];
    }
  }

  /** Without overlap an approved item is not under review, so that nothing happens to it. */
  lemma ApprovedStays(policy: Policy, s: State, step: Step, item: nat, id: nat)
    requires Enabled(policy, s, step) && Inv(s) && ApprovedAs(s, item, id) && item !in s.overlaps
    ensures ApprovedAs(Next(policy, s, step), item, id)
  {
    if step.CommitRejection? || step.StoreMemory? || step.CommitApproval? {
      assert WaitsInReview(s, step.v);
    }
    OtherItems(policy, s, step, item);
  }

  lemma SettledKept(policy: Policy, s: State, step: Step, id: nat)
    requires Enabled(policy, s, step) && Inv(s) && id in Next(policy, s, step).memories
    ensures Settled(Next(policy, s, step), id)
  {
    var next := Next(policy, s, step);
    if id in s.memories {
      MemoriesStay(policy, s, step, id);
      HistoriesGrow(policy, s, step);
      assert Settled(s, id);
      var origin := s.memories[id].origin;
      if origin.Some? && origin.value !in next.overlaps && id !in s.halfway {
        if InProgress(s, id) {
          ProgressSettles(policy, s, step, id);
        } else {
          ApprovedStays(policy, s, step, origin.value, id);
        }
      }
    } else if step.StoreMemory? {
      assert next.reviews[step.v] == HalfDone(s.reviews[step.v].review, id);
    }
  }

  lemma HistoriesGrow(policy: Policy, s: State, step: Step)
    requires Enabled(policy, s, step)
    ensures s.halfway <= Next(policy, s, step).halfway && s.overlaps <= Next(policy, s, step).overlaps
  {
  }

  lemma LogKept(policy: Policy, s: State, step: Step, item: nat)
    requires Enabled(policy, s, step) && Inv(s) && item in Next(policy, s, step).pendings
    ensures LogOk(Next(policy, s, step), item)
  {
    var next := Next(policy, s, step);
    if item in s.pendings {
      assert LogOk(s, item);
      LogGrows(policy, s, step, item);
      if (step.CommitApproval? || step.CommitRejection?) && s.reviews[step.v].review.id == item {
        assert WaitsInReview(s, step.v);
      }
    } else {
      NewNotLogged(s, item);
      LogGrows(policy, s, step, item);
    }
  }

  lemma NewNotLogged(s: State, item: nat)
    requires StateInv(s) && item !in s.pendings
    ensures !LoggedRejected(s, item)
  {
  }

  lemma LogGrows(policy: Policy, s: State, step: Step, item: nat)
    requires Enabled(policy, s, step)
    ensures LoggedRejected(Next(policy, s, step), item) <==>
              LoggedRejected(s, item) || (step.CommitRejection? && s.reviews[step.v].review.id == item)
  {
    var next := Next(policy, s, step);
    if e :| e in s.log && e.op == ReviewRejected && e.item == Some(item) {
      assert e in next.log;
    }
    if step.CommitRejection? && s.reviews[step.v].review.id == item {
      assert next.log[|next.log| - 1] in next.log;
    }
  }

  lemma StepKeepsInv(policy: Policy, s: State, step: Step)
    requires Enabled(policy, s, step) && Inv(s)
    ensures Inv(Next(policy, s, step))
  {
    var next := Next(policy, s, step);
    StateKept(policy, s, step);
    forall v | v in next.reviews && next.reviews[v].review.id in next.pendings ensures WaitsInReview(next, v) {
      WaitsKept(policy, s, step, v);
    }
    forall id | id in next.memories ensures Settled(next, id) {
      SettledKept(policy, s, step, id);
    }
    forall item | item in next.pendings ensures LogOk(next, item) {
      LogKept(policy, s, step, item);
    }
  }

  lemma {:induction false} RunKeepsInv(policy: Policy, s: State, steps: seq<Step>)
    requires Runs(policy, s, steps) && Inv(s)
    ensures Inv(After(policy, s, steps))
    decreases |steps|
  {
    if steps != [] {
      StepKeepsInv(policy, s, steps[0]);
      RunKeepsInv(policy, Next(policy, s, steps[0]), steps[1..]);
    }
  }

  /** The state after any run from empty tables. */
  ghost predicate Reachable(policy: Policy, s: State) {
    exists steps :: Runs(policy, EMPTY, steps) && s == After(policy, EMPTY, steps)
  }

  lemma ReachableInv(policy: Policy, s: State)
    requires Reachable(policy, s)
    ensures Inv(s)
  {
    var steps :| Runs(policy, EMPTY, steps) && s == After(policy, EMPTY, steps);
    RunKeepsInv(policy, EMPTY, steps);
  }

  // ---- what every interleaving keeps -------------------------------------------------

  /** Nothing unsafe or vague is ever stored. */
  lemma NothingUnsafeStored(policy: Policy, s: State, id: nat)
    requires Reachable(policy, s) && id in s.memories
    ensures Clean(s.memories[id].tags)
  {
    ReachableInv(policy, s);
    assert MemoryOk(s, id);
  }

  /** A memory approved from an item that was held under a non-empty barrier is under that barrier. */
  lemma HeldBarrierKept(policy: Policy, s: State, id: nat)
    requires Reachable(policy, s) && id in s.memories && s.memories[id].origin.Some?
    ensures s.memories[id].origin.value in s.pendings
    ensures var held := s.pendings[s.memories[id].origin.value].barrier;
            held.Some? && held.value != "" ==> s.memories[id].barrier == held
  {
    ReachableInv(policy, s);
    assert MemoryOk(s, id);
  }

  /**
    A stored memory with a sensitive tag came from one held item with the same text and tags. No
    other item is approved as it. If reviews of that item never overlapped, the item is approved
    as the memory exactly once its approval has ended and was not cut off.
  */
  lemma SensitiveApprovedIff(policy: Policy, s: State, id: nat)
    requires Reachable(policy, s) && id in s.memories && Sensitive(s.memories[id].tags)
    ensures var m := s.memories[id];
            && m.origin.Some? && m.origin.value in s.pendings
            && s.pendings[m.origin.value].request == m.request && s.pendings[m.origin.value].tags == m.tags
            && (forall item :: ApprovedAs(s, item, id) ==> item == m.origin.value && id !in s.halfway && !InProgress(s, id))
            && (m.origin.value !in s.overlaps ==>
                  (ApprovedAs(s, m.origin.value, id) <==> id !in s.halfway && !InProgress(s, id)))
  {
    ReachableInv(policy, s);
    assert MemoryOk(s, id) && Settled(s, id);
    forall item | ApprovedAs(s, item, id)
      ensures item == s.memories[id].origin.value && id !in s.halfway && !InProgress(s, id)
    {
      assert PendingOk(s, item);
    }
  }

  /** An item without overlapping reviews has at most one memory whose approval was not cut off. */
  lemma OneMemory(policy: Policy, s: State, first: nat, second: nat)
    requires Reachable(policy, s) && first in s.memories && second in s.memories
    requires s.memories[first].origin.Some? && s.memories[first].origin == s.memories[second].origin
    requires s.memories[first].origin.value !in s.overlaps && first !in s.halfway && second !in s.halfway
    ensures first == second
  {
    ReachableInv(policy, s);
    assert Settled(s, first) && Settled(s, second);
    if InProgress(s, first) && InProgress(s, second) {
      OneInProgress(s, first, second);
    } else if InProgress(s, first) {
      ProgressWaits(s, first);
    } else if InProgress(s, second) {
      ProgressWaits(s, second);
    }
  }

  /** Without overlap an item waits while a memory of it is in progress. */
  lemma ProgressWaits(s: State, id: nat)
    requires Inv(s) && id in s.memories && InProgress(s, id)
    ensures var origin := s.memories[id].origin;
            && origin.Some? && origin.value in s.pendings
            && (origin.value !in s.overlaps ==> s.pendings[origin.value].status == Waiting)
  {
    var v :| v in s.reviews && s.reviews[v].HalfDone? && s.reviews[v].memory == id;
    assert ReviewOk(s, v) && WaitsInReview(s, v);
  }

  lemma OneInProgress(s: State, first: nat, second: nat)
    requires Inv(s) && first in s.memories && second in s.memories && InProgress(s, first) && InProgress(s, second)
    requires s.memories[first].origin.Some? && s.memories[first].origin == s.memories[second].origin
    requires s.memories[first].origin.value !in s.overlaps
    ensures first == second
  {
    var u :| u in s.reviews && s.reviews[u].HalfDone? && s.reviews[u].memory == first;
    var v :| v in s.reviews && s.reviews[v].HalfDone? && s.reviews[v].memory == second;
    assert ReviewOk(s, u) && ReviewOk(s, v);
    OnlyReview(s, u, v);
  }

  /**
    If no reviews of its item overlapped and its approval ended without being cut off, a sensitive
    memory has exactly one approved item, and no other memory of that item was approved in full.
  */
  lemma ExactlyOneApproved(policy: Policy, s: State, id: nat)
    requires Reachable(policy, s) && id in s.memories && Sensitive(s.memories[id].tags)
    requires s.memories[id].origin.Some? ==> s.memories[id].origin.value !in s.overlaps
    requires id !in s.halfway && !InProgress(s, id)
    ensures exists item :: ApprovedAs(s, item, id) && forall other :: ApprovedAs(s, other, id) ==> other == item
    ensures forall other :: other in s.memories && s.memories[other].origin == s.memories[id].origin && other !in s.halfway ==> other == id
  {
    SensitiveApprovedIff(policy, s, id);
    assert ApprovedAs(s, s.memories[id].origin.value, id);
    forall other | other in s.memories && s.memories[other].origin == s.memories[id].origin && other !in s.halfway
      ensures other == id
    {
      OneMemory(policy, s, other, id);
    }
  }

  /** Two memories of one item: an approval of it was cut off, or reviews of it overlapped. */
  lemma TwiceOnlyIf(policy: Policy, s: State, first: nat, second: nat)
    requires Reachable(policy, s) && first in s.memories && second in s.memories && first != second
    requires s.memories[first].origin.Some? && s.memories[first].origin == s.memories[second].origin
    ensures first in s.halfway || second in s.halfway || s.memories[first].origin.value in s.overlaps
  {
    if first !in s.halfway && second !in s.halfway && s.memories[first].origin.value !in s.overlaps {
      OneMemory(policy, s, first, second);
      assert false;
    }
  }

  /** Without overlap an item with a memory is rejected exactly if the memory was cut off and a rejection followed. */
  lemma RejectedWithMemoryIff(policy: Policy, s: State, id: nat)
    requires Reachable(policy, s) && id in s.memories && s.memories[id].origin.Some?
    requires s.memories[id].origin.value !in s.overlaps
    ensures s.memories[id].origin.value in s.pendings
    ensures s.pendings[s.memories[id].origin.value].status == Rejected <==>
              id in s.halfway && LoggedRejected(s, s.memories[id].origin.value)
  {
    ReachableInv(policy, s);
    var item := s.memories[id].origin.value;
    assert MemoryOk(s, id) && Settled(s, id) && LogOk(s, item);
    if InProgress(s, id) {
      ProgressWaits(s, id);
    }
  }

  // ---- what reviews under way can still change ---------------------------------------

  ghost predicate SameResolution(s: State, t: State, item: nat)
    requires item in s.pendings
  {
    item in t.pendings && t.pendings[item].status == s.pendings[item].status && t.pendings[item].memoryId == s.pendings[item].memoryId
  }

  /** A review under way that would resolve the item otherwise. */
  predicate Overrides(s: State, v: nat, item: nat)
    requires item in s.pendings
  {
    && v in s.reviews && s.reviews[v].review.id == item
    && (Approves(s.reviews[v].review) || s.pendings[item].status == Approved)
  }

  ghost predicate Stays(policy: Policy, s: State, item: nat)
    requires item in s.pendings
  {
    forall steps :: Runs(policy, s, steps) ==> SameResolution(s, After(policy, s, steps), item)
  }

  lemma {:induction false} NobodyOverrides(policy: Policy, s: State, steps: seq<Step>, item: nat)
    requires Runs(policy, s, steps) && StateInv(s) && item in s.pendings && s.pendings[item].status != Waiting
    requires forall v :: !Overrides(s, v, item)
    ensures SameResolution(s, After(policy, s, steps), item)
    decreases |steps|
  {
    if steps != [] {
      var next := Next(policy, s, steps[0]);
      StateKept(policy, s, steps[0]);
      StepOverridesNot(policy, s, steps[0], item);
      NobodyOverrides(policy, next, steps[1..], item);
    }
  }

  lemma StepOverridesNot(policy: Policy, s: State, step: Step, item: nat)
    requires Enabled(policy, s, step) && StateInv(s) && item in s.pendings && s.pendings[item].status != Waiting
    requires forall v :: !Overrides(s, v, item)
    ensures var next := Next(policy, s, step);
            SameResolution(s, next, item) && forall v :: !Overrides(next, v, item)
  {
    var next := Next(policy, s, step);
    if (step.CommitRejection? || step.StoreMemory? || step.CommitApproval?) && s.reviews[step.v].review.id == item {
      assert !Overrides(s, step.v, item) && ReviewOk(s, step.v);
    } else {
      OtherItems(policy, s, step, item);
    }
    forall v ensures !Overrides(next, v, item) {
      assert !Overrides(s, v, item);
    }
  }

  lemma {:induction false} RunSnoc(policy: Policy, s: State, steps: seq<Step>, step: Step)
    requires Runs(policy, s, steps) && Enabled(policy, After(policy, s, steps), step)
    ensures Runs(policy, s, steps + [step])
    ensures After(policy, s, steps + [step]) == Next(policy, After(policy, s, steps), step)
    decreases |steps|
  {
    if steps == [] {
      assert steps + [step] == [step] && [step][1..] == [];
      assert Runs(policy, Next(policy, s, step), []);
    } else {
      assert (steps + [step])[1..] == steps[1..] + [step];
      RunSnoc(policy, Next(policy, s, steps[0]), steps[1..], step);
    }
  }

  /** One more step at the end of a run. */
  lemma Extend(policy: Policy, s: State, steps: seq<Step>, step: Step) returns (longer: seq<Step>, t: State)
    requires Runs(policy, s, steps) && Enabled(policy, After(policy, s, steps), step)
    ensures longer == steps + [step] && Runs(policy, s, longer)
    ensures t == After(policy, s, longer) == Next(policy, After(policy, s, steps), step)
  {
    RunSnoc(policy, s, steps, step);
    longer := steps + [step];
    t := After(policy, s, longer);
  }

  lemma FreshExists(s: State) returns (id: nat)
    ensures FreshId(s, id)
  {
    id := Above(s.pendings.Keys + s.memories.Keys);
    assert id !in s.pendings.Keys + s.memories.Keys;
  }

  lemma OverridesChanges(policy: Policy, s: State, v: nat, item: nat) returns (steps: seq<Step>)
    requires StateInv(s) && item in s.pendings && s.pendings[item].status != Waiting && Overrides(s, v, item)
    ensures Runs(policy, s, steps) && !SameResolution(s, After(policy, s, steps), item)
  {
    var t: State;
    steps := [];
    assert ReviewOk(s, v) && PendingOk(s, item);
    if s.reviews[v].HalfDone? {
      steps, t := Extend(policy, s, steps, CommitApproval(v));
    } else if Approves(s.reviews[v].review) {
      var id := FreshExists(s);
      steps, t := Extend(policy, s, steps, StoreMemory(v, id));
      steps, t := Extend(policy, s, steps, CommitApproval(v));
    } else {
      steps, t := Extend(policy, s, steps, CommitRejection(v));
    }
  }

  /**
    A resolved item never changes again, in status or memory, exactly if no review of it is under
    way that approves, or that rejects while it is approved.
  */
  lemma ResolutionStaysIff(policy: Policy, s: State, item: nat)
    requires Reachable(policy, s) && item in s.pendings && s.pendings[item].status != Waiting
    ensures Stays(policy, s, item) <==> forall v :: !Overrides(s, v, item)
  {
    ReachableInv(policy, s);
    if v :| Overrides(s, v, item) {
      var steps := OverridesChanges(policy, s, v, item);
    } else {
      forall steps | Runs(policy, s, steps) ensures SameResolution(s, After(policy, s, steps), item) {
        NobodyOverrides(policy, s, steps, item);
      }
    }
  }

  /** Hence, without overlapping reviews, once and for all. */
  lemma ResolvedOnce(policy: Policy, s: State, item: nat)
    requires Reachable(policy, s) && item in s.pendings && s.pendings[item].status != Waiting && item !in s.overlaps
    ensures Stays(policy, s, item)
  {
    ReachableInv(policy, s);
    ResolutionStaysIff(policy, s, item);
    forall v ensures !Overrides(s, v, item) {
      if v in s.reviews {
        assert ReviewOk(s, v) && WaitsInReview(s, v);
      }
    }
  }

  /** A memory of the item that was not there before. */
  ghost predicate Gains(s: State, t: State, item: nat) {
    exists id :: id in t.memories && id !in s.memories && t.memories[id].origin == Some(item)
  }

  ghost predicate CanGain(policy: Policy, s: State, item: nat) {
    exists steps :: Runs(policy, s, steps) && Gains(s, After(policy, s, steps), item)
  }

  /** The item is resolved and no approval of it is about to store a memory. */
  ghost predicate Spent(s: State, item: nat) {
    && item in s.pendings && s.pendings[item].status != Waiting
    && forall v :: Approving(s, v) ==> s.reviews[v].review.id != item
  }

  lemma StepKeepsSpent(policy: Policy, s: State, step: Step, item: nat)
    requires Enabled(policy, s, step) && Spent(s, item)
    ensures Spent(Next(policy, s, step), item) && !Gains(s, Next(policy, s, step), item)
  {
    var next := Next(policy, s, step);
    forall v | Approving(next, v) ensures next.reviews[v].review.id != item {
      if v in s.reviews {
        assert s.reviews[v] == next.reviews[v];
        assert s.reviews[v].review.id == item ==> Approving(s, v);
      }
    }
  }

  lemma {:induction false} MemoriesRemain(policy: Policy, s: State, steps: seq<Step>, id: nat)
    requires Runs(policy, s, steps) && id in s.memories
    ensures id in After(policy, s, steps).memories && After(policy, s, steps).memories[id] == s.memories[id]
    decreases |steps|
  {
    if steps != [] {
      MemoriesStay(policy, s, steps[0], id);
      MemoriesRemain(policy, Next(policy, s, steps[0]), steps[1..], id);
    }
  }

  lemma {:induction false} SpentForever(policy: Policy, s: State, steps: seq<Step>, item: nat)
    requires Runs(policy, s, steps) && Spent(s, item)
    ensures !Gains(s, After(policy, s, steps), item)
    decreases |steps|
  {
    if steps != [] {
      var next := Next(policy, s, steps[0]);
      StepKeepsSpent(policy, s, steps[0], item);
      SpentForever(policy, next, steps[1..], item);
      var t := After(policy, next, steps[1..]);
      forall id | id in t.memories && t.memories[id].origin == Some(item) ensures id in s.memories {
        assert id in next.memories;
        MemoriesRemain(policy, next, steps[1..], id);
      }
    }
  }

  /**
    A further memory of the item can still be stored exactly if the item waits, or an approval of
    it has passed its checks: also when it has a memory already, or was resolved meanwhile.
  */
  lemma CanGainIff(policy: Policy, s: State, item: nat)
    requires Reachable(policy, s) && item in s.pendings
    ensures CanGain(policy, s, item) <==> !Spent(s, item)
  {
    ReachableInv(policy, s);
    if Spent(s, item) {
      forall steps | Runs(policy, s, steps) ensures !Gains(s, After(policy, s, steps), item) {
        SpentForever(policy, s, steps, item);
      }
    } else {
      var steps, t, v := [], s, 0;
      if u :| Approving(s, u) && s.reviews[u].review.id == item {
        v := u;
      } else {
        v := Above(s.reviews.Keys);
        assert v !in s.reviews.Keys;
        steps, t := Extend(policy, s, steps, Check(v, Review.Review(s.pendings[item].namespace, item, "approve", "", None)));
      }
      var id := FreshExists(s);
      steps, t := Extend(policy, s, steps, StoreMemory(v, id));
      assert t.memories[id].origin == Some(item);
    }
  }

  /**
    While its reviews have not overlapped, an item that has a memory can get a second one exactly
    if it still waits, and then the approval of the first was cut off or has not finished.
  */
  lemma SecondMemoryIff(policy: Policy, s: State, id: nat)
    requires Reachable(policy, s) && id in s.memories && s.memories[id].origin.Some?
    requires s.memories[id].origin.value !in s.overlaps
    ensures var item := s.memories[id].origin.value;
            && item in s.pendings
            && (CanGain(policy, s, item) <==> s.pendings[item].status == Waiting)
            && (CanGain(policy, s, item) ==> id in s.halfway || InProgress(s, id))
  {
    var item := s.memories[id].origin.value;
    ReachableInv(policy, s);
    assert MemoryOk(s, id) && Settled(s, id);
    CanGainIff(policy, s, item);
    forall v | Approving(s, v) && s.reviews[v].review.id == item ensures s.pendings[item].status == Waiting {
      assert WaitsInReview(s, v);
    }
  }

  // ---- runs in which the promises fail -----------------------------------------------

  /** An item that waits, with two approvals or an approval and a rejection about to be checked. */
  ghost predicate Ready(s: State, r: Review, u: nat, v: nat, first: nat, second: nat) {
    && Checked(s.pendings, r).None? && Approves(r) && u !in s.reviews && v !in s.reviews && u != v
    && FreshId(s, first) && FreshId(s, second) && first != second
  }

  lemma BothStore(policy: Policy, s: State, r: Review, u: nat, v: nat, first: nat, second: nat)
    returns (steps: seq<Step>, t: State)
    requires Ready(s, r, u, v, first, second)
    ensures Runs(policy, s, steps) && t == After(policy, s, steps) && t.halfway == s.halfway
    ensures first in t.memories && second in t.memories && t.memories[first] == t.memories[second]
    ensures t.memories[first].origin == Some(r.id) && r.id in t.pendings
    ensures u in t.reviews && t.reviews[u] == HalfDone(r, first) && v in t.reviews && t.reviews[v] == HalfDone(r, second)
  {
    steps := [];
    steps, t := Extend(policy, s, steps, Check(u, r));
    steps, t := Extend(policy, s, steps, Check(v, r));
    steps, t := Extend(policy, s, steps, StoreMemory(u, first));
    steps, t := Extend(policy, s, steps, StoreMemory(v, second));
  }

  /** Two overlapping approvals both store the text; nothing is cut off. */
  lemma OverlapStoresTwice(policy: Policy, s: State, r: Review, u: nat, v: nat, first: nat, second: nat)
    returns (steps: seq<Step>, t: State)
    requires Ready(s, r, u, v, first, second)
    ensures Runs(policy, s, steps) && t == After(policy, s, steps) && t.halfway == s.halfway
    ensures first in t.memories && second in t.memories && t.memories[first] == t.memories[second]
    ensures t.memories[first].origin == Some(r.id) && ApprovedAs(t, r.id, second)
  {
    steps, t := BothStore(policy, s, r, u, v, first, second);
    steps, t := Extend(policy, s, steps, CommitApproval(u));
    steps, t := Extend(policy, s, steps, CommitApproval(v));
  }

  /** A rejection between the two commits of an approval: the rejected item turns approved. */
  lemma RejectedTurnsApproved(policy: Policy, s: State, r: Review, no: Review, u: nat, v: nat, first: nat, second: nat)
    returns (steps: seq<Step>, rejected: State, t: State)
    requires Ready(s, r, u, v, first, second) && Checked(s.pendings, no).None? && !Approves(no) && no.id == r.id
    ensures Runs(policy, s, steps) && rejected == After(policy, s, steps)
    ensures r.id in rejected.pendings && rejected.pendings[r.id].status == Rejected
    ensures Enabled(policy, rejected, CommitApproval(u)) && t == Next(policy, rejected, CommitApproval(u))
    ensures ApprovedAs(t, r.id, first) && t.halfway == s.halfway
  {
    steps := [];
    steps, t := Extend(policy, s, steps, Check(u, r));
    steps, t := Extend(policy, s, steps, StoreMemory(u, first));
    steps, t := Extend(policy, s, steps, Check(v, no));
    steps, rejected := Extend(policy, s, steps, CommitRejection(v));
    t := Next(policy, rejected, CommitApproval(u));
  }

  /** After an approval that ended between its commits, the same review passes and stores the text again. */
  lemma CutOffStoresTwice(policy: Policy, s: State, r: Review, u: nat, v: nat, first: nat, second: nat)
    returns (steps: seq<Step>, t: State)
    requires Ready(s, r, u, v, first, second)
    ensures Runs(policy, s, steps) && t == After(policy, s, steps)
    ensures first in t.memories && second in t.memories && t.memories[first] == t.memories[second]
    ensures t.memories[first].origin == Some(r.id) && ApprovedAs(t, r.id, second) && first in t.halfway
  {
    steps := [];
    steps, t := Extend(policy, s, steps, Check(u, r));
    steps, t := Extend(policy, s, steps, StoreMemory(u, first));
    steps, t := Extend(policy, s, steps, Abandon(u));
    steps, t := Extend(policy, s, steps, Check(v, r));
    steps, t := Extend(policy, s, steps, StoreMemory(v, second));
    steps, t := Extend(policy, s, steps, CommitApproval(v));
  }

  /** Or the item is rejected, and its text stays stored. */
  lemma CutOffThenRejected(policy: Policy, s: State, r: Review, no: Review, u: nat, v: nat, first: nat, second: nat)
    returns (steps: seq<Step>, t: State)
    requires Ready(s, r, u, v, first, second) && Checked(s.pendings, no).None? && !Approves(no) && no.id == r.id
    ensures Runs(policy, s, steps) && t == After(policy, s, steps)
    ensures r.id in t.pendings && t.pendings[r.id].status == Rejected
    ensures first in t.memories && t.memories[first].origin == Some(r.id)
  {
    steps := [];
    steps, t := Extend(policy, s, steps, Check(u, r));
    steps, t := Extend(policy, s, steps, StoreMemory(u, first));
    steps, t := Extend(policy, s, steps, Abandon(u));
    steps, t := Extend(policy, s, steps, Check(v, no));
    steps, t := Extend(policy, s, steps, CommitRejection(v));
  }

  /** Such states are reached from empty tables by one sensitive write. */
  lemma HeldIsReady(policy: Policy, namespace: string, r: Request, d: Decision, note: string) returns (s: State)
    requires Decides(policy, r, d) && d.action.Review?
    ensures Reachable(policy, s)
    ensures Ready(s, Review.Review(namespace, 0, "approve", note, None), 0, 1, 1, 2)
    ensures Checked(s.pendings, Review.Review(namespace, 0, "reject", note, None)).None?
  {
    var steps;
    steps, s := Extend(policy, EMPTY, [], Write(namespace, r, None, d, 0));
  }

  // ---- what the record of overlaps means ---------------------------------------------

  ghost predicate TwoReviews(s: State, item: nat) {
    exists u, v :: u in s.reviews && v in s.reviews && u != v && s.reviews[u].review.id == s.reviews[v].review.id == item
  }

  lemma StepOverlaps(policy: Policy, s: State, step: Step, item: nat)
    requires Enabled(policy, s, step)
    ensures item in Next(policy, s, step).overlaps ==> item in s.overlaps || TwoReviews(Next(policy, s, step), item)
  {
    if step.Check? && InReview(s, item) && step.review.id == item {
      var u :| u in s.reviews && s.reviews[u].review.id == item;
      assert Next(policy, s, step).reviews[step.v].review.id == item && Next(policy, s, step).reviews[u].review.id == item;
    }
  }

  ghost predicate TwoAt(policy: Policy, steps: seq<Step>, item: nat, n: nat)
    requires n <= |steps|
  {
    Runs(policy, EMPTY, steps[..n]) && TwoReviews(After(policy, EMPTY, steps[..n]), item)
  }

  lemma TwoAtInit(policy: Policy, steps: seq<Step>, item: nat, n: nat)
    requires n < |steps|
    ensures TwoAt(policy, steps, item, n) <==> TwoAt(policy, steps[..|steps| - 1], item, n)
  {
    assert steps[..|steps| - 1][..n] == steps[..n];
  }

  lemma TwoAtEnd(policy: Policy, steps: seq<Step>, item: nat)
    requires Runs(policy, EMPTY, steps)
    ensures TwoAt(policy, steps, item, |steps|) <==> TwoReviews(After(policy, EMPTY, steps), item)
    ensures TwoReviews(After(policy, EMPTY, steps), item) ==> item in After(policy, EMPTY, steps).overlaps
  {
    assert steps[..|steps|] == steps;
    RunKeepsInv(policy, EMPTY, steps);
    if TwoReviews(After(policy, EMPTY, steps), item) {
      TwoOnRecord(After(policy, EMPTY, steps), item);
    }
  }

  /** The last step of a run puts an item on record only by starting a second review of it. */
  lemma LastOverlaps(policy: Policy, steps: seq<Step>, item: nat)
    requires Runs(policy, EMPTY, steps) && steps != []
    ensures Runs(policy, EMPTY, steps[..|steps| - 1])
    ensures var before := After(policy, EMPTY, steps[..|steps| - 1]);
            item in After(policy, EMPTY, steps).overlaps <==>
              item in before.overlaps || TwoReviews(After(policy, EMPTY, steps), item)
  {
    RunInit(policy, EMPTY, steps);
    var s, last := After(policy, EMPTY, steps[..|steps| - 1]), steps[|steps| - 1];
    StepOverlaps(policy, s, last, item);
    HistoriesGrow(policy, s, last);
    TwoAtEnd(policy, steps, item);
  }

  /** An item is on record exactly if two reviews of it were under way at some point of the run. */
  lemma {:induction false} OverlapMeans(policy: Policy, steps: seq<Step>, item: nat)
    requires Runs(policy, EMPTY, steps)
    ensures item in After(policy, EMPTY, steps).overlaps <==> exists n :: 0 <= n <= |steps| && TwoAt(policy, steps, item, n)
    decreases |steps|
  {
    TwoAtEnd(policy, steps, item);
    if steps != [] {
      var init := steps[..|steps| - 1];
      LastOverlaps(policy, steps, item);
      OverlapMeans(policy, init, item);
      forall n | 0 <= n < |steps| ensures TwoAt(policy, steps, item, n) <==> TwoAt(policy, init, item, n) {
        TwoAtInit(policy, steps, item, n);
      }
    }
  }

  lemma TwoOnRecord(s: State, item: nat)
    requires StateInv(s) && TwoReviews(s, item)
    ensures item in s.overlaps
  {
    var u, v :| u in s.reviews && v in s.reviews && u != v && s.reviews[u].review.id == s.reviews[v].review.id == item;
    assert Separate(s, u, v);
  }

  lemma {:induction false} RunInit(policy: Policy, s: State, steps: seq<Step>)
    requires Runs(policy, s, steps) && steps != []
    ensures Runs(policy, s, steps[..|steps| - 1])
    ensures Enabled(policy, After(policy, s, steps[..|steps| - 1]), steps[|steps| - 1])
    ensures After(policy, s, steps) == Next(policy, After(policy, s, steps[..|steps| - 1]), steps[|steps| - 1])
    decreases |steps|
  {
    var init := steps[..|steps| - 1];
    if |steps| == 1 {
      assert steps[1..] == [] && init == [];
    } else {
      var next := Next(policy, s, steps[0]);
      RunInit(policy, next, steps[1..]);
      assert init[1..] == steps[1..][..|steps[1..]| - 1];
    }
  }
}
