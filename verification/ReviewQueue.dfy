/**
  Admission at the storage boundary and the held-for-review queue.
  Sources: agentmem/src/lians/admission_service.py, `enforce_memory_admission`,
  `record_rejection`, `enqueue_pending` and `resolve_pending`;
  agentmem/src/lians/memory_service.py, the admission branch of `add_memory`, its commit and
  the cache flush behind it, and `_get_barrier_group`.

  `resolve_pending` takes no lock on the item. It reads the item's status once, a rejection then
  commits, and an approval commits twice: `add_memory` commits the memory (and the item's
  resolver note), and a second commit marks the item approved. Other reviews may come in between
  any two of these, and an approval may end after its first commit: the process crashes, or the
  cache flush that `add_memory` runs behind its commit raises.
*/
module ReviewQueue {
  import opened Prelude
  import opened Admission

  datatype Status = Waiting | Approved | Rejected

  datatype Request = Request(agentId: string, content: string, source: string)

  datatype Pending = Pending(
    namespace: string,
    request: Request,
    barrier: Option<string>,
    tags: seq<Tag>,
    status: Status,
    memoryId: Option<nat>,
    note: string)

  /** A stored memory; `origin` is the item it was approved from (history). */
  datatype Memory = Memory(namespace: string, request: Request, tags: seq<Tag>, barrier: Option<string>, origin: Option<nat>)

  datatype Op = AdmissionRejected | AdmissionHeld | ReviewRejected | AdmissionApproved | Added

  /** An audit entry; the entries of a resolution name the item. */
  datatype Entry = Entry(namespace: string, agentId: string, op: Op, memoryId: Option<nat>, item: Option<nat>)

  datatype Review = Review(namespace: string, id: nat, action: string, note: string, override: Option<string>)

  /** A review that has passed its checks, and an approval that has stored its memory. */
  datatype Progress = Begun(review: Review) | HalfDone(review: Review, memory: nat)

  /**
    The two tables, the log, and the reviews under way. Two histories: `halfway` holds the
    memories whose approval ended before its second commit, `overlaps` the items of which two
    reviews have been under way at once.
  */
  datatype State = State(
    pendings: map<nat, Pending>,
    memories: map<nat, Memory>,
    log: seq<Entry>,
    reviews: map<nat, Progress>,
    halfway: set<nat>,
    overlaps: set<nat>)

  /** The policy in force, and the barrier groups assigned to agents. */
  datatype Policy = Policy(rules: Rules, blockedSources: set<string>, groupOf: (string, string) -> Option<string>)

  /** The decision `evaluate` takes for a request in enforce mode. */
  ghost predicate Decides(policy: Policy, r: Request, d: Decision) {
    && (forall t :: t in d.tags <==> Tagged(policy.rules, r.content, r.source != "" && r.source in policy.blockedSources, t))
    && Follows(Enforce, d)
  }

  /** `_get_barrier_group`: an override is authoritative, otherwise the agent's group. */
  function BarrierFor(policy: Policy, namespace: string, agentId: string, override: Option<string>): Option<string> {
    if override.Some? then override else policy.groupOf(namespace, agentId)
  }

  /** Python's `a or b` for optional strings. */
  function Or(a: Option<string>, b: Option<string>): Option<string> {
    if a.Some? && a.value != "" then a else b
  }

  function Verb(action: string): string {
    if action == "admit" then "approve" else action
  }

  /** The approver's namespace and barrier let it see the item. */
  predicate Visible(pendings: map<nat, Pending>, r: Review) {
    && r.id in pendings && pendings[r.id].namespace == r.namespace
    && (r.override.Some? ==> pendings[r.id].barrier == None || pendings[r.id].barrier == r.override)
  }

  /** `Unfinished` is an error raised after the memory was stored. */
  datatype Outcome =
    | Stored(memory: nat) | Unfinished(memory: nat) | Held(item: nat) | Refused
    | Unprocessable | NotFound | Conflict | Declined

  /** What the checks of `resolve_pending` make of a review, before anything is written. */
  function Checked(pendings: map<nat, Pending>, r: Review): Option<Outcome> {
    if Verb(r.action) != "approve" && Verb(r.action) != "reject" then Some(Unprocessable)
    else if !Visible(pendings, r) then Some(NotFound)
    else if pendings[r.id].status != Waiting then Some(Conflict)
    else None
  }

  predicate Approves(r: Review) {
    Verb(r.action) == "approve"
  }

  /** Who may see an item: its namespace, and of reviewers behind a barrier those of its own, or all if it has none. */
  predicate Seen(pendings: map<nat, Pending>, r: Review) {
    r.id in pendings && r.namespace == pendings[r.id].namespace
    && (r.override == None || pendings[r.id].barrier == None || r.override == pendings[r.id].barrier)
  }

  /** Exactly which reviews fail which check, in the words of their actions. */
  lemma CheckedInWords(pendings: map<nat, Pending>, r: Review)
    ensures var known := r.action == "approve" || r.action == "admit" || r.action == "reject";
            && (Checked(pendings, r) == Some(Unprocessable) <==> !known)
            && (Checked(pendings, r) == Some(NotFound) <==> known && !Seen(pendings, r))
            && (Checked(pendings, r) == Some(Conflict) <==>
                  known && Seen(pendings, r) && (pendings[r.id].status == Approved || pendings[r.id].status == Rejected))
            && (Checked(pendings, r) == None <==> known && Seen(pendings, r) && pendings[r.id].status == Waiting)
            && (known ==> (Approves(r) <==> r.action == "approve" || r.action == "admit"))
  {
    assert "admit" != "approve" && "reject" != "approve" && "reject" != "admit";
  }

  ghost predicate InReview(s: State, item: nat) {
    exists v :: v in s.reviews && s.reviews[v].review.id == item
  }

  function AddMemory(s: State, id: nat, m: Memory): State {
    s.(memories := s.memories[id := m], log := s.log + [Entry(m.namespace, m.request.agentId, Added, Some(id), None)])
  }

  /** A write, decided as `d`; `id` is the fresh identifier of what it creates. */
  function Written(policy: Policy, s: State, namespace: string, r: Request, override: Option<string>, d: Decision, id: nat): State {
    match d.action
    case Reject => s.(log := s.log + [Entry(namespace, r.agentId, AdmissionRejected, None, None)])
    case Review =>
      s.(pendings := s.pendings[id := Pending(namespace, r, override, d.tags, Waiting, None, "")],
         log := s.log + [Entry(namespace, r.agentId, AdmissionHeld, None, None)])
    case Admit => AddMemory(s, id, Memory(namespace, r, d.tags, BarrierFor(policy, namespace, r.agentId, override), None))
  }

  /** The memory an approval creates. */
  function Approval(policy: Policy, p: Pending, r: Review): Memory {
    Memory(r.namespace, p.request, p.tags, BarrierFor(policy, r.namespace, p.request.agentId, Or(p.barrier, r.override)), Some(r.id))
  }

  /** A review passes its checks. */
  ghost function Begin(s: State, v: nat, r: Review): State {
    s.(reviews := s.reviews[v := Begun(r)], overlaps := if InReview(s, r.id) then s.overlaps + {r.id} else s.overlaps)
  }

  predicate Rejecting(s: State, v: nat) {
    v in s.reviews && s.reviews[v].Begun? && !Approves(s.reviews[v].review) && s.reviews[v].review.id in s.pendings
  }

  /** The one commit of a rejection, whatever became of the item since it was checked. */
  function RejectionDone(s: State, v: nat): State
    requires Rejecting(s, v)
  {
    var r := s.reviews[v].review;
    var p := s.pendings[r.id];
    s.(pendings := s.pendings[r.id := p.(status := Rejected, note := r.note)],
       log := s.log + [Entry(r.namespace, p.request.agentId, ReviewRejected, None, Some(r.id))],
       reviews := s.reviews - {v})
  }

  predicate Approving(s: State, v: nat) {
    v in s.reviews && s.reviews[v].Begun? && Approves(s.reviews[v].review) && s.reviews[v].review.id in s.pendings
  }

  /** The first commit of an approval: the memory is stored, and the resolver's note. */
  function MemoryDone(policy: Policy, s: State, v: nat, id: nat): State
    requires Approving(s, v)
  {
    var r := s.reviews[v].review;
    var p := s.pendings[r.id];
    AddMemory(s.(pendings := s.pendings[r.id := p.(note := r.note)], reviews := s.reviews[v := HalfDone(r, id)]),
              id, Approval(policy, p, r))
  }

  predicate Finishing(s: State, v: nat) {
    v in s.reviews && s.reviews[v].HalfDone? && s.reviews[v].review.id in s.pendings
  }

  /** The second commit, whatever became of the item since. */
  function ApprovalDone(s: State, v: nat): State
    requires Finishing(s, v)
  {
    var r, id := s.reviews[v].review, s.reviews[v].memory;
    var p := s.pendings[r.id];
    s.(pendings := s.pendings[r.id := p.(status := Approved, memoryId := Some(id))],
       log := s.log + [Entry(r.namespace, p.request.agentId, AdmissionApproved, Some(id), Some(r.id))],
       reviews := s.reviews - {v})
  }

  /** A review ends early; an approval past its first commit leaves its memory behind. */
  function Abandoned(s: State, v: nat): State
    requires v in s.reviews
  {
    s.(reviews := s.reviews - {v},
       halfway := if s.reviews[v].HalfDone? then s.halfway + {s.reviews[v].memory} else s.halfway)
  }

  /** The tables in place, and the operations of concurrent callers on them. */
  class Queue {
    const policy: Policy
    var pendings: map<nat, Pending>
    var memories: map<nat, Memory>
    var log: seq<Entry>
    var reviews: map<nat, Progress>
    ghost var halfway: set<nat>
    ghost var overlaps: set<nat>

    ghost function View(): State
      reads this
    {
      State(pendings, memories, log, reviews, halfway, overlaps)
    }

    constructor (policy: Policy)
      ensures this.policy == policy && View() == State(map[], map[], [], map[], {}, {})
    {
      this.policy := policy;
      pendings, memories, log, reviews, halfway, overlaps := map[], map[], [], map[], {}, {};
    }

    /**
      `add_memory` for an untrusted write: enforcement first, then the row and its commit.
      `flushed` says whether the cache flush behind the commit succeeded; if not, the caller gets
      an error although the memory is stored.
    */
    method Write(namespace: string, r: Request, override: Option<string>, id: nat, flushed: bool)
      returns (outcome: Outcome, ghost d: Decision)
      modifies this`pendings, this`memories, this`log
      ensures Decides(policy, r, d) && View() == Written(policy, old(View()), namespace, r, override, d, id)
      ensures d.action == Admit ==>
                && pendings == old(pendings)
                && memories == old(memories)[id := Memory(namespace, r, d.tags,
                     if override.Some? then override else policy.groupOf(namespace, r.agentId), None)]
                && log == old(log) + [Entry(namespace, r.agentId, Added, Some(id), None)]
      ensures d.action.Review? ==>
                && pendings == old(pendings)[id := Pending(namespace, r, override, d.tags, Waiting, None, "")]
                && memories == old(memories)
                && log == old(log) + [Entry(namespace, r.agentId, AdmissionHeld, None, None)]
      ensures d.action == Reject ==>
                && pendings == old(pendings) && memories == old(memories)
                && log == old(log) + [Entry(namespace, r.agentId, AdmissionRejected, None, None)]
      ensures outcome == match d.action
                         case Admit => if flushed then Stored(id) else Unfinished(id)
                         case Review => Held(id)
                         case Reject => Refused
    {
      var decision := Evaluate(policy.rules, r.content, r.source, Enforce, policy.blockedSources);
      d := decision;
      if decision.action == Reject {
        log := log + [Entry(namespace, r.agentId, AdmissionRejected, None, None)];
        return Refused, d;
      }
      if decision.action.Review? {
        pendings := pendings[id := Pending(namespace, r, override, decision.tags, Waiting, None, "")];
        log := log + [Entry(namespace, r.agentId, AdmissionHeld, None, None)];
        return Held(id), d;
      }
      AddRow(namespace, r, decision.tags, override, None, id);
      outcome := if flushed then Stored(id) else Unfinished(id);
    }

    /** The trusted part of `add_memory`, up to its commit. */
    method AddRow(namespace: string, r: Request, tags: seq<Tag>, override: Option<string>, origin: Option<nat>, id: nat)
      modifies this`memories, this`log
      ensures View() == AddMemory(old(View()), id, Memory(namespace, r, tags, BarrierFor(policy, namespace, r.agentId, override), origin))
    {
      var barrier := if override.Some? then override else policy.groupOf(namespace, r.agentId);
      memories := memories[id := Memory(namespace, r, tags, barrier, origin)];
      log := log + [Entry(namespace, r.agentId, Added, Some(id), None)];
    }

    /** The checks; a review that passes them is under way. */
    method BeginReview(v: nat, r: Review) returns (error: Option<Outcome>)
      modifies this`reviews, this`overlaps
      ensures error == Checked(pendings, r)
      ensures View() == if error.Some? then old(View()) else Begin(old(View()), v, r)
    {
      var verb := if r.action == "admit" then "approve" else r.action;
      if verb != "approve" && verb != "reject" {
        return Some(Unprocessable);
      }
      if r.id !in pendings || pendings[r.id].namespace != r.namespace {
        return Some(NotFound);
      }
      if r.override.Some? && pendings[r.id].barrier != None && pendings[r.id].barrier != r.override {
        return Some(NotFound);
      }
      if pendings[r.id].status != Waiting {
        return Some(Conflict);
      }
      overlaps := if InReview(View(), r.id) then overlaps + {r.id} else overlaps;
      reviews := reviews[v := Begun(r)];
      return None;
    }

    method CommitRejection(v: nat)
      requires Rejecting(View(), v)
      modifies this`pendings, this`log, this`reviews
      ensures View() == RejectionDone(old(View()), v)
      ensures var r := old(reviews)[v].review; var p := old(pendings)[r.id];
              && pendings == old(pendings)[r.id := p.(status := Rejected, note := r.note)]
              && log == old(log) + [Entry(r.namespace, p.request.agentId, ReviewRejected, None, Some(r.id))]
              && reviews == old(reviews) - {v}
    {
      var r := reviews[v].review;
      log := log + [Entry(r.namespace, pendings[r.id].request.agentId, ReviewRejected, None, Some(r.id))];
      pendings := pendings[r.id := pendings[r.id].(status := Rejected, note := r.note)];
      reviews := reviews - {v};
    }

    method StoreMemory(v: nat, id: nat)
      requires Approving(View(), v)
      modifies this`pendings, this`memories, this`log, this`reviews
      ensures View() == MemoryDone(policy, old(View()), v, id)
      ensures var r := old(reviews)[v].review; var p := old(pendings)[r.id];
              var barrier := if p.barrier.Some? && p.barrier.value != "" then p.barrier
                             else if r.override.Some? then r.override else policy.groupOf(r.namespace, p.request.agentId);
              && pendings == old(pendings)[r.id := p.(note := r.note)]
              && memories == old(memories)[id := Memory(r.namespace, p.request, p.tags, barrier, Some(r.id))]
              && log == old(log) + [Entry(r.namespace, p.request.agentId, Added, Some(id), None)]
              && reviews == old(reviews)[v := HalfDone(r, id)]
    {
      var r := reviews[v].review;
      var pending := pendings[r.id];
      pendings := pendings[r.id := pending.(note := r.note)];
      reviews := reviews[v := HalfDone(r, id)];
      AddRow(r.namespace, pending.request, pending.tags, Or(pending.barrier, r.override), Some(r.id), id);
    }

    method CommitApproval(v: nat)
      requires Finishing(View(), v)
      modifies this`pendings, this`log, this`reviews
      ensures View() == ApprovalDone(old(View()), v)
      ensures var r, id := old(reviews)[v].review, old(reviews)[v].memory; var p := old(pendings)[r.id];
              && pendings == old(pendings)[r.id := p.(status := Approved, memoryId := Some(id))]
              && log == old(log) + [Entry(r.namespace, p.request.agentId, AdmissionApproved, Some(id), Some(r.id))]
              && reviews == old(reviews) - {v} && memories == old(memories)
    {
      var r, id := reviews[v].review, reviews[v].memory;
      log := log + [Entry(r.namespace, pendings[r.id].request.agentId, AdmissionApproved, Some(id), Some(r.id))];
      pendings := pendings[r.id := pendings[r.id].(status := Approved, memoryId := Some(id))];
      reviews := reviews - {v};
    }

    method Abandon(v: nat)
      requires v in reviews
      modifies this`reviews, this`halfway
      ensures View() == Abandoned(old(View()), v)
    {
      if reviews[v].HalfDone? {
        halfway := halfway + {reviews[v].memory};
      }
      reviews := reviews - {v};
    }

    /** A whole review with no other one in between; `flushed` as in `Write`. */
    method ResolvePending(v: nat, r: Review, id: nat, flushed: bool) returns (outcome: Outcome)
      requires v !in reviews
      modifies this
      ensures Checked(old(pendings), r).Some? ==> View() == old(View()) && outcome == Checked(old(pendings), r).value
      ensures Checked(old(pendings), r).None? && !Approves(r) ==>
                && outcome == Declined && memories == old(memories)
                && pendings == old(pendings)[r.id := old(pendings)[r.id].(status := Rejected, note := r.note)]
      ensures Checked(old(pendings), r).None? && Approves(r) ==>
                && outcome == (if flushed then Stored(id) else Unfinished(id))
                && memories == old(memories)[id := Approval(policy, old(pendings)[r.id], r)]
                && var p := old(pendings)[r.id].(note := r.note);
                   pendings == old(pendings)[r.id := if flushed then p.(status := Approved, memoryId := Some(id)) else p]
      ensures reviews == old(reviews)
      ensures Checked(old(pendings), r).None? ==>
                halfway == if Approves(r) && !flushed then old(halfway) + {id} else old(halfway)
    {
      var error := BeginReview(v, r);
      if error.Some? {
        return error.value;
      }
      if Verb(r.action) == "reject" {
        CommitRejection(v);
        assert reviews == old(reviews);
        return Declined;
      }
      StoreMemory(v, id);
      if !flushed {
        Abandon(v);
        assert reviews == old(reviews);
        return Unfinished(id);
      }
      CommitApproval(v);
      assert reviews == old(reviews);
      return Stored(id);
    }
  }

  /** A non-empty barrier under which an item was held is the barrier of the memory it becomes. */
  lemma BarrierKeptIff(policy: Policy, pendings: map<nat, Pending>, r: Review)
    requires Checked(pendings, r).None? && pendings[r.id].barrier.Some?
    ensures var p := pendings[r.id];
            Approval(policy, p, r).barrier == p.barrier <==>
              p.barrier.value != "" || r.override.Some? || policy.groupOf(p.namespace, p.request.agentId) == Some("")
  {
  }

  /**
    Had the write been admitted at once, its memory would have had the barrier of its writer, or
    else the agent's group. Approval gives the same barrier exactly if the writer's barrier was
    not empty, or the approver's own barrier does not differ from what the write would have had.
  */
  lemma SameBarrierAsDirectIff(policy: Policy, pendings: map<nat, Pending>, r: Review)
    requires Checked(pendings, r).None?
    ensures var p := pendings[r.id];
            var direct := BarrierFor(policy, p.namespace, p.request.agentId, p.barrier);
            Approval(policy, p, r).barrier == direct <==>
              || Or(p.barrier, None).Some?
              || BarrierFor(policy, p.namespace, p.request.agentId, r.override) == direct
  {
  }
}
