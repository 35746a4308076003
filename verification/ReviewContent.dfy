/**
  What the held-for-review queue lets through, in terms of the contents of memories, over every
  interleaving of writes and reviews.
  Source: agentmem/src/lians/admission_service.py, `enforce_memory_admission` and
  `resolve_pending`; agentmem/src/lians/admission.py, `evaluate`.
*/
module ReviewContent {
  import opened Prelude
  import opened Admission
  import opened ReviewQueue
  import opened ReviewRuns

  predicate Blocked(policy: Policy, r: Request) {
    r.source != "" && r.source in policy.blockedSources
  }

  /** The tags are those of the request's content and source. */
  ghost predicate TagsRight(policy: Policy, r: Request, tags: seq<Tag>) {
    forall t :: t in tags <==> Tagged(policy.rules, r.content, Blocked(policy, r), t)
  }

  ghost predicate TagInv(policy: Policy, s: State) {
    && (forall item :: item in s.pendings ==> TagsRight(policy, s.pendings[item].request, s.pendings[item].tags))
    && (forall id :: id in s.memories ==> TagsRight(policy, s.memories[id].request, s.memories[id].tags))
  }

  lemma StepKeepsTags(policy: Policy, s: State, step: Step)
    requires Enabled(policy, s, step) && TagInv(policy, s)
    ensures TagInv(policy, Next(policy, s, step))
  {
    var next := Next(policy, s, step);
    if step.Write? {
      assert TagsRight(policy, step.request, step.decision.tags);
    }
    forall item | item in next.pendings ensures TagsRight(policy, next.pendings[item].request, next.pendings[item].tags) {
      if item in s.pendings {
        ItemsStay(policy, s, step, item);
        assert next.pendings[item].request == s.pendings[item].request && next.pendings[item].tags == s.pendings[item].tags;
      }
    }
    forall id | id in next.memories ensures TagsRight(policy, next.memories[id].request, next.memories[id].tags) {
      if id in s.memories {
        MemoriesStay(policy, s, step, id);
      } else if step.StoreMemory? {
        assert s.reviews[step.v].review.id in s.pendings;
      }
    }
  }

  lemma {:induction false} RunKeepsTags(policy: Policy, s: State, steps: seq<Step>)
    requires Runs(policy, s, steps) && TagInv(policy, s)
    ensures TagInv(policy, After(policy, s, steps))
    decreases |steps|
  {
    if steps != [] {
      StepKeepsTags(policy, s, steps[0]);
      RunKeepsTags(policy, Next(policy, s, steps[0]), steps[1..]);
    }
  }

  lemma ReachableTags(policy: Policy, s: State)
    requires Reachable(policy, s)
    ensures TagInv(policy, s)
  {
    var steps :| Runs(policy, EMPTY, steps) && s == After(policy, EMPTY, steps);
    RunKeepsTags(policy, EMPTY, steps);
  }

  /** No stored memory has an injection pattern, a blocked source, or fewer than three different tokens. */
  lemma StoredContentIsSafe(policy: Policy, s: State, id: nat)
    requires Reachable(policy, s) && id in s.memories
    ensures !NeverStored(policy.rules, s.memories[id].request.content, Blocked(policy, s.memories[id].request))
  {
    var m := s.memories[id];
    ReachableTags(policy, s);
    NothingUnsafeStored(policy, s, id);
    TagsMean(policy.rules, m.request.content, Blocked(policy, m.request), m.tags);
  }

  /**
    Confidential content is stored only by approving an item that holds it: the memory names the
    item it came from, and while that item's reviews do not overlap it is approved as this memory
    exactly if the approval was not cut off and has finished.
  */
  lemma ConfidentialWasApproved(policy: Policy, s: State, id: nat)
    requires Reachable(policy, s) && id in s.memories && Confidential(policy.rules, s.memories[id].request.content)
    ensures var m := s.memories[id];
            && m.origin.Some? && m.origin.value in s.pendings && s.pendings[m.origin.value].request == m.request
            && (m.origin.value !in s.overlaps ==>
                  (ApprovedAs(s, m.origin.value, id) <==> id !in s.halfway && !InProgress(s, id)))
  {
    var m := s.memories[id];
    ReachableTags(policy, s);
    TagsMean(policy.rules, m.request.content, Blocked(policy, m.request), m.tags);
    SensitiveApprovedIff(policy, s, id);
  }

  /** Items hold confidential content and nothing that is never stored. */
  lemma HeldContent(policy: Policy, s: State, item: nat)
    requires Reachable(policy, s) && item in s.pendings
    ensures var r := s.pendings[item].request;
            Confidential(policy.rules, r.content) && !NeverStored(policy.rules, r.content, Blocked(policy, r))
  {
    var p := s.pendings[item];
    ReachableInv(policy, s);
    ReachableTags(policy, s);
    assert PendingOk(s, item);
    TagsMean(policy.rules, p.request.content, Blocked(policy, p.request), p.tags);
  }

  // ---- what may happen at any time ---------------------------------------------------

  /**
    Nothing is left out: any write with fresh identifiers, any review of a waiting item that it may
    see, however many are under way, each commit whenever its review is ready for it, and an early
    end at any point.
  */
  lemma AnyReviewStep(policy: Policy, s: State, v: nat, r: Review, id: nat, ns: string, q: Request, override: Option<string>, d: Decision)
    ensures id !in s.pendings && id !in s.memories && Decides(policy, q, d) ==> Enabled(policy, s, Write(ns, q, override, d, id))
    ensures (&& v !in s.reviews && (r.action == "approve" || r.action == "admit" || r.action == "reject")
             && Seen(s.pendings, r) && s.pendings[r.id].status == Waiting) ==> Enabled(policy, s, Check(v, r))
    ensures v in s.reviews ==> Enabled(policy, s, Abandon(v))
    ensures (&& v in s.reviews && s.reviews[v] == Begun(r) && r.id in s.pendings && (r.action == "approve" || r.action == "admit")
             && id !in s.pendings && id !in s.memories) ==> Enabled(policy, s, StoreMemory(v, id))
    ensures v in s.reviews && s.reviews[v] == Begun(r) && r.id in s.pendings && r.action == "reject" ==>
              Enabled(policy, s, CommitRejection(v))
    ensures v in s.reviews && s.reviews[v] == HalfDone(r, id) && r.id in s.pendings ==> Enabled(policy, s, CommitApproval(v))
  {
    CheckedInWords(s.pendings, r);
    assert "reject" != "approve" && "reject" != "admit";
  }
}
