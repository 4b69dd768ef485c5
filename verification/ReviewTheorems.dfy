/** The promises of the review-run protocol, over every run. */
module ReviewTheorems {
  import opened Wrappers
  import opened DirectBudget
  import opened ReviewItem
  import opened ReviewProtocol
  import opened ReviewInvariant
  import opened GrantLedger

  // ------------------------------------------------------ paid once, per call

  ghost predicate PaidOk(s: Sys) {
    && (forall x :: x in s.paid ==> s.paid[x] == 1 && x.0 in s.items && x.1 in s.items[x.0].calls)
    && (forall i :: i in s.workers && s.workers[i].pc.Fenced? ==>
          (s.workers[i].key, s.workers[i].pc.record.id) !in s.paid)
  }

  /** Two workers never stand behind fences of one item. */
  lemma FencesAreOwned(s: Sys, i: nat, j: nat)
    requires Inv(s) && i in s.workers && j in s.workers && i != j
    requires s.workers[i].pc.Fenced? && s.workers[j].pc.Fenced?
    ensures s.workers[i].key != s.workers[j].key
  {
    var a, b := s.workers[i], s.workers[j];
    assert Distinct(a, b);
    assert WorkerOk(s.items[a.key], a, s.maxAttempts) && WorkerOk(s.items[b.key], b, s.maxAttempts);
  }

  lemma StepKeepsPaid(s: Sys, a: Action, t: Sys)
    requires Inv(s) && PaidOk(s) && Step(s, a) == Some(t)
    ensures PaidOk(t)
  {
    if a.Post? {
      PostKeepsPaid(s, a.worker);
    } else {
      StepKeepsIds(s, a, t);
      OnlyPostPays(s, a, t);
      FencedBefore(s, a, t);
      PaidCarries(s, t);
    }
  }

  lemma PaidCarries(s: Sys, t: Sys)
    requires PaidOk(s) && t.paid == s.paid && KeepsIds(s, t) && FencesComeFrom(s, t)
    ensures PaidOk(t)
  {
  }

  lemma PostKeepsPaid(s: Sys, i: nat)
    requires Inv(s) && PaidOk(s) && i in s.workers && StepPost(s, i, s.workers[i]).Some?
    ensures PaidOk(StepPost(s, i, s.workers[i]).value)
  {
    var t := StepPost(s, i, s.workers[i]).value;
    var w := s.workers[i];
    assert WorkerOk(s.items[w.key], w, s.maxAttempts);
    forall j | j in t.workers && t.workers[j].pc.Fenced?
      ensures (t.workers[j].key, t.workers[j].pc.record.id) !in t.paid
    {
      assert j != i;
      FencesAreOwned(s, j, i);
    }
  }

  lemma OnlyPostPays(s: Sys, a: Action, t: Sys)
    requires Step(s, a) == Some(t) && !a.Post?
    ensures t.paid == s.paid
  {
  }

  ghost predicate KeepsIds(s: Sys, t: Sys) {
    forall k :: k in s.items ==> k in t.items && s.items[k].calls.Keys <= t.items[k].calls.Keys
  }

  /** Call ids only accumulate, on every item. */
  lemma StepKeepsIds(s: Sys, a: Action, t: Sys)
    requires Step(s, a) == Some(t)
    ensures KeepsIds(s, t)
  {
    hide StepInsert, StepClaim, StepAdmit, StepReadFence, StepPost, StepReadSettlement, StepReadSuccessor,
         StepWriteSuccessor, StepLifecycle, Charge, Release, FenceAccepted, AfterSettled;
    if !a.WriteFence? && !a.WriteSettlement? && !a.Redeliver? {
      var key := OtherStepsKeepCalls(s, a);
      assert SameCalls(s, t, key);
    }
  }

  /** A worker behind a fence was there before, or has just written it under an unused call id. */
  ghost predicate FencesComeFrom(s: Sys, t: Sys) {
    forall i :: i in t.workers && t.workers[i].pc.Fenced? ==>
                  || (i in s.workers && s.workers[i] == t.workers[i])
                  || (t.workers[i].key in s.items && t.workers[i].pc.record.id !in s.items[t.workers[i].key].calls)
  }

  lemma FencedBefore(s: Sys, a: Action, t: Sys)
    requires Step(s, a) == Some(t) && !a.Post?
    ensures FencesComeFrom(s, t)
  {
    hide Step;
    StepMovesWorkers(s, a, t);
    if !a.Insert? && !a.ClaimPhase? && !a.Redeliver? { OnlyWriteFences(s, a, t); }
  }

  /** Only the fence write moves a worker behind a fence, and only under a call id that was unused. */
  lemma OnlyWriteFences(s: Sys, a: Action, t: Sys)
    requires Step(s, a) == Some(t) && !a.Post? && !a.Insert? && !a.ClaimPhase? && !a.Redeliver?
    ensures a.worker in s.workers && a.worker in t.workers
    ensures t.workers[a.worker].pc.Fenced? && t.workers[a.worker] != s.workers[a.worker] ==>
              && t.workers[a.worker].key in s.items
              && t.workers[a.worker].pc.record.id !in s.items[t.workers[a.worker].key].calls
  {
    hide StepInsert, StepClaim, LifecycleWrite, SettleRead, RequeueEligible, SettleWrite, RequeueAccepted, ClaimHolds,
         Charge, Release, RequeuePlan, Lists, BeginRead, ValidFence;
  }

  // ---------------------------------------------------------------- head lineage

  /** Every call belongs to the head it was fenced for, and a successor's attempts all come later. */
  ghost predicate Lineage(item: Item) {
    if item.successors == 0 then
      && item.predecessor.None? && item.run.Delivered?
      && forall id :: id in item.calls ==>
                        item.calls[id].identity.run == item.run && item.calls[id].identity.head == item.head
    else
      && item.successors == 1 && item.predecessor.Some?
      && var p := item.predecessor.value;
         && p.oldRun.Delivered? && item.run == p.newRun && item.run.Successor? && item.head == p.newHead != p.oldHead
         && p.contextAttempt <= item.contextAttempt
         && (item.contextLease.Some? ==> p.contextAttempt < item.contextAttempt)
         && forall id :: id in item.calls ==> InLineage(item.calls[id].identity, p)
  }

  ghost predicate AllLineage(s: Sys) {
    forall k :: k in s.items ==> Lineage(s.items[k])
  }

  predicate InLineage(call: Identity, p: Predecessor) {
    if call.run == p.newRun then call.head == p.newHead && (call.phase == Context ==> p.contextAttempt < call.attempt)
    else call.run == p.oldRun && call.head == p.oldHead && call.phase == Context && call.attempt <= p.contextAttempt
  }

  lemma FenceKeepsLineage(item: Item, r: Record, claim: Claim)
    requires Lineage(item) && FenceAccepted(item, r, claim)
    requires r.identity.phase == claim.phase && r.identity.attempt == claim.attempt
    ensures Lineage(WithFence(item, r))
  {
    if item.successors == 1 {
      assert InLineage(r.identity, item.predecessor.value);
    }
  }

  lemma SuccessorKeepsLineage(key: Key, item: Item, claim: Claim, plan: Requeue, maxAttempts: int)
    requires Lineage(item) && ItemOk(key, item, maxAttempts)
    requires RequeueAccepted(item, claim, plan) && SuccessorCore(item, Requeued(item, plan))
    ensures Lineage(Requeued(item, plan))
  {
    forall id | id in item.calls
      ensures InLineage(item.calls[id].identity, plan.predecessor)
    {
      assert RecordOk(item, id, maxAttempts);
    }
  }

  lemma StepKeepsLineage(s: Sys, a: Action, t: Sys)
    requires Inv(s) && Step(s, a) == Some(t)
    requires AllLineage(s)
    ensures AllLineage(t)
  {
    if a.WriteFence? {
      FenceStepKeepsLineage(s, a.worker);
    } else if a.WriteSettlement? {
      SettlementKeepsLineage(s, a.worker);
    } else if a.WriteSuccessor? {
      SuccessorStepKeepsLineage(s, a.worker);
    } else {
      OtherStepKeepsLineage(s, a, t);
    }
  }

  lemma OtherStepKeepsLineage(s: Sys, a: Action, t: Sys)
    requires AllLineage(s) && Step(s, a) == Some(t)
    requires !a.WriteFence? && !a.WriteSettlement? && !a.WriteSuccessor?
    ensures AllLineage(t)
  {
    hide StepInsert, StepClaim, StepAdmit, StepReadFence, StepPost, StepReadSettlement, StepReadSuccessor,
         StepLifecycle, StepRedeliver, Lineage;
    if a.Insert? {
      InsertKeepsLineage(s, a, t);
    } else if a.ClaimPhase? {
      ClaimStepKeepsLineage(s, a);
    } else if Lifecycle(a) {
      LifecycleKeepsLineage(s, a);
    } else {
      SilentStepWritesNothing(s, a, t);
    }
  }

  lemma InsertKeepsLineage(s: Sys, a: Action, t: Sys)
    requires AllLineage(s) && a.Insert? && StepInsert(s, a) == Some(t)
    ensures AllLineage(t)
  {
    assert Lineage(t.items[a.key]);
  }

  lemma ClaimStepKeepsLineage(s: Sys, a: Action)
    requires a.ClaimPhase? && StepClaim(s, a).Some?
    requires AllLineage(s)
    ensures AllLineage(StepClaim(s, a).value)
  {
    assert Lineage(s.items[a.key]);
    assert Lineage(StepClaim(s, a).value.items[a.key]);
  }

  lemma FenceStepKeepsLineage(s: Sys, i: nat)
    requires Inv(s) && i in s.workers && StepWriteFence(s, i, s.workers[i]).Some?
    requires AllLineage(s)
    ensures AllLineage(StepWriteFence(s, i, s.workers[i]).value)
  {
    var w := s.workers[i];
    assert WorkerOk(s.items[w.key], w, s.maxAttempts);
    if FenceAccepted(s.items[w.key], w.pc.record, w.claim) {
      FenceKeepsLineage(s.items[w.key], w.pc.record, w.claim);
    }
  }

  lemma SuccessorStepKeepsLineage(s: Sys, i: nat)
    requires Inv(s) && i in s.workers && StepWriteSuccessor(s, i, s.workers[i]).Some?
    requires AllLineage(s)
    ensures AllLineage(StepWriteSuccessor(s, i, s.workers[i]).value)
  {
    var w := s.workers[i];
    assert WorkerOk(s.items[w.key], w, s.maxAttempts);
    if RequeueAccepted(s.items[w.key], w.claim, w.pc.plan) {
      SuccessorKeepsLineage(w.key, s.items[w.key], w.claim, w.pc.plan, s.maxAttempts);
    }
  }

  lemma SettlementKeepsLineage(s: Sys, i: nat)
    requires Inv(s) && i in s.workers && StepWriteSettlement(s, i, s.workers[i]).Some?
    requires AllLineage(s)
    ensures AllLineage(StepWriteSettlement(s, i, s.workers[i]).value)
  {
    hide Lineage, Release, SettleWrite, AfterSettled, Settles;
    var w := s.workers[i];
    SettlingFence(s.items[w.key], w, s.maxAttempts);
    SettledLineage(s.items[w.key], w.pc.expected, w.pc.final, w.pc.cost);
  }

  lemma SettledLineage(item: Item, e: Record, f: Record, cost: Option<nat>)
    requires Lineage(item) && SettleWrite(item, e, f).Some? && Settles(e, f, cost)
    ensures Lineage(SettleWrite(item, e, f).value)
  {
    var next := SettleWrite(item, e, f).value;
    assert forall id :: id in next.calls ==> id in item.calls && next.calls[id].identity == item.calls[id].identity;
  }

  lemma LifecycleKeepsLineage(s: Sys, a: Action)
    requires Lifecycle(a) && a.worker in s.workers && AllLineage(s)
    requires s.workers[a.worker].key in s.items && StepLifecycle(s, a.worker, s.workers[a.worker], a).Some?
    ensures AllLineage(StepLifecycle(s, a.worker, s.workers[a.worker], a).value)
  {
    var w := s.workers[a.worker];
    var next := LifecycleWrite(s.items[w.key], w.claim, a);
    if next.Some? {
      WriteKeepsLineage(s.items[w.key], w.claim, a);
    }
  }

  lemma WriteKeepsLineage(item: Item, claim: Claim, a: Action)
    requires Lifecycle(a) && Lineage(item) && LifecycleWrite(item, claim, a).Some?
    ensures Lineage(LifecycleWrite(item, claim, a).value)
  {
  }

  // ------------------------------------------------------------------------ runs

  ghost predicate Safe(s: Sys) {
    Inv(s) && Books(s) && PaidOk(s) && AllLineage(s)
  }

  lemma {:induction false} RunIsSafe(trace: seq<Sys>, actions: seq<Action>, n: nat)
    requires IsRun(trace, actions) && n < |trace|
    ensures Safe(trace[n])
  {
    if n > 0 {
      RunIsSafe(trace, actions, n - 1);
      var s, a := trace[n - 1], actions[n - 1];
      assert Step(s, a) == Some(trace[n]);
      StepKeepsInv(s, a);
      StepKeepsBooks(s, a);
      StepKeepsPaid(s, a, trace[n]);
      StepKeepsLineage(s, a, trace[n]);
    }
  }
}
