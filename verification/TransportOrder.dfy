/**
  The transport indexes on the durable item: a retry is fenced only after the attempt before it was
  settled as retryable, so the stored indexes of one operation are 1..n, and n stays within the retries.
 */
module TransportOrder {
  import opened Wrappers
  import opened ReviewItem
  import opened ReviewProtocol
  import opened ReviewInvariant
  import opened GrantLedger
  import opened ReviewTheorems
  import opened ReviewHistory
  import opened ClientProtocol

  function Earlier(id: CallId): CallId {
    CallId(id.operation, id.transport - 1)
  }

  /** The attempt before this one is stored with a status after which the loop tries again. */
  predicate Follows(item: Item, id: CallId) {
    Earlier(id) in item.calls && Retried(item.calls[Earlier(id)].status)
  }

  predicate InOrder(item: Item, id: CallId, maxRetries: nat) {
    1 <= id.transport <= maxRetries && (id.transport > 1 ==> Follows(item, id))
  }

  ghost predicate CallsInOrder(item: Item, maxRetries: nat) {
    forall id :: id in item.calls ==> InOrder(item, id, maxRetries)
  }

  /** What a worker may fence next, and the fence it is about to write, are in order. */
  predicate WorkerInOrder(item: Item, pc: Pc, line: Line, maxRetries: nat) {
    && (line.next.Some? ==> line.next.value.transport > 1 && Follows(item, line.next.value))
    && (pc.Fencing? ==> InOrder(item, pc.record.id, maxRetries))
  }

  ghost predicate AllInOrder(s: Sys) {
    && (forall k :: k in s.items ==> CallsInOrder(s.items[k], s.maxRetries))
    && forall i :: i in s.workers && s.workers[i].key in s.items ==>
                     WorkerInOrder(s.items[s.workers[i].key], s.workers[i].pc, LineOf(s, i), s.maxRetries)
  }

  // ------------------------------------------------------------------ single items

  lemma LaterFollows(item: Item, next: Item, id: CallId)
    requires Later(item, next) && Follows(item, id)
    ensures Follows(next, id)
  {
    assert RecordLater(item.calls[Earlier(id)], next.calls[Earlier(id)]);
  }

  lemma LaterInOrder(item: Item, next: Item, id: CallId, maxRetries: nat)
    requires Later(item, next) && InOrder(item, id, maxRetries)
    ensures InOrder(next, id, maxRetries)
  {
    hide Later, Follows;
    if id.transport > 1 { LaterFollows(item, next, id); }
  }

  lemma LaterWorkerInOrder(item: Item, next: Item, pc: Pc, line: Line, maxRetries: nat)
    requires Later(item, next) && WorkerInOrder(item, pc, line, maxRetries)
    ensures WorkerInOrder(next, pc, line, maxRetries)
  {
    hide Later, Follows;
    if line.next.Some? { LaterFollows(item, next, line.next.value); }
    if pc.Fencing? { LaterInOrder(item, next, pc.record.id, maxRetries); }
  }

  // ------------------------------------------------------------------------- steps

  /** A call id appears on an item only by the fence write that a worker had read for. */
  lemma NewCallIsFenced(s: Sys, a: Action, t: Sys, key: Key, id: CallId)
    requires Step(s, a) == Some(t) && key in t.items && id in t.items[key].calls
    requires key !in s.items || id !in s.items[key].calls
    ensures a.WriteFence? && a.worker in s.workers && s.workers[a.worker].key == key && key in s.items
    ensures s.workers[a.worker].pc.Fencing? && s.workers[a.worker].pc.record.id == id
  {
    hide StepInsert, StepClaim, StepAdmit, StepReadFence, StepPost, StepReadSettlement, StepReadSuccessor,
         StepWriteSuccessor, StepLifecycle, Charge, Release, FenceAccepted, AfterSettled;
    if !a.WriteFence? && !a.WriteSettlement? && !a.Redeliver? {
      var moved := OtherStepsKeepCalls(s, a);
    }
  }

  lemma CallsStayInOrder(s: Sys, a: Action, t: Sys, key: Key)
    requires Inv(s) && AllLineage(s) && AllInOrder(s) && Step(s, a) == Some(t) && key in t.items
    requires t.maxRetries == s.maxRetries
    ensures CallsInOrder(t.items[key], t.maxRetries)
  {
    hide Step, Later, InOrder, Inv, AllLineage;
    forall id | id in t.items[key].calls
      ensures InOrder(t.items[key], id, t.maxRetries)
    {
      if key !in s.items || id !in s.items[key].calls { NewCallIsFenced(s, a, t, key, id); }
      assert InOrder(s.items[key], id, s.maxRetries);
      StepIsLater(s, a, t, key);
      LaterInOrder(s.items[key], t.items[key], id, s.maxRetries);
    }
  }

  /** Outside the fence read and the settlement, a worker's own step offers nothing new. */
  lemma OwnMove(s: Sys, a: Action, t: Sys, i: nat)
    requires Step(s, a) == Some(t) && StepOf(a, i) && !a.ReadFence? && !a.WriteSettlement?
    ensures i in s.workers && i in t.workers && LineOf(t, i).next == LineOf(s, i).next
    ensures t.workers[i].pc.Fencing? ==> t.workers[i].pc == s.workers[i].pc
  {
    hide SettleRead, RequeueEligible, FenceAccepted, SettleWrite, LifecycleWrite, RequeueAccepted,
         Charge, Release, ClaimHolds, RequeuePlan, Lists, ClaimWrite;
  }

  /** The fence read proceeds only with what the loop offers. */
  lemma ReadIsInOrder(s: Sys, a: Action, t: Sys)
    requires a.ReadFence? && a.worker in s.workers && s.workers[a.worker].key in s.items
    requires StepReadFence(s, s.workers[a.worker], a) == Some(t)
    requires WorkerInOrder(s.items[s.workers[a.worker].key], s.workers[a.worker].pc, LineOf(s, a.worker), s.maxRetries)
    ensures t.items == s.items && a.worker in t.workers && t.workers[a.worker].key == s.workers[a.worker].key
    ensures WorkerInOrder(t.items[s.workers[a.worker].key], t.workers[a.worker].pc, LineOf(t, a.worker), s.maxRetries)
  {
    hide ValidFence, BeginRead, Follows;
    ReadIsOffered(s.items[s.workers[a.worker].key], LineOf(s, a.worker), a, s.maxRetries);
  }

  lemma ReadIsOffered(item: Item, line: Line, a: Action, maxRetries: nat)
    requires a.ReadFence? && Offers(line, a.record.id, maxRetries)
    requires line.next.Some? ==> line.next.value.transport > 1 && Follows(item, line.next.value)
    ensures InOrder(item, a.record.id, maxRetries)
  {
  }

  /** A settled retryable attempt is what makes the next index follow. */
  lemma SettlementIsInOrder(s: Sys, i: nat, t: Sys)
    requires Inv(s) && Books(s) && i in s.workers && StepWriteSettlement(s, i, s.workers[i]) == Some(t)
    requires AllInOrder(s)
    ensures i in t.workers && s.workers[i].key in t.items && t.workers[i].key == s.workers[i].key
    ensures WorkerInOrder(t.items[s.workers[i].key], t.workers[i].pc, LineOf(t, i), s.maxRetries)
  {
    hide Inv, Books, SettleWrite, Release, InOrder, Settles;
    var w := s.workers[i];
    SettlingIsStored(s, i);
    SettlementIsCovered(s, i);
    SettlementStepWrites(s, i, t);
    assert LineOf(t, i) == AfterSettled(LineOf(s, i), w.pc.final) by { hide Settles; }
    assert InOrder(s.items[w.key], w.pc.final.id, s.maxRetries);
    NextFollows(t.items[w.key], LineOf(s, i), w.pc.final, s.items[w.key], s.maxRetries);
  }

  lemma SettlingIsStored(s: Sys, i: nat)
    requires Inv(s) && i in s.workers && s.workers[i].pc.Settling?
    ensures s.workers[i].key in s.items && s.workers[i].pc.final.id in s.items[s.workers[i].key].calls
  {
    SettlingFence(s.items[s.workers[i].key], s.workers[i], s.maxAttempts);
  }

  lemma NextFollows(next: Item, line: Line, final: Record, item: Item, maxRetries: nat)
    requires InOrder(item, final.id, maxRetries) && next.calls == item.calls[final.id := final]
    ensures WorkerInOrder(next, Ready, AfterSettled(line, final), maxRetries)
  {
    assert Earlier(CallId(final.id.operation, final.id.transport + 1)) == final.id;
  }

  lemma WorkersStayInOrder(s: Sys, a: Action, t: Sys, i: nat)
    requires Inv(s) && Books(s) && AllLineage(s) && AllInOrder(s) && Step(s, a) == Some(t)
    requires i in t.workers && t.workers[i].key in t.items
    ensures WorkerInOrder(t.items[t.workers[i].key], t.workers[i].pc, LineOf(t, i), s.maxRetries)
  {
    hide StepInsert, StepClaim, StepAdmit, StepReadFence, StepWriteFence, StepPost, StepReadSettlement,
         StepWriteSettlement, StepReadSuccessor, StepWriteSuccessor, StepLifecycle, StepRedeliver,
         Later, WorkerOk, ItemOk, Distinct, Books, AllLineage, InOrder, Follows;
    StepMovesWorkers(s, a, t);
    LinesMove(s, a, t, i);
    if a.ClaimPhase? && a.worker == i {
      ClaimIsInOrder(t.items[t.workers[i].key], t.workers[i].pc, s.maxRetries);
    } else if StepOf(a, i) && a.ReadFence? {
      ReadIsInOrder(s, a, t);
    } else if StepOf(a, i) && a.WriteSettlement? {
      SettlementIsInOrder(s, i, t);
    } else {
      if StepOf(a, i) { OwnMove(s, a, t, i); }
      var key := s.workers[i].key;
      StepIsLater(s, a, t, key);
      LaterWorkerInOrder(s.items[key], t.items[key], s.workers[i].pc, LineOf(s, i), s.maxRetries);
    }
  }

  lemma ClaimIsInOrder(item: Item, pc: Pc, maxRetries: nat)
    requires pc.Claimed?
    ensures WorkerInOrder(item, pc, FreshLine, maxRetries)
  {
  }

  lemma {:induction false} RunIsInOrder(trace: seq<Sys>, actions: seq<Action>, n: nat)
    requires IsRun(trace, actions) && n < |trace|
    ensures AllInOrder(trace[n])
  {
    hide Step, Inv, Books, AllLineage, CallsInOrder, WorkerInOrder;
    if n > 0 {
      RunIsInOrder(trace, actions, n - 1);
      RunIsSafe(trace, actions, n - 1);
      var s, a, t := trace[n - 1], actions[n - 1], trace[n];
      assert Step(s, a) == Some(t);
      LinesMove(s, a, t, 0);
      forall k | k in t.items { CallsStayInOrder(s, a, t, k); }
      forall i | i in t.workers && t.workers[i].key in t.items { WorkersStayInOrder(s, a, t, i); }
    }
  }

  /**
    In every run, on every item: the stored attempts of an operation have the indexes 1..n for some n
    within the retries, and every one before the last was settled as retryable.
   */
  lemma TransportsAreConsecutive(trace: seq<Sys>, actions: seq<Action>, n: nat, key: Key, id: CallId, k: int)
    requires IsRun(trace, actions) && n < |trace| && key in trace[n].items && id in trace[n].items[key].calls
    ensures 1 <= id.transport <= trace[n].maxRetries
    ensures 1 <= k < id.transport ==>
              && CallId(id.operation, k) in trace[n].items[key].calls
              && Retried(trace[n].items[key].calls[CallId(id.operation, k)].status)
  {
    hide Step;
    RunIsInOrder(trace, actions, n);
    if 1 <= k < id.transport { EarlierAreStored(trace[n].items[key], id, k, trace[n].maxRetries); }
    assert InOrder(trace[n].items[key], id, trace[n].maxRetries);
  }

  lemma {:induction false} EarlierAreStored(item: Item, id: CallId, k: int, maxRetries: nat)
    requires CallsInOrder(item, maxRetries) && id in item.calls && 1 <= k < id.transport
    ensures CallId(id.operation, k) in item.calls && Retried(item.calls[CallId(id.operation, k)].status)
    decreases id.transport
  {
    assert InOrder(item, id, maxRetries);
    if k < id.transport - 1 {
      EarlierAreStored(item, Earlier(id), k, maxRetries);
    } else {
      assert Earlier(id) == CallId(id.operation, k);
    }
  }
}
