/** What every step of the review-run protocol keeps, apart from money. */
module ReviewInvariant {
  import opened Wrappers
  import opened DirectBudget
  import opened ReviewItem
  import opened ReviewProtocol

  // -------------------------------------------------------------- the invariant

  ghost predicate RecordOk(item: Item, id: CallId, maxAttempts: int)
    requires id in item.calls
  {
    var r := item.calls[id];
    && r.id == id == CallId(r.identity.operation, r.identity.transport)
    && 1 <= r.identity.attempt <= maxAttempts
    && r.identity.attempt <= item.Attempt(r.identity.phase)
    && (r.identity.provider == DirectOpenAi <==> r.budget.Some?)
    && (r.status == Dispatching && r.budget.Some? ==> r.budget.value.state == Reserved)
  }

  /** At most one call of an item has an unknown transport outcome. */
  ghost predicate OneDispatching(item: Item) {
    forall a, b ::
      (a in item.calls && b in item.calls
       && item.calls[a].status == Dispatching && item.calls[b].status == Dispatching) ==> a == b
  }

  ghost predicate ItemOk(key: Key, item: Item, maxAttempts: int) {
    && item.repo == key.repo != "" && item.pr == key.pr >= 1
    && item.head != "" && item.run != NO_RUN
    && 0 <= item.contextAttempt && 0 <= item.reviewAttempt
    && 0 <= item.successors <= 1
    && (item.contextLease.Some? ==> item.status == Pending)
    && (item.reviewLease.Some? ==> item.status == ContextReady)
    && (item.status == Pending ==> item.reviewAttempt == 0)
    && OneDispatching(item)
    && forall id :: id in item.calls ==> RecordOk(item, id, maxAttempts)
  }

  /** The worker still holds the newest attempt of the phase that the item is in. */
  ghost predicate Current(item: Item, claim: Claim) {
    item.status == StatusOf(claim.phase) && item.Attempt(claim.phase) == claim.attempt
  }

  ghost predicate OwnFence(item: Item, claim: Claim, r: Record) {
    && r.id in item.calls && item.calls[r.id] == r
    && r.status == Dispatching
    && r.identity.phase == claim.phase && r.identity.attempt == claim.attempt
  }

  /** How a settlement read derives the terminal record from the fence. */
  ghost predicate Settles(expected: Record, final: Record, cost: Option<nat>) {
    && final.id == expected.id && final.identity == expected.identity && final.status.Final()
    && (cost.Some? ==> expected.budget.Some? && cost.value <= expected.budget.value.reserved)
    && final.budget ==
       if expected.budget.None? then None
       else if cost.Some? then Some(expected.budget.value.(state := Settled(cost.value)))
       else Some(expected.budget.value.(state := Reserved))
  }

  /** What one worker's program counter says about the item it works on. */
  ghost predicate WorkerOk(item: Item, w: Worker, maxAttempts: int) {
    && 1 <= w.claim.attempt <= item.Attempt(w.claim.phase)
    && (w.claim.phase == Review ==> item.status != Pending)
    && (!w.pc.Claimed? && !w.pc.Closing? && !w.pc.Crashed? ==> w.claim.attempt <= maxAttempts)
    && match w.pc
       case Fencing(r) =>
         && r.status == Dispatching && r.id == CallId(r.identity.operation, r.identity.transport)
         && r.identity.phase == w.claim.phase && r.identity.attempt == w.claim.attempt
         && (r.identity.provider == DirectOpenAi <==> r.budget.Some?)
         && (r.budget.Some? ==> r.budget.value.state == Reserved)
         && (Current(item, w.claim) ==> !item.Unresolved())
       case Fenced(r) => OwnFence(item, w.claim, r)
       case Answered(r) => OwnFence(item, w.claim, r)
       case Settling(e, f, c) => OwnFence(item, w.claim, e) && Settles(e, f, c)
       case Requeuing(plan) =>
         && w.claim.phase == Context
         && (RequeueAccepted(item, w.claim, plan) ==> SuccessorCore(item, Requeued(item, plan)))
       case _ => true
  }

  /** Two workers never share an attempt of one phase of one item. */
  ghost predicate Distinct(a: Worker, b: Worker) {
    a.key == b.key && a.claim.phase == b.claim.phase ==> a.claim.attempt != b.claim.attempt
  }

  ghost predicate WorkersDistinct(s: Sys) {
    forall i, j :: i in s.workers && j in s.workers && i != j ==> Distinct(s.workers[i], s.workers[j])
  }

  ghost predicate Inv(s: Sys) {
    && (forall k :: k in s.items ==> ItemOk(k, s.items[k], s.maxAttempts))
    && (forall i :: i in s.workers ==> s.workers[i].key in s.items)
    && (forall i :: i in s.workers ==> WorkerOk(s.items[s.workers[i].key], s.workers[i], s.maxAttempts))
    && WorkersDistinct(s)
  }

  /** A step moves at most the worker that takes it; a claim adds one. */
  ghost predicate WorkersMove(s: Sys, a: Action, t: Sys) {
    if a.Insert? || a.Redeliver? then t.workers == s.workers
    else if a.ClaimPhase? then
      && a.worker !in s.workers && a.worker in t.workers && t.workers == s.workers[a.worker := t.workers[a.worker]]
      && t.workers[a.worker].pc.Claimed? && t.workers[a.worker].key == a.key
      && t.workers[a.worker].claim == Claim(a.phase, a.owner, a.event, t.workers[a.worker].claim.attempt)
    else
      && a.worker in s.workers && a.worker in t.workers
      && t.workers == s.workers[a.worker := s.workers[a.worker].(pc := t.workers[a.worker].pc)]
  }

  lemma StepMovesWorkers(s: Sys, a: Action, t: Sys)
    requires Step(s, a) == Some(t)
    ensures WorkersMove(s, a, t)
  {
    hide SettleRead, RequeueEligible, FenceAccepted, SettleWrite, LifecycleWrite, AfterFenceRead, RequeueAccepted,
         Charge, Release, ClaimHolds, RequeuePlan, Lists;
  }

  /** The reads, the request itself, a repeated report and a crash write nothing durable. */
  predicate Silent(a: Action) {
    a.Admit? || a.ReadFence? || a.Post? || a.ReadSettlement? || a.ReadSuccessor? || a.Redeliver? || a.Crash?
  }

  lemma SilentStepWritesNothing(s: Sys, a: Action, t: Sys)
    requires Step(s, a) == Some(t) && Silent(a)
    ensures t.items == s.items && t.counters == s.counters
  {
    hide SettleRead, RequeueEligible, AfterFenceRead, ClaimHolds, RequeuePlan, Lists, Offers;
  }

  // ------------------------------------------------------------ lifting one step

  /** A step of worker i that changes only its own item keeps the invariant if it keeps these local facts. */
  lemma LiftStep(s: Sys, t: Sys, i: nat, item: Item, pc: Pc)
    requires Inv(s) && i in s.workers
    requires t.items == s.items[s.workers[i].key := item]
    requires t.workers == s.workers[i := s.workers[i].(pc := pc)] && t.maxAttempts == s.maxAttempts
    requires ItemOk(s.workers[i].key, item, s.maxAttempts)
    requires WorkerOk(item, s.workers[i].(pc := pc), s.maxAttempts)
    requires forall j :: j in s.workers && j != i && s.workers[j].key == s.workers[i].key
                         ==> WorkerOk(item, s.workers[j], s.maxAttempts)
    ensures Inv(t)
  {
    hide ItemOk;
    LiftDistinct(s, t, i);
    forall j | j in t.workers
      ensures t.workers[j].key in t.items && WorkerOk(t.items[t.workers[j].key], t.workers[j], t.maxAttempts)
    {
      hide WorkerOk, Distinct;
      assert j != i ==> t.workers[j] == s.workers[j];
    }
  }

  lemma LiftDistinct(s: Sys, t: Sys, i: nat)
    requires WorkersDistinct(s) && i in s.workers && i in t.workers
    requires t.workers == s.workers[i := s.workers[i].(pc := t.workers[i].pc)]
    ensures WorkersDistinct(t)
  {
    forall j, k | j in t.workers && k in t.workers && j != k
      ensures Distinct(t.workers[j], t.workers[k])
    {
      assert Distinct(s.workers[j], s.workers[k]);
    }
  }

  lemma LiftMove(s: Sys, i: nat, pc: Pc)
    requires Inv(s) && i in s.workers
    requires WorkerOk(s.items[s.workers[i].key], s.workers[i].(pc := pc), s.maxAttempts)
    ensures Inv(Move(s, i, pc))
  {
    var t := Move(s, i, pc);
    var key := s.workers[i].key;
    assert t.items == s.items[key := s.items[key]];
    LiftStep(s, t, i, s.items[key], pc);
  }

  // ----------------------------------------------------- one write, two workers

  /** A fence by one current worker leaves no other worker current, so no other read goes stale. */
  lemma FenceKeepsOther(item: Item, w: Worker, o: Worker, r: Record, maxAttempts: int)
    requires WorkerOk(item, o, maxAttempts) && Distinct(w, o) && w.key == o.key
    requires FenceAccepted(item, r, w.claim) && r.id !in item.calls
    ensures WorkerOk(WithFence(item, r), o, maxAttempts)
  {
  }

  lemma FenceKeepsItem(key: Key, item: Item, w: Worker, r: Record, maxAttempts: int)
    requires ItemOk(key, item, maxAttempts)
    requires w.pc == Fencing(r) && WorkerOk(item, w, maxAttempts)
    requires FenceAccepted(item, r, w.claim)
    ensures ItemOk(key, WithFence(item, r), maxAttempts)
    ensures WorkerOk(WithFence(item, r), w.(pc := Fenced(r)), maxAttempts)
  {
    hide RecordOk, OneDispatching, FenceAccepted;
    FenceLeavesOne(item, w, r, maxAttempts);
    forall id | id in WithFence(item, r).calls { FencedRecordOk(key, item, w, r, id, maxAttempts); }
    FenceConditions(item, w, r);
  }

  lemma FenceConditions(item: Item, w: Worker, r: Record)
    requires FenceAccepted(item, r, w.claim)
    ensures Current(item, w.claim) && r.id !in item.calls
  {
  }

  /** The current claim's read still holds: no call of the item was open, so the new fence is the only one. */
  lemma FenceLeavesOne(item: Item, w: Worker, r: Record, maxAttempts: int)
    requires w.pc == Fencing(r) && WorkerOk(item, w, maxAttempts) && FenceAccepted(item, r, w.claim)
    ensures OneDispatching(WithFence(item, r))
  {
    hide SuccessorCore, Settles;
    assert Current(item, w.claim);
  }

  lemma FencedRecordOk(key: Key, item: Item, w: Worker, r: Record, id: CallId, maxAttempts: int)
    requires ItemOk(key, item, maxAttempts) && id in WithFence(item, r).calls
    requires w.pc == Fencing(r) && WorkerOk(item, w, maxAttempts) && FenceAccepted(item, r, w.claim)
    ensures RecordOk(WithFence(item, r), id, maxAttempts)
  {
    hide OneDispatching, SuccessorCore, Settles;
    if id != r.id { assert RecordOk(item, id, maxAttempts); }
  }

  lemma SettleKeepsItem(key: Key, item: Item, w: Worker, maxAttempts: int)
    requires ItemOk(key, item, maxAttempts)
    requires w.pc.Settling? && WorkerOk(item, w, maxAttempts)
    ensures SettleWrite(item, w.pc.expected, w.pc.final).Some?
    ensures var next := SettleWrite(item, w.pc.expected, w.pc.final).value;
            ItemOk(key, next, maxAttempts) && WorkerOk(next, w.(pc := Ready), maxAttempts)
  {
    var e, f := w.pc.expected, w.pc.final;
    var next := SettleWrite(item, e, f).value;
    forall id | id in next.calls
      ensures RecordOk(next, id, maxAttempts)
    {
      assert RecordOk(item, id, maxAttempts);
    }
  }

  lemma SettleKeepsOther(item: Item, w: Worker, o: Worker, maxAttempts: int)
    requires w.pc.Settling? && WorkerOk(item, w, maxAttempts)
    requires WorkerOk(item, o, maxAttempts) && Distinct(w, o) && w.key == o.key
    requires OneDispatching(item)
    ensures SettleWrite(item, w.pc.expected, w.pc.final).Some?
    ensures WorkerOk(SettleWrite(item, w.pc.expected, w.pc.final).value, o, maxAttempts)
  {
    var e, f := w.pc.expected, w.pc.final;
    var next := SettleWrite(item, e, f).value;
    assert item.Unresolved();
    if o.pc.Requeuing? {
      assert e.id in Requeued(item, o.pc.plan).calls;
    }
  }

  // --------------------------------------------------------------- item writes

  lemma ClaimKeepsItem(key: Key, item: Item, a: Action, maxAttempts: int)
    requires ItemOk(key, item, maxAttempts) && a.ClaimPhase?
    requires ClaimWrite(item, a.phase, a.owner, a.event, a.head, a.run, a.now, a.leaseSeconds).Some?
    ensures ItemOk(key, ClaimWrite(item, a.phase, a.owner, a.event, a.head, a.run, a.now, a.leaseSeconds).value, maxAttempts)
  {
    var next := ClaimWrite(item, a.phase, a.owner, a.event, a.head, a.run, a.now, a.leaseSeconds).value;
    forall id | id in next.calls
      ensures RecordOk(next, id, maxAttempts)
    {
      assert RecordOk(item, id, maxAttempts);
    }
  }

  /** A new claim retires every earlier claim of the phase: none of them is current any more. */
  lemma ClaimKeepsOther(item: Item, o: Worker, a: Action, maxAttempts: int)
    requires WorkerOk(item, o, maxAttempts) && a.ClaimPhase?
    requires ClaimWrite(item, a.phase, a.owner, a.event, a.head, a.run, a.now, a.leaseSeconds).Some?
    ensures WorkerOk(ClaimWrite(item, a.phase, a.owner, a.event, a.head, a.run, a.now, a.leaseSeconds).value, o, maxAttempts)
  {
  }

  /** The lifecycle writes change neither the calls nor the attempts, and move status only forward. */
  ghost predicate Quiet(item: Item, next: Item) {
    && next.repo == item.repo && next.pr == item.pr
    && next.attempt == item.attempt && next.contextAttempt == item.contextAttempt
    && next.reviewAttempt == item.reviewAttempt
    && next.calls == item.calls
    && (next.contextLease == item.contextLease || next.contextLease.None?)
    && (next.reviewLease == item.reviewLease || next.reviewLease.None?)
    && (next.status == item.status || next.status != Pending)
    && (next.status == ContextReady ==> item.status == Pending || item.status == ContextReady)
  }

  lemma QuietKeepsItem(key: Key, item: Item, next: Item, maxAttempts: int)
    requires ItemOk(key, item, maxAttempts) && Quiet(item, next)
    requires next.head != "" && next.run != NO_RUN && 0 <= next.successors <= 1
    requires next.status != item.status ==> next.contextLease.None? && next.reviewLease.None?
    ensures ItemOk(key, next, maxAttempts)
  {
    forall id | id in next.calls
      ensures RecordOk(next, id, maxAttempts)
    {
      assert RecordOk(item, id, maxAttempts);
    }
  }

  /** A lifecycle write by another owner cannot pass unnoticed by a pending successor write. */
  lemma QuietKeepsOther(item: Item, next: Item, o: Worker, maxAttempts: int)
    requires WorkerOk(item, o, maxAttempts) && Quiet(item, next)
    requires item.status == Pending ==> item.reviewAttempt == 0
    requires o.pc.Requeuing? && RequeueAccepted(next, o.claim, o.pc.plan) ==>
               && RequeueAccepted(item, o.claim, o.pc.plan)
               && next.reviewLease == item.reviewLease
    ensures WorkerOk(next, o, maxAttempts)
  {
    if o.pc.Fencing? && Current(next, o.claim) {
      assert Current(item, o.claim);
      assert !item.Unresolved();
    }
    if o.pc.Requeuing? && RequeueAccepted(next, o.claim, o.pc.plan) {
      assert SuccessorCore(item, Requeued(item, o.pc.plan));
    }
  }

  // ------------------------------------------------------------------ own reads

  /** A fence read that proceeds proves the worker's claim current and the item free of unknown outcomes. */
  lemma ReadFenceKeeps(s: Sys, a: Action)
    requires Inv(s) && a.ReadFence? && a.worker in s.workers && StepReadFence(s, s.workers[a.worker], a).Some?
    ensures Inv(StepReadFence(s, s.workers[a.worker], a).value)
  {
    var w := s.workers[a.worker];
    FenceReadOk(s.items[w.key], w, a, s.maxAttempts);
    LiftMove(s, a.worker, AfterFenceRead(s.items[w.key], w.claim, a));
  }

  lemma FenceReadOk(item: Item, w: Worker, a: Action, maxAttempts: int)
    requires a.ReadFence? && w.pc.Ready? && WorkerOk(item, w, maxAttempts)
    ensures WorkerOk(item, w.(pc := AfterFenceRead(item, w.claim, a)), maxAttempts)
  {
  }

  /** A settlement read that proceeds has paired the worker's own fence with its terminal record. */
  lemma SettlementReadPairs(item: Item, e: Record, reported: Record)
    requires e.id in item.calls && item.calls[e.id] == e && e.status == Dispatching && reported.id == e.id
    requires e.budget.Some? <==> e.identity.provider == DirectOpenAi
    requires e.budget.Some? ==> e.budget.value.state == Reserved
    ensures var verdict := SettleRead(item, reported);
            verdict.Replace? ==> verdict.expected == e && Settles(e, verdict.final, verdict.cost)
  {
  }

  lemma SettlementReadOk(key: Key, item: Item, w: Worker, reported: Record, maxAttempts: int)
    requires ItemOk(key, item, maxAttempts) && WorkerOk(item, w, maxAttempts)
    requires (w.pc.Fenced? || w.pc.Answered?) && reported.id == w.pc.record.id
    ensures WorkerOk(item, w.(pc := AfterSettlementRead(item, reported)), maxAttempts)
  {
    assert RecordOk(item, reported.id, maxAttempts);
    SettlementReadPairs(item, w.pc.record, reported);
  }

  lemma ReadSettlementKeeps(s: Sys, a: Action)
    requires Inv(s) && a.ReadSettlement? && a.worker in s.workers && StepReadSettlement(s, s.workers[a.worker], a).Some?
    ensures Inv(StepReadSettlement(s, s.workers[a.worker], a).value)
  {
    var w := s.workers[a.worker];
    SettlementReadOk(w.key, s.items[w.key], w, a.reported, s.maxAttempts);
    LiftMove(s, a.worker, AfterSettlementRead(s.items[w.key], a.reported));
  }

  /** A listing without repetition, as long as its set, names exactly the members of the set. */
  lemma ListingIsExact(ids: seq<CallId>, members: set<CallId>)
    requires Lists(ids, members)
    ensures (set id | id in ids) == members
  {
    var listed := set id | id in ids;
    DistinctCount(ids);
    SubsetOfEqualSize(listed, members);
  }

  lemma SubsetOfEqualSize<T>(small: set<T>, large: set<T>)
    requires small <= large && |small| == |large|
    ensures small == large
  {
    assert |large - small| == |large| - |small|;
  }

  lemma {:induction false} DistinctCount(ids: seq<CallId>)
    requires forall i, j :: 0 <= i < j < |ids| ==> ids[i] != ids[j]
    ensures |set id | id in ids| == |ids|
  {
    if ids != [] {
      var front := ids[..|ids| - 1];
      DistinctCount(front);
      assert (set id | id in ids) == (set id | id in front) + {ids[|ids| - 1]};
    }
  }

  /** At the moment of the read, the planned write is a valid successor transition. */
  lemma SuccessorReadPlans(key: Key, item: Item, claim: Claim, a: Action, maxAttempts: int)
    requires ItemOk(key, item, maxAttempts) && a.ReadSuccessor?
    requires RequeueEligible(item, claim, a.oldHead, a.newHead, maxAttempts) && Lists(a.ids, item.RecordIds())
    ensures ValidSuccessor(item, Requeued(item, RequeuePlan(item, a.stage, a.newHead, a.ids)))
  {
    ListingIsExact(a.ids, item.RecordIds());
    forall id | id in item.calls
      ensures item.calls[id].id == id && item.calls[id].status != Dispatching
    {
      assert RecordOk(item, id, maxAttempts);
    }
  }

  lemma ReadSuccessorKeeps(s: Sys, a: Action)
    requires Inv(s) && a.ReadSuccessor? && a.worker in s.workers && StepReadSuccessor(s, s.workers[a.worker], a).Some?
    ensures Inv(StepReadSuccessor(s, s.workers[a.worker], a).value)
  {
    var w := s.workers[a.worker];
    var item := s.items[w.key];
    if RequeueEligible(item, w.claim, a.oldHead, a.newHead, s.maxAttempts) {
      SuccessorReadPlans(w.key, item, w.claim, a, s.maxAttempts);
    }
    LiftMove(s, a.worker, StepReadSuccessor(s, w, a).value.workers[a.worker].pc);
  }

  // ------------------------------------------------------------------ own writes

  /** A worker may stop at any point. */
  lemma ClosingIsOk(item: Item, w: Worker, maxAttempts: int)
    requires WorkerOk(item, w, maxAttempts)
    ensures WorkerOk(item, w.(pc := Closing), maxAttempts)
  {
  }

  lemma WriteFenceKeeps(s: Sys, i: nat)
    requires Inv(s) && i in s.workers && StepWriteFence(s, i, s.workers[i]).Some?
    ensures Inv(StepWriteFence(s, i, s.workers[i]).value)
  {
    hide Distinct, WorkerOk, ItemOk, Charge;
    var w := s.workers[i];
    var t := StepWriteFence(s, i, w).value;
    var item, r := s.items[w.key], w.pc.record;
    if t.workers[i].pc == Closing {
      ClosingIsOk(item, w, s.maxAttempts);
      LiftMove(s, i, Closing);
    } else {
      FenceKeepsItem(w.key, item, w, r, s.maxAttempts);
      forall j | j in s.workers && j != i && s.workers[j].key == w.key
        ensures WorkerOk(WithFence(item, r), s.workers[j], s.maxAttempts)
      {
        assert Distinct(w, s.workers[j]);
        FenceKeepsOther(item, w, s.workers[j], r, s.maxAttempts);
      }
      LiftStep(s, t, i, WithFence(item, r), Fenced(r));
    }
  }

  lemma WriteSettlementKeeps(s: Sys, i: nat)
    requires Inv(s) && i in s.workers && StepWriteSettlement(s, i, s.workers[i]).Some?
    ensures Inv(StepWriteSettlement(s, i, s.workers[i]).value)
  {
    hide WorkerOk, ItemOk, Distinct, AfterSettled, Release, Settles;
    var w := s.workers[i];
    var line := AfterSettled(LineOf(s, i), w.pc.final);
    SettledItemKeeps(s, i);
    if Release(s.counters, w.pc.final.budget, w.pc.cost).None? {
      StaysInProtocol(s, i);
      NoteKeeps(Move(s, i, Ready), i, line);
    } else {
      SettledMoves(s, i, Release(s.counters, w.pc.final.budget, w.pc.cost).value);
      NoteKeeps(SettledSys(s, i, Release(s.counters, w.pc.final.budget, w.pc.cost).value), i, line);
    }
  }

  ghost function SettledSys(s: Sys, i: nat, counters: Counters): Sys
    requires i in s.workers && s.workers[i].key in s.items && s.workers[i].pc.Settling?
    requires SettleWrite(s.items[s.workers[i].key], s.workers[i].pc.expected, s.workers[i].pc.final).Some?
  {
    var w := s.workers[i];
    Move(s.(items := s.items[w.key := SettleWrite(s.items[w.key], w.pc.expected, w.pc.final).value],
            counters := counters), i, Ready)
  }

  lemma SettledMoves(s: Sys, i: nat, counters: Counters)
    requires Inv(s) && i in s.workers && s.workers[i].pc.Settling?
    requires SettleWrite(s.items[s.workers[i].key], s.workers[i].pc.expected, s.workers[i].pc.final).Some?
    ensures Inv(SettledSys(s, i, counters))
  {
    hide WorkerOk, ItemOk, Distinct, SettleWrite, Settles;
    var w := s.workers[i];
    SettledItemKeeps(s, i);
    LiftStep(s, SettledSys(s, i, counters), i, SettleWrite(s.items[w.key], w.pc.expected, w.pc.final).value, Ready);
  }

  lemma StaysInProtocol(s: Sys, i: nat)
    requires Inv(s) && i in s.workers && s.workers[i].pc.Settling?
    ensures Inv(Move(s, i, Closing)) && Inv(Move(s, i, Ready))
  {
    LiftMove(s, i, Closing);
    LiftMove(s, i, Ready);
  }

  lemma SettledItemKeeps(s: Sys, i: nat)
    requires Inv(s) && i in s.workers && s.workers[i].pc.Settling?
    ensures var w := s.workers[i];
            var next := SettleWrite(s.items[w.key], w.pc.expected, w.pc.final);
            && next.Some? && ItemOk(w.key, next.value, s.maxAttempts)
            && WorkerOk(next.value, w.(pc := Ready), s.maxAttempts)
            && forall j :: (j in s.workers && j != i && s.workers[j].key == w.key)
                           ==> WorkerOk(next.value, s.workers[j], s.maxAttempts)
  {
    var w := s.workers[i];
    var item := s.items[w.key];
    SettleKeepsItem(w.key, item, w, s.maxAttempts);
    forall j | j in s.workers && j != i && s.workers[j].key == w.key
      ensures WorkerOk(SettleWrite(item, w.pc.expected, w.pc.final).value, s.workers[j], s.maxAttempts)
    {
      assert Distinct(w, s.workers[j]);
      SettleKeepsOther(item, w, s.workers[j], s.maxAttempts);
    }
  }

  /** A lifecycle write of an owner: release, advance, intents and admission. */
  ghost predicate QuietWrite(item: Item, next: Item, claim: Claim) {
    && Quiet(item, next) && Owns(item, claim)
    && next.head == item.head && next.run == item.run && next.successors == item.successors
    && (next.status != item.status ==> next.contextLease.None? && next.reviewLease.None?)
    && (next.intent == item.intent || next.intent.Some?)
    && (next.receipt == item.receipt || next.receipt.Some?)
  }

  lemma QuietWriteKeeps(s: Sys, i: nat, next: Item)
    requires Inv(s) && i in s.workers && Free(s.workers[i].pc)
    requires QuietWrite(s.items[s.workers[i].key], next, s.workers[i].claim)
    ensures Inv(Write(s, i, Some(next), s.workers[i].pc))
  {
    hide Distinct, WorkerOk, RecordOk, OneDispatching;
    var w := s.workers[i];
    var item := s.items[w.key];
    QuietKeepsItem(w.key, item, next, s.maxAttempts);
    forall j | j in s.workers && j != i && s.workers[j].key == w.key
      ensures WorkerOk(next, s.workers[j], s.maxAttempts)
    {
      assert Distinct(w, s.workers[j]);
      QuietKeepsOther(item, next, s.workers[j], s.maxAttempts);
    }
    QuietKeepsOther(item, next, w, s.maxAttempts);
    LiftStep(s, Write(s, i, Some(next), s.workers[i].pc), i, next, w.pc);
  }

  lemma WriteSuccessorKeeps(s: Sys, i: nat)
    requires Inv(s) && i in s.workers && StepWriteSuccessor(s, i, s.workers[i]).Some?
    ensures Inv(StepWriteSuccessor(s, i, s.workers[i]).value)
  {
    hide Distinct, RecordOk, OneDispatching, Settles;
    var w := s.workers[i];
    var item, plan := s.items[w.key], w.pc.plan;
    ClosingIsOk(item, w, s.maxAttempts);
    if !RequeueAccepted(item, w.claim, plan) {
      LiftMove(s, i, Closing);
    } else {
      var next := Requeued(item, plan);
      QuietKeepsItem(w.key, item, next, s.maxAttempts);
      forall j | j in s.workers && j != i && s.workers[j].key == w.key
        ensures WorkerOk(next, s.workers[j], s.maxAttempts)
      {
        assert Distinct(w, s.workers[j]);
        QuietKeepsOther(item, next, s.workers[j], s.maxAttempts);
      }
      LiftStep(s, StepWriteSuccessor(s, i, w).value, i, next, Closing);
    }
  }

  lemma ClaimKeeps(s: Sys, a: Action)
    requires Inv(s) && a.ClaimPhase? && StepClaim(s, a).Some?
    ensures Inv(StepClaim(s, a).value)
  {
    hide RecordOk, OneDispatching, SuccessorCore, Settles;
    var t := StepClaim(s, a).value;
    var item := s.items[a.key];
    var next := ClaimWrite(item, a.phase, a.owner, a.event, a.head, a.run, a.now, a.leaseSeconds).value;
    ClaimKeepsItem(a.key, item, a, s.maxAttempts);
    forall j | j in t.workers
      ensures t.workers[j].key in t.items && WorkerOk(t.items[t.workers[j].key], t.workers[j], t.maxAttempts)
      ensures j != a.worker ==> Distinct(t.workers[j], t.workers[a.worker])
    {
      if j != a.worker {
        var o := s.workers[j];
        assert t.workers[j] == o && WorkerOk(s.items[o.key], o, s.maxAttempts);
        if o.key == a.key { ClaimKeepsOther(item, o, a, s.maxAttempts); }
      }
    }
    forall j, k | j in t.workers && k in t.workers && j != k
      ensures Distinct(t.workers[j], t.workers[k])
    {
      if j != a.worker && k != a.worker { assert Distinct(s.workers[j], s.workers[k]); }
    }
  }

  // ------------------------------------------------------------------- all steps

  lemma StepKeepsInv(s: Sys, a: Action)
    requires Inv(s) && Step(s, a).Some?
    ensures Inv(Step(s, a).value)
  {
    hide StepInsert, StepClaim, StepAdmit, StepReadFence, StepWriteFence, StepPost, StepReadSettlement,
         StepWriteSettlement, StepReadSuccessor, StepWriteSuccessor, StepLifecycle, StepRedeliver, WorkerOk, ItemOk;
    if a.Insert? { InsertKeeps(s, a); }
    else if a.ClaimPhase? { ClaimKeeps(s, a); }
    else if a.Redeliver? { RedeliverKeeps(s, a); }
    else if a.Admit? { AdmitKeeps(s, a.worker); }
    else if a.ReadFence? { ReadFenceKeeps(s, a); }
    else if a.WriteFence? { WriteFenceKeeps(s, a.worker); }
    else if a.Post? { PostKeeps(s, a.worker); }
    else if a.ReadSettlement? { ReadSettlementKeeps(s, a); }
    else if a.WriteSettlement? { WriteSettlementKeeps(s, a.worker); }
    else if a.ReadSuccessor? { ReadSuccessorKeeps(s, a); }
    else if a.WriteSuccessor? { WriteSuccessorKeeps(s, a.worker); }
    else if a.Crash? { CrashKeeps(s, a.worker); }
    else { LifecycleKeeps(s, a); }
  }

  lemma InsertKeeps(s: Sys, a: Action)
    requires Inv(s) && a.Insert? && StepInsert(s, a).Some?
    ensures Inv(StepInsert(s, a).value)
  {
    var t := StepInsert(s, a).value;
    assert forall i :: i in t.workers ==> t.items[t.workers[i].key] == s.items[s.workers[i].key];
  }

  lemma AdmitKeeps(s: Sys, i: nat)
    requires Inv(s) && i in s.workers && StepAdmit(s, i, s.workers[i]).Some?
    ensures Inv(StepAdmit(s, i, s.workers[i]).value)
  {
    LiftMove(s, i, StepAdmit(s, i, s.workers[i]).value.workers[i].pc);
  }

  /** The memory of a retry loop is no part of the invariant. */
  lemma NoteKeeps(s: Sys, i: nat, line: Line)
    requires Inv(s)
    ensures Inv(Note(s, i, line))
  {
    hide WorkerOk, ItemOk, Distinct;
  }

  lemma RedeliverKeeps(s: Sys, a: Action)
    requires Inv(s) && a.Redeliver? && StepRedeliver(s, a.key, a.reported).Some?
    ensures Inv(StepRedeliver(s, a.key, a.reported).value)
  {
  }

  lemma CrashKeeps(s: Sys, i: nat)
    requires Inv(s) && i in s.workers
    ensures Inv(Move(s, i, Crashed))
  {
    LiftMove(s, i, Crashed);
  }

  lemma PostKeeps(s: Sys, i: nat)
    requires Inv(s) && i in s.workers && StepPost(s, i, s.workers[i]).Some?
    ensures Inv(StepPost(s, i, s.workers[i]).value)
  {
    hide ItemOk, Distinct, FenceAccepted;
    var r := s.workers[i].pc.record;
    LiftMove(s, i, Answered(r));
    PaidKeeps(Move(s, i, Answered(r)), s.paid + multiset{(s.workers[i].key, r.id)}, i, LineOf(s, i).(sent := true));
  }

  lemma PaidKeeps(s: Sys, paid: multiset<(Key, CallId)>, i: nat, line: Line)
    requires Inv(s)
    ensures Inv(Note(s.(paid := paid), i, line))
  {
    hide WorkerOk, ItemOk, Distinct;
  }

  lemma LifecycleIsQuiet(key: Key, item: Item, claim: Claim, a: Action, maxAttempts: int)
    requires ItemOk(key, item, maxAttempts) && Lifecycle(a) && LifecycleWrite(item, claim, a).Some?
    requires a.Advance? ==> Allowed(claim.phase, a.next)
    ensures QuietWrite(item, LifecycleWrite(item, claim, a).value, claim)
  {
  }

  lemma LifecycleKeeps(s: Sys, a: Action)
    requires Inv(s) && Lifecycle(a) && a.worker in s.workers && StepLifecycle(s, a.worker, s.workers[a.worker], a).Some?
    ensures Inv(StepLifecycle(s, a.worker, s.workers[a.worker], a).value)
  {
    hide WorkerOk, ItemOk, Distinct, LifecycleWrite, QuietWrite;
    var w := s.workers[a.worker];
    var item := s.items[w.key];
    var next := LifecycleWrite(item, w.claim, a);
    if next.None? {
      LiftMove(s, a.worker, w.pc);
    } else {
      LifecycleIsQuiet(w.key, item, w.claim, a, s.maxAttempts);
      QuietWriteKeeps(s, a.worker, next.value);
    }
  }
}
