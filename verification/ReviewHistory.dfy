/** What the whole history of a review item promises: finality, order, and who starts when. */
module ReviewHistory {
  import opened Wrappers
  import opened DirectBudget
  import opened ReviewItem
  import opened ReviewProtocol
  import opened ReviewInvariant
  import opened GrantLedger
  import opened ReviewTheorems
  import opened RequeueAdmission

  // ----------------------------------------------------------- states of a run

  /** In every interleaving an item has at most one call whose transport outcome is unknown. */
  lemma OneUnknownOutcome(trace: seq<Sys>, actions: seq<Action>, n: nat, key: Key, a: CallId, b: CallId)
    requires IsRun(trace, actions) && n < |trace| && key in trace[n].items
    requires var calls := trace[n].items[key].calls;
             && a in calls && b in calls && calls[a].status == Dispatching && calls[b].status == Dispatching
    ensures a == b
  {
    RunIsSafe(trace, actions, n);
    assert ItemOk(key, trace[n].items[key], trace[n].maxAttempts);
  }

  /**
    The grant counter always equals what the records of all items say: everything not yet settled is
    still charged in full, unknown outcomes included, and the allocation is never exceeded.
   */
  lemma GrantIsConserved(trace: seq<Sys>, actions: seq<Action>, n: nat, c: CounterKey)
    requires IsRun(trace, actions) && n < |trace| && c in trace[n].counters
    ensures var counter := trace[n].counters[c];
            && counter.charged == counter.reserved + counter.settled
            && counter.reserved == Total(Held(c), trace[n].items)
            && counter.settled == Total(Spent(c), trace[n].items)
            && counter.charged <= counter.allocation
            && counter.policy.Finite? && counter.allocation == counter.policy.allocation
  {
    RunIsSafe(trace, actions, n);
    assert Balanced(trace[n].items, c, trace[n].counters[c]);
  }

  /** No call of either head was fenced by an attempt beyond the retry budget. */
  lemma FencesWithinRetryBudget(trace: seq<Sys>, actions: seq<Action>, n: nat, key: Key, id: CallId)
    requires IsRun(trace, actions) && n < |trace| && key in trace[n].items && id in trace[n].items[key].calls
    ensures 1 <= trace[n].items[key].calls[id].identity.attempt <= trace[n].maxAttempts
  {
    RunIsSafe(trace, actions, n);
    assert RecordOk(trace[n].items[key], id, trace[n].maxAttempts);
  }

  ghost function AttemptsUsed(item: Item, phase: Phase): set<int> {
    set id | id in item.calls && item.calls[id].identity.phase == phase :: item.calls[id].identity.attempt
  }

  /** The original head and its successor draw their paid attempts from one budget. */
  lemma HeadsShareOneBudget(trace: seq<Sys>, actions: seq<Action>, n: nat, key: Key, phase: Phase)
    requires IsRun(trace, actions) && n < |trace| && key in trace[n].items
    ensures |AttemptsUsed(trace[n].items[key], phase)| <= if trace[n].maxAttempts < 0 then 0 else trace[n].maxAttempts
  {
    var used := AttemptsUsed(trace[n].items[key], phase);
    forall x | x in used
      ensures 1 <= x <= trace[n].maxAttempts
    {
      var id :| id in trace[n].items[key].calls && trace[n].items[key].calls[id].identity.attempt == x;
      FencesWithinRetryBudget(trace, actions, n, key, id);
    }
    IntervalCount(used, trace[n].maxAttempts);
  }

  lemma {:induction false} IntervalCount(xs: set<int>, top: int)
    requires forall x :: x in xs ==> 1 <= x <= top
    ensures |xs| <= if top < 0 then 0 else top
    decreases if top < 0 then 0 else top
  {
    if top <= 0 {
      assert forall x :: x !in xs;
      assert xs == {};
    } else {
      IntervalCount(xs - {top}, top - 1);
      assert |xs| <= |xs - {top}| + 1;
    }
  }

  /** A successor's own calls all carry later context attempts than every call of its predecessor. */
  lemma SuccessorCallsAreSeparate(trace: seq<Sys>, actions: seq<Action>, n: nat, key: Key, a: CallId, b: CallId)
    requires IsRun(trace, actions) && n < |trace| && key in trace[n].items
    requires var item := trace[n].items[key];
             && a in item.calls && b in item.calls
             && item.calls[a].identity.run == item.run && item.calls[b].identity.run != item.run
    ensures var old_, new_ := trace[n].items[key].calls[b].identity, trace[n].items[key].calls[a].identity;
            && old_.phase == Context && old_.head != new_.head
            && (new_.phase == Context ==> old_.attempt < new_.attempt)
  {
    RunIsSafe(trace, actions, n);
    var item := trace[n].items[key];
    assert Lineage(item);
    assert InLineage(item.calls[a].identity, item.predecessor.value);
    assert InLineage(item.calls[b].identity, item.predecessor.value);
  }

  // ------------------------------------------------------------ paid HTTP calls

  /** No call id is ever paid for twice. */
  lemma PaidAtMostOnce(trace: seq<Sys>, actions: seq<Action>, n: nat, key: Key, id: CallId)
    requires IsRun(trace, actions) && n < |trace|
    ensures trace[n].paid[(key, id)] <= 1
    ensures (key, id) in trace[n].paid ==> key in trace[n].items && id in trace[n].items[key].calls
  {
    RunIsSafe(trace, actions, n);
  }

  /** HTTP leaves only behind the worker's own durable fence, while no other outcome of the item is unknown. */
  lemma PostIsBehindItsOwnFence(trace: seq<Sys>, actions: seq<Action>, n: nat)
    requires IsRun(trace, actions) && n < |actions| && actions[n].Post?
    ensures actions[n].worker in trace[n].workers
    ensures var w := trace[n].workers[actions[n].worker];
            && w.pc.Fenced? && w.key in trace[n].items
            && var calls := trace[n].items[w.key].calls;
               && w.pc.record.id in calls && calls[w.pc.record.id] == w.pc.record
               && w.pc.record.status == Dispatching && w.pc.record.identity.attempt == w.claim.attempt
               && forall id :: id in calls && id != w.pc.record.id ==> calls[id].status != Dispatching
  {
    RunIsSafe(trace, actions, n);
    assert Step(trace[n], actions[n]) == Some(trace[n + 1]);
    var w := trace[n].workers[actions[n].worker];
    assert WorkerOk(trace[n].items[w.key], w, trace[n].maxAttempts);
    assert ItemOk(w.key, trace[n].items[w.key], trace[n].maxAttempts);
  }

  /** A first settlement is never blocked, by the item or by the counter. */
  lemma FirstSettlementSucceeds(trace: seq<Sys>, actions: seq<Action>, n: nat)
    requires IsRun(trace, actions) && n < |actions| && actions[n].WriteSettlement?
    ensures var i := actions[n].worker;
            && i in trace[n].workers && trace[n].workers[i].pc.Settling?
            && var w := trace[n].workers[i];
               && w.key in trace[n + 1].items && trace[n + 1].workers[i].pc == Ready
               && trace[n + 1].items[w.key].calls == trace[n].items[w.key].calls[w.pc.final.id := w.pc.final]
               && Release(trace[n].counters, w.pc.final.budget, w.pc.cost) == Some(trace[n + 1].counters)
  {
    RunIsSafe(trace, actions, n);
    assert Step(trace[n], actions[n]) == Some(trace[n + 1]);
    SettlementIsCovered(trace[n], actions[n].worker);
    SettlementStepWrites(trace[n], actions[n].worker, trace[n + 1]);
  }

  lemma SettlementStepWrites(s: Sys, i: nat, t: Sys)
    requires i in s.workers && s.workers[i].key in s.items && StepWriteSettlement(s, i, s.workers[i]) == Some(t)
    requires SettleWrite(s.items[s.workers[i].key], s.workers[i].pc.expected, s.workers[i].pc.final).Some?
    requires Release(s.counters, s.workers[i].pc.final.budget, s.workers[i].pc.cost).Some?
    ensures var w := s.workers[i];
            && w.key in t.items && t.workers[i].pc == Ready
            && t.items[w.key].calls == s.items[w.key].calls[w.pc.final.id := w.pc.final]
            && Release(s.counters, w.pc.final.budget, w.pc.cost) == Some(t.counters)
  {
  }

  /** Where the terminal record of a report is stored, the report reads as settled. */
  lemma StoredReportIsSettled(item: Item, later: Item, reported: Record)
    requires SettleRead(item, reported).Replace?
    requires var final := SettleRead(item, reported).final;
             reported.id in later.calls && later.calls[reported.id] == final
    ensures SettleRead(later, reported) == AlreadySettled
  {
    var existing := item.calls[reported.id];
    if reported.identity.provider == DirectOpenAi {
      var final := FinalRecord(existing, reported);
      assert final.budget.value.(state := Reserved) == existing.budget.value.(state := Reserved);
    }
  }

  /**
    After a claim, the same phase of an unchanged item can be claimed again exactly when the lease has
    run out or the same stream event is redelivered.
   */
  lemma LeaseExcludesExactly(item: Item, first: Action, second: Action)
    requires first.ClaimPhase? && second.ClaimPhase? && first.phase == second.phase
    requires ClaimWrite(item, first.phase, first.owner, first.event, first.head, first.run, first.now, first.leaseSeconds).Some?
    ensures var held := ClaimWrite(item, first.phase, first.owner, first.event, first.head, first.run,
                                   first.now, first.leaseSeconds).value;
            var seconds := if first.leaseSeconds > LEASE_SECONDS then first.leaseSeconds else LEASE_SECONDS;
            ClaimWrite(held, second.phase, second.owner, second.event, second.head, second.run,
                       second.now, second.leaseSeconds).Some?
            <==> && (second.now > first.now + seconds || (second.event != "" && second.event == first.event))
                 && (second.head == "" || second.head == item.head)
                 && (second.run == NO_RUN || second.run == item.run)
  {
  }

  // ------------------------------------------------------------ what never undoes

  predicate Forward(a: Status, b: Status) {
    a == b || a == Pending || (a == ContextReady && b.Terminal())
  }

  /** A record keeps its identity and its price terms, and once terminal it never changes. */
  predicate RecordLater(r: Record, q: Record) {
    && q.id == r.id && q.identity == r.identity
    && (r.status != Dispatching ==> q == r)
    && (r.budget.None? ==> q.budget.None?)
    && (r.budget.Some? ==>
          q.budget.Some? && q.budget.value.(state := Reserved) == r.budget.value.(state := Reserved))
  }

  ghost predicate Later(a: Item, b: Item) {
    && Forward(a.status, b.status)
    && a.contextAttempt <= b.contextAttempt && a.reviewAttempt <= b.reviewAttempt
    && a.successors <= b.successors
    && (a.predecessor.Some? ==> b.predecessor == a.predecessor)
    && (a.intent.Some? ==> b.intent.Some? && b.head == a.head && b.run == a.run)
    && (a.receipt.Some? ==> b.receipt.Some? && b.head == a.head && b.run == a.run)
    && forall id :: id in a.calls ==> id in b.calls && RecordLater(a.calls[id], b.calls[id])
  }

  lemma LaterIsReflexive(a: Item)
    ensures Later(a, a)
  {
  }

  lemma LaterIsTransitive(a: Item, b: Item, c: Item)
    requires Later(a, b) && Later(b, c)
    ensures Later(a, c)
  {
    forall id | id in a.calls
      ensures id in c.calls && RecordLater(a.calls[id], c.calls[id])
    {
      assert RecordLater(a.calls[id], b.calls[id]) && RecordLater(b.calls[id], c.calls[id]);
    }
  }

  lemma SettlementIsLater(item: Item, w: Worker, maxAttempts: int)
    requires ItemOk(w.key, item, maxAttempts) && WorkerOk(item, w, maxAttempts) && w.pc.Settling?
    ensures SettleWrite(item, w.pc.expected, w.pc.final).Some?
    ensures Later(item, SettleWrite(item, w.pc.expected, w.pc.final).value)
  {
    SettlingFence(item, w, maxAttempts);
  }

  lemma LifecycleIsLater(item: Item, claim: Claim, a: Action)
    requires Lifecycle(a) && LifecycleWrite(item, claim, a).Some?
    requires a.Advance? ==> Allowed(claim.phase, a.next)
    ensures Later(item, LifecycleWrite(item, claim, a).value)
  {
  }

  lemma FenceIsLater(item: Item, r: Record, claim: Claim)
    requires FenceAccepted(item, r, claim)
    ensures Later(item, WithFence(item, r))
  {
  }

  lemma RequeueIsLater(item: Item, claim: Claim, plan: Requeue)
    requires Lineage(item) && RequeueAccepted(item, claim, plan)
    ensures Later(item, Requeued(item, plan))
  {
  }

  lemma ClaimIsLater(item: Item, a: Action)
    requires a.ClaimPhase?
    requires ClaimWrite(item, a.phase, a.owner, a.event, a.head, a.run, a.now, a.leaseSeconds).Some?
    ensures Later(item, ClaimWrite(item, a.phase, a.owner, a.event, a.head, a.run, a.now, a.leaseSeconds).value)
  {
  }

  lemma StepIsLater(s: Sys, a: Action, t: Sys, key: Key)
    requires Inv(s) && AllLineage(s) && Step(s, a) == Some(t) && key in s.items
    ensures key in t.items && Later(s.items[key], t.items[key])
  {
    hide StepInsert, StepClaim, StepAdmit, StepReadFence, StepWriteFence, StepPost, StepReadSettlement,
         StepWriteSettlement, StepReadSuccessor, StepWriteSuccessor, StepLifecycle, StepRedeliver, Later, ItemOk, WorkerOk, Lineage, Distinct;
    if a.WriteSettlement? {
      SettlementStepIsLater(s, a.worker, t, key);
    } else if Lifecycle(a) {
      LifecycleStepIsLater(s, a, t, key);
    } else {
      OtherStepIsLater(s, a, t, key);
    }
  }

  lemma SettlementStepIsLater(s: Sys, i: nat, t: Sys, key: Key)
    requires i in s.workers && s.workers[i].key in s.items && key in s.items
    requires ItemOk(s.workers[i].key, s.items[s.workers[i].key], s.maxAttempts)
    requires WorkerOk(s.items[s.workers[i].key], s.workers[i], s.maxAttempts)
    requires StepWriteSettlement(s, i, s.workers[i]) == Some(t)
    ensures key in t.items && Later(s.items[key], t.items[key])
  {
    hide Later, ItemOk, WorkerOk, SettleWrite, Release, AfterSettled;
    LaterIsReflexive(s.items[key]);
    var w := s.workers[i];
    SettlementIsLater(s.items[w.key], w, s.maxAttempts);
    assert t.items == s.items || t.items == s.items[w.key := SettleWrite(s.items[w.key], w.pc.expected, w.pc.final).value];
  }

  lemma LifecycleStepIsLater(s: Sys, a: Action, t: Sys, key: Key)
    requires Lifecycle(a) && a.worker in s.workers && s.workers[a.worker].key in s.items && key in s.items
    requires StepLifecycle(s, a.worker, s.workers[a.worker], a) == Some(t)
    ensures key in t.items && Later(s.items[key], t.items[key])
  {
    var w := s.workers[a.worker];
    if LifecycleWrite(s.items[w.key], w.claim, a).Some? {
      LifecycleIsLater(s.items[w.key], w.claim, a);
    }
  }

  lemma OtherStepIsLater(s: Sys, a: Action, t: Sys, key: Key)
    requires AllLineage(s) && Step(s, a) == Some(t) && key in s.items && !a.WriteSettlement? && !Lifecycle(a)
    ensures key in t.items && Later(s.items[key], t.items[key])
  {
    hide StepInsert, StepClaim, StepAdmit, StepReadFence, StepWriteFence, StepPost, StepReadSettlement,
         StepReadSuccessor, StepWriteSuccessor, StepRedeliver, Lineage, Later;
    LaterIsReflexive(s.items[key]);
    if a.Insert? {
      InsertLeavesOthers(s, a, t);
    } else if a.ClaimPhase? {
      ClaimStepIsLater(s, a, t, key);
    } else if a.WriteFence? {
      FenceStepIsLater(s, a.worker, t, key);
    } else if a.WriteSuccessor? {
      SuccessorStepIsLater(s, a.worker, t, key);
    } else {
      SilentStepWritesNothing(s, a, t);
    }
  }

  lemma InsertLeavesOthers(s: Sys, a: Action, t: Sys)
    requires a.Insert? && StepInsert(s, a) == Some(t)
    ensures a.key !in s.items && a.key in t.items && t.items == s.items[a.key := t.items[a.key]]
    ensures t.items[a.key].status == Pending
  {
  }

  lemma ClaimStepIsLater(s: Sys, a: Action, t: Sys, key: Key)
    requires a.ClaimPhase? && StepClaim(s, a) == Some(t) && key in s.items
    ensures key in t.items && Later(s.items[key], t.items[key])
  {
    hide ClaimWrite, Later;
    LaterIsReflexive(s.items[key]);
    ClaimIsLater(s.items[a.key], a);
  }

  lemma FenceStepIsLater(s: Sys, i: nat, t: Sys, key: Key)
    requires i in s.workers && s.workers[i].key in s.items && key in s.items
    requires StepWriteFence(s, i, s.workers[i]) == Some(t)
    ensures key in t.items && Later(s.items[key], t.items[key])
  {
    var w := s.workers[i];
    if FenceAccepted(s.items[w.key], w.pc.record, w.claim) {
      FenceIsLater(s.items[w.key], w.pc.record, w.claim);
    }
  }

  lemma SuccessorStepIsLater(s: Sys, i: nat, t: Sys, key: Key)
    requires AllLineage(s) && i in s.workers && s.workers[i].key in s.items && key in s.items
    requires StepWriteSuccessor(s, i, s.workers[i]) == Some(t)
    ensures key in t.items && Later(s.items[key], t.items[key])
  {
    var w := s.workers[i];
    if RequeueAccepted(s.items[w.key], w.claim, w.pc.plan) {
      RequeueIsLater(s.items[w.key], w.claim, w.pc.plan);
    }
  }

  lemma StepIsLaterInRun(trace: seq<Sys>, actions: seq<Action>, n: nat, key: Key)
    requires IsRun(trace, actions) && n < |actions| && key in trace[n].items
    ensures key in trace[n + 1].items && Later(trace[n].items[key], trace[n + 1].items[key])
  {
    RunIsSafe(trace, actions, n);
    assert Step(trace[n], actions[n]) == Some(trace[n + 1]);
    StepIsLater(trace[n], actions[n], trace[n + 1], key);
  }

  /** Between any two moments of a run nothing durable is undone. */
  lemma {:induction false} HistoryOnlyGrows(trace: seq<Sys>, actions: seq<Action>, m: nat, n: nat, key: Key)
    requires IsRun(trace, actions) && m <= n < |trace| && key in trace[m].items
    ensures key in trace[n].items && Later(trace[m].items[key], trace[n].items[key])
    decreases n
  {
    if m < n {
      HistoryOnlyGrows(trace, actions, m, n - 1, key);
      StepIsLaterInRun(trace, actions, n - 1, key);
      LaterIsTransitive(trace[m].items[key], trace[n - 1].items[key], trace[n].items[key]);
    }
  }

  /** A report that worker i read for at step k and wrote at step m, with nothing of its own in between. */
  ghost predicate Delivered(trace: seq<Sys>, actions: seq<Action>, k: nat, m: nat, i: nat, reported: Record)
    requires IsRun(trace, actions)
  {
    && k < m < |actions| && actions[k] == Action.ReadSettlement(i, reported) && actions[m] == Action.WriteSettlement(i)
    && i in trace[k + 1].workers && i in trace[m].workers && trace[m].workers[i] == trace[k + 1].workers[i]
  }

  /**
    Settlement is idempotent and final: once a report is written, however many other steps follow, every
    further delivery of it is confirmed and changes nothing; a delivery that had read earlier loses its
    write and finds the very same record.
   */
  lemma RedeliveryIsANoOp(trace: seq<Sys>, actions: seq<Action>, k: nat, m: nat, n: nat, i: nat, reported: Record)
    requires IsRun(trace, actions) && Delivered(trace, actions, k, m, i, reported) && m < n < |trace|
    ensures var w, t := trace[m].workers[i], trace[n];
            && w.pc.Settling? && w.key in t.items
            && SettleRead(t.items[w.key], reported) == AlreadySettled
            && Step(t, Redeliver(w.key, reported)) == Some(t)
            && SettleWrite(t.items[w.key], w.pc.expected, w.pc.final).None?
            && reported.id in t.items[w.key].calls && t.items[w.key].calls[reported.id] == w.pc.final
  {
    hide StepWriteSettlement, StepReadSettlement, SettleRead, Later, FinalRecord, FinalCost, WorkerOk;
    var w := trace[m].workers[i];
    FirstSettlementSucceeds(trace, actions, m);
    ReportStands(trace, actions, k, m, i, reported);
    HistoryOnlyGrows(trace, actions, m + 1, n, w.key);
    ReplacesWith(trace[m].items[w.key], reported);
    SettledStays(trace[m + 1].items[w.key], trace[n].items[w.key], w.pc.expected, w.pc.final);
    StoredReportIsSettled(trace[m].items[w.key], trace[n].items[w.key], reported);
  }

  /** The pairing that a settlement read found holds until the worker writes it. */
  lemma ReportStands(trace: seq<Sys>, actions: seq<Action>, k: nat, m: nat, i: nat, reported: Record)
    requires IsRun(trace, actions) && Delivered(trace, actions, k, m, i, reported)
    requires trace[m].workers[i].pc.Settling?
    ensures trace[m].workers[i].key in trace[m].items
    ensures var w := trace[m].workers[i];
            SettleRead(trace[m].items[w.key], reported) == Replace(w.pc.expected, w.pc.final, w.pc.cost)
  {
    hide FinalRecord, FinalCost, WorkerOk;
    RunIsSafe(trace, actions, k);
    RunIsSafe(trace, actions, m);
    assert Step(trace[k], actions[k]) == Some(trace[k + 1]);
    ReadIsPaired(trace[k], actions[k], trace[k + 1]);
    var w := trace[m].workers[i];
    SettlingFence(trace[m].items[w.key], w, trace[m].maxAttempts);
    SameFenceSameRead(trace[k].items[w.key], trace[m].items[w.key], reported);
  }

  lemma ReadIsPaired(s: Sys, a: Action, t: Sys)
    requires a.ReadSettlement? && Step(s, a) == Some(t) && a.worker in t.workers && t.workers[a.worker].pc.Settling?
    ensures a.worker in s.workers && s.workers[a.worker].key == t.workers[a.worker].key
    ensures t.workers[a.worker].key in s.items
    ensures var w := t.workers[a.worker];
            && SettleRead(s.items[w.key], a.reported) == Replace(w.pc.expected, w.pc.final, w.pc.cost)
            && a.reported.id in s.items[w.key].calls && s.items[w.key].calls[a.reported.id] == w.pc.expected
            && w.pc.final.id == a.reported.id
  {
  }

  lemma SameFenceSameRead(item: Item, later: Item, reported: Record)
    requires reported.id in item.calls && reported.id in later.calls
    requires later.calls[reported.id] == item.calls[reported.id]
    ensures SettleRead(later, reported) == SettleRead(item, reported)
  {
  }

  lemma ReplacesWith(item: Item, reported: Record)
    requires SettleRead(item, reported).Replace?
    ensures var verdict := SettleRead(item, reported);
            verdict.expected.status == Dispatching && verdict.final.status.Final() && verdict.final.id == reported.id
  {
  }

  lemma SettledStays(item: Item, later: Item, e: Record, f: Record)
    requires Later(item, later) && f.id in item.calls && item.calls[f.id] == f
    requires e.status == Dispatching && f.status.Final()
    ensures f.id in later.calls && later.calls[f.id] == f && SettleWrite(later, e, f).None?
  {
    assert RecordLater(item.calls[f.id], later.calls[f.id]);
  }

  /** Terminal statuses absorb, and the two working statuses are only ever left forward. */
  lemma StatusMovesForward(trace: seq<Sys>, actions: seq<Action>, m: nat, n: nat, key: Key)
    requires IsRun(trace, actions) && m <= n < |trace| && key in trace[m].items
    ensures key in trace[n].items && Forward(trace[m].items[key].status, trace[n].items[key].status)
    ensures trace[m].items[key].status.Terminal() ==> trace[n].items[key].status == trace[m].items[key].status
  {
    HistoryOnlyGrows(trace, actions, m, n, key);
  }

  /** While an intent or a receipt exists, the item's head is the head it was stored for. */
  lemma IntentPinsHead(trace: seq<Sys>, actions: seq<Action>, m: nat, n: nat, key: Key)
    requires IsRun(trace, actions) && m <= n < |trace| && key in trace[m].items
    requires trace[m].items[key].intent.Some? || trace[m].items[key].receipt.Some?
    ensures key in trace[n].items
    ensures trace[n].items[key].head == trace[m].items[key].head && trace[n].items[key].run == trace[m].items[key].run
    ensures trace[m].items[key].intent.Some? ==> trace[n].items[key].intent.Some?
  {
    HistoryOnlyGrows(trace, actions, m, n, key);
  }

  /** An intent appears once, as prepared for the head in place, and changes only by its exact replacement. */
  lemma IntentChangesByExchange(s: Sys, a: Action, t: Sys, key: Key)
    requires Step(s, a) == Some(t) && key in s.items && key in t.items
    requires s.items[key].intent != t.items[key].intent
    ensures || (a.StoreIntent? && s.items[key].intent.None? && t.items[key].intent == Some(a.intent)
                && a.intent.state == Prepared && a.head == s.items[key].head == t.items[key].head)
            || (a.ReplaceIntent? && s.items[key].intent == Some(a.expected)
                && t.items[key].intent == Some(a.replacement))
    ensures s.items[key].receipt.None?
  {
    hide StepInsert, StepClaim, StepAdmit, StepReadFence, StepWriteFence, StepPost, StepReadSettlement,
         StepWriteSettlement, StepReadSuccessor, StepWriteSuccessor, StepLifecycle, StepRedeliver, LifecycleWrite;
    if Lifecycle(a) {
      LifecycleMoves(s, a.worker, a, t);
      LifecycleExchanges(s.items[s.workers[a.worker].key], s.workers[a.worker].claim, a);
    } else {
      OthersKeepIntent(s, a, t, key);
    }
  }

  lemma LifecycleMoves(s: Sys, i: nat, a: Action, t: Sys)
    requires Lifecycle(a) && i in s.workers && s.workers[i].key in s.items
    requires StepLifecycle(s, i, s.workers[i], a) == Some(t)
    ensures var w := s.workers[i];
            var written := LifecycleWrite(s.items[w.key], w.claim, a);
            && (a.Advance? ==> Allowed(w.claim.phase, a.next))
            && t.items == if written.None? then s.items else s.items[w.key := written.value]
  {
    hide LifecycleWrite;
  }

  lemma LifecycleExchanges(item: Item, claim: Claim, a: Action)
    requires Lifecycle(a)
    ensures var written := LifecycleWrite(item, claim, a);
            written.Some? && written.value.intent != item.intent ==>
              && (|| (a.StoreIntent? && item.intent.None? && written.value.intent == Some(a.intent)
                      && a.intent.state == Prepared && a.head == item.head == written.value.head)
                  || (a.ReplaceIntent? && item.intent == Some(a.expected)
                      && written.value.intent == Some(a.replacement)))
              && item.receipt.None?
  {
  }

  lemma OthersKeepIntent(s: Sys, a: Action, t: Sys, key: Key)
    requires Step(s, a) == Some(t) && key in s.items && key in t.items && !Lifecycle(a)
    ensures t.items[key].intent == s.items[key].intent
  {
    hide StepAdmit, StepReadFence, StepPost, StepReadSettlement, StepReadSuccessor, StepRedeliver,
         SettleRead, FenceAccepted, RequeueAccepted, Charge, Release, Claimable;
    if Silent(a) { SilentStepWritesNothing(s, a, t); }
  }

  // ------------------------------------------------------- successors and starts

  /** This step replaced the head of this item. */
  predicate Requeues(s: Sys, a: Action, key: Key) {
    && a.WriteSuccessor? && a.worker in s.workers && s.workers[a.worker].key == key && key in s.items
    && s.workers[a.worker].pc.Requeuing?
    && RequeueAccepted(s.items[key], s.workers[a.worker].claim, s.workers[a.worker].pc.plan)
  }

  lemma OnlyRequeueCounts(s: Sys, a: Action, t: Sys, key: Key)
    requires Step(s, a) == Some(t) && key in s.items && key in t.items
    ensures Requeues(s, a, key) <==> s.items[key].successors == 0 && t.items[key].successors == 1
  {
    hide StepAdmit, StepReadFence, StepPost, StepReadSettlement, StepReadSuccessor, StepRedeliver, StepLifecycle,
         SettleRead, FenceAccepted, Charge, Release, Claimable, LifecycleWrite;
    if Silent(a) {
      SilentStepWritesNothing(s, a, t);
    } else if Lifecycle(a) {
      var w := s.workers[a.worker];
      LifecycleMoves(s, a.worker, a, t);
      LifecycleKeepsCount(s.items[w.key], w.claim, a);
    }
  }

  lemma LifecycleKeepsCount(item: Item, claim: Claim, a: Action)
    requires Lifecycle(a)
    ensures LifecycleWrite(item, claim, a).Some? ==> LifecycleWrite(item, claim, a).value.successors == item.successors
  {
  }

  /**
    A requeue that wins its write is the transition the stream accepts, whatever other workers did
    between its read and its write; it keeps every record and leaves no stale claim or admission.
   */
  lemma RequeueIsAccepted(trace: seq<Sys>, actions: seq<Action>, n: nat, key: Key)
    requires IsRun(trace, actions) && FreshOwners(trace, actions) && n < |actions| && Requeues(trace[n], actions[n], key)
    ensures key in trace[n + 1].items && ValidSuccessor(trace[n].items[key], trace[n + 1].items[key])
    ensures trace[n + 1].items[key].calls == trace[n].items[key].calls
  {
    RunIsSafe(trace, actions, n);
    assert Step(trace[n], actions[n]) == Some(trace[n + 1]);
    RunIsPlanned(trace, actions, n);
    PlannedRequeueIsValid(trace[n], actions[n], trace[n + 1], key);
  }

  /**
    Without any assumption on owner ids: a winning requeue satisfies every test of the stream validator
    but the last, and that one exactly when its read saw the admission that is there, if there is one.
   */
  lemma RequeueIsAcceptedExactly(trace: seq<Sys>, actions: seq<Action>, n: nat, key: Key)
    requires IsRun(trace, actions) && n < |actions| && Requeues(trace[n], actions[n], key)
    ensures key in trace[n + 1].items && SuccessorCore(trace[n].items[key], trace[n + 1].items[key])
    ensures ValidSuccessor(trace[n].items[key], trace[n + 1].items[key])
            <==> trace[n].items[key].admission.None? || trace[n].workers[actions[n].worker].pc.plan.dropsAdmission
  {
    hide ItemOk, Distinct, RequeueAccepted, SuccessorCore, StepInsert, StepClaim, StepLifecycle, PaidOk, Books, AllLineage;
    RunIsSafe(trace, actions, n);
    var s, a := trace[n], actions[n];
    assert Step(s, a) == Some(trace[n + 1]);
    assert WorkerOk(s.items[key], s.workers[a.worker], s.maxAttempts);
  }

  lemma PlannedRequeueIsValid(s: Sys, a: Action, t: Sys, key: Key)
    requires Inv(s) && AllPlanned(s) && Step(s, a) == Some(t) && Requeues(s, a, key)
    ensures key in t.items && t.items[key] == Requeued(s.items[key], s.workers[a.worker].pc.plan)
    ensures ValidSuccessor(s.items[key], t.items[key])
  {
    hide ItemOk, Distinct, RequeueAccepted, SuccessorCore, StepInsert, StepClaim, StepLifecycle, AllPlanned;
    var w := s.workers[a.worker];
    assert WorkerOk(s.items[key], w, s.maxAttempts);
    RequeueDropsAdmission(s, a.worker);
  }

  lemma RequeuedAtMostOnce(trace: seq<Sys>, actions: seq<Action>, m: nat, n: nat, key: Key)
    requires IsRun(trace, actions) && m < |actions| && n < |actions|
    requires Requeues(trace[m], actions[m], key) && Requeues(trace[n], actions[n], key)
    ensures m == n
  {
    if m < n {
      RequeuedStays(trace, actions, m, n, key);
    } else if n < m {
      RequeuedStays(trace, actions, n, m, key);
    }
  }

  lemma RequeuedStays(trace: seq<Sys>, actions: seq<Action>, m: nat, n: nat, key: Key)
    requires IsRun(trace, actions) && m < n < |trace| && Requeues(trace[m], actions[m], key)
    ensures key in trace[n].items && trace[n].items[key].successors >= 1
  {
    assert Step(trace[m], actions[m]) == Some(trace[m + 1]);
    HistoryOnlyGrows(trace, actions, m + 1, n, key);
  }

  /** The image pair one step puts on the stream for one item. */
  function Starts(s: Sys, t: Sys, key: Key, event: string): Dispatch
    requires key in t.items
  {
    ProcessRecord(if key in s.items then Some(s.items[key]) else None, t.items[key], event)
  }

  /** This step replaced the head of this item and left no admission behind. */
  predicate RequeuesCleanly(s: Sys, a: Action, key: Key) {
    Requeues(s, a, key) && (s.items[key].admission.None? || s.workers[a.worker].pc.plan.dropsAdmission)
  }

  /**
    The stream starts a context phase exactly for an insert, or for a requeue whose read saw the admission
    that is there, and a review phase exactly for the step that stored the context; every other write on
    an item starts nothing.
   */
  lemma StreamStartsExactly(trace: seq<Sys>, actions: seq<Action>, n: nat, key: Key, event: string)
    requires IsRun(trace, actions)
    requires n < |actions| && key in trace[n + 1].items && event != ""
    ensures var s, t := trace[n], trace[n + 1];
            && (Starts(s, t, key, event) == ContextPhase <==> key !in s.items || RequeuesCleanly(s, actions[n], key))
            && (Starts(s, t, key, event) == ReviewPhase <==>
                  key in s.items && s.items[key].status == Pending && t.items[key].status == ContextReady)
  {
    var s, t := trace[n], trace[n + 1];
    RunIsSafe(trace, actions, n);
    RunIsSafe(trace, actions, n + 1);
    assert Step(s, actions[n]) == Some(t);
    assert ItemOk(key, t.items[key], t.maxAttempts);
    if key in s.items {
      StepIsLaterInRun(trace, actions, n, key);
      OnlyRequeueCounts(s, actions[n], t, key);
      if Requeues(s, actions[n], key) { RequeueIsAcceptedExactly(trace, actions, n, key); }
    } else {
      InsertIsPending(s, actions[n], t, key);
    }
  }

  /** Where no claimant is shared, every requeue starts its successor. */
  lemma RequeueStartsSuccessor(trace: seq<Sys>, actions: seq<Action>, n: nat, key: Key, event: string)
    requires IsRun(trace, actions) && FreshOwners(trace, actions)
    requires n < |actions| && key in trace[n + 1].items && event != ""
    ensures Starts(trace[n], trace[n + 1], key, event) == ContextPhase
            <==> key !in trace[n].items || Requeues(trace[n], actions[n], key)
  {
    hide Starts, ValidSuccessor;
    StreamStartsExactly(trace, actions, n, key, event);
    if Requeues(trace[n], actions[n], key) {
      RequeueIsAccepted(trace, actions, n, key);
      RequeueIsAcceptedExactly(trace, actions, n, key);
    }
  }

  lemma InsertIsPending(s: Sys, a: Action, t: Sys, key: Key)
    requires Step(s, a) == Some(t) && key !in s.items && key in t.items
    ensures t.items[key].status == Pending
  {
    hide StepInsert, StepClaim, StepAdmit, StepReadFence, StepWriteFence, StepPost, StepReadSettlement,
         StepWriteSettlement, StepReadSuccessor, StepWriteSuccessor, StepLifecycle, StepRedeliver;
    if a.Insert? {
      InsertLeavesOthers(s, a, t);
    } else {
      OnlyInsertAdds(s, a, t);
    }
  }

  lemma OnlyInsertAdds(s: Sys, a: Action, t: Sys)
    requires Step(s, a) == Some(t) && !a.Insert?
    ensures t.items.Keys == s.items.Keys
  {
    hide SettleRead, RequeueEligible, FenceAccepted, SettleWrite, LifecycleWrite, AfterFenceRead, RequeueAccepted,
         Charge, Release, ClaimHolds, RequeuePlan, Lists, ClaimWrite, WithFence, Requeued;
  }
}
