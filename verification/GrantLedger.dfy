/**
  Money: the counter of a finite grant against the records of all the items that share it.
 */
module GrantLedger {
  import opened Wrappers
  import opened MapSum
  import opened DirectBudget
  import opened ReviewItem
  import opened ReviewProtocol
  import opened ReviewInvariant

  // ------------------------------------------------------------ ledger totals

  /** The part of one record's reservation that no settlement has released, or what it settled for. */
  datatype Measure = Held(counter: CounterKey) | Spent(counter: CounterKey)

  function Amount(m: Measure, r: Record): int {
    if r.budget.None? || r.budget.value.policy.Continuous? || r.budget.value.Counter() != m.counter then 0
    else
      match (m, r.budget.value.state)
      case (Held(_), Reserved) => r.budget.value.reserved
      case (Spent(_), Settled(actual)) => actual
      case _ => 0
  }

  ghost function Amounts(m: Measure, calls: map<CallId, Record>): map<CallId, int> {
    map id | id in calls :: Amount(m, calls[id])
  }

  ghost function ItemTotal(m: Measure, item: Item): int {
    Sum(Amounts(m, item.calls))
  }

  ghost function ItemTotals(m: Measure, items: map<Key, Item>): map<Key, int> {
    map k | k in items :: ItemTotal(m, items[k])
  }

  ghost function Total(m: Measure, items: map<Key, Item>): int {
    Sum(ItemTotals(m, items))
  }

  lemma TotalUpdate(m: Measure, items: map<Key, Item>, key: Key, item: Item)
    ensures Total(m, items[key := item])
            == Total(m, items) - (if key in items then ItemTotal(m, items[key]) else 0) + ItemTotal(m, item)
  {
    hide Sum, ItemTotal;
    SumUpdate(ItemTotals(m, items), key, ItemTotal(m, item));
    assert ItemTotals(m, items[key := item]) == ItemTotals(m, items)[key := ItemTotal(m, item)];
  }

  /** Writing one record of an item changes that record's amount and no other. */
  lemma AmountsUpdate(m: Measure, calls: map<CallId, Record>, r: Record)
    ensures Amounts(m, calls[r.id := r]) == Amounts(m, calls)[r.id := Amount(m, r)]
  {
    hide Amount;
  }

  lemma ItemTotalUpdate(m: Measure, item: Item, next: Item, r: Record)
    requires next.calls == item.calls[r.id := r]
    ensures ItemTotal(m, next)
            == ItemTotal(m, item) - (if r.id in item.calls then Amount(m, item.calls[r.id]) else 0) + Amount(m, r)
  {
    hide Amount, Sum;
    AmountsUpdate(m, item.calls, r);
    SumUpdate(Amounts(m, item.calls), r.id, Amount(m, r));
  }

  /** Writing one record on one item moves the total by that record alone. */
  lemma RecordUpdate(m: Measure, items: map<Key, Item>, key: Key, next: Item, r: Record)
    requires key in items && next.calls == items[key].calls[r.id := r]
    ensures Total(m, items[key := next])
            == Total(m, items) - (if r.id in items[key].calls then Amount(m, items[key].calls[r.id]) else 0) + Amount(m, r)
  {
    hide Amount, Total, ItemTotal;
    TotalUpdate(m, items, key, next);
    ItemTotalUpdate(m, items[key], next, r);
  }

  lemma SameCallsSameTotal(m: Measure, items: map<Key, Item>, key: Key, item: Item)
    requires if key in items then item.calls == items[key].calls else item.calls == map[]
    ensures Total(m, items[key := item]) == Total(m, items)
  {
    TotalUpdate(m, items, key, item);
    if key !in items {
      assert Amounts(m, item.calls) == map[];
    }
  }

  /** Each record's amount is part of the total, and totals are never negative. */
  lemma TotalBounds(m: Measure, items: map<Key, Item>)
    ensures Total(m, items) >= 0
    ensures forall k, id :: k in items && id in items[k].calls ==> Amount(m, items[k].calls[id]) <= Total(m, items)
  {
    var totals := ItemTotals(m, items);
    forall k | k in items
      ensures ItemTotal(m, items[k]) >= 0
      ensures forall id :: id in items[k].calls ==> Amount(m, items[k].calls[id]) <= ItemTotal(m, items[k])
    {
      var amounts := Amounts(m, items[k].calls);
      SumBounds(amounts);
      assert forall id :: id in items[k].calls ==> amounts[id] == Amount(m, items[k].calls[id]);
    }
    SumBounds(totals);
    forall k, id | k in items && id in items[k].calls
      ensures Amount(m, items[k].calls[id]) <= Total(m, items)
    {
      assert totals[k] <= Total(m, items);
    }
  }

  lemma NothingHeld(m: Measure, items: map<Key, Item>)
    requires forall k, id :: k in items && id in items[k].calls ==> Amount(m, items[k].calls[id]) == 0
    ensures Total(m, items) == 0
  {
    forall k | k in items
      ensures ItemTotal(m, items[k]) == 0
    {
      AllZero(Amounts(m, items[k].calls));
    }
    AllZero(ItemTotals(m, items));
  }

  lemma {:induction false} AllZero<K(!new)>(m: map<K, int>)
    requires forall k :: k in m ==> m[k] == 0
    ensures Sum(m) == 0
    decreases |m|
  {
    if m != map[] { AllZero(m - {Pick(m)}); }
  }

  // ------------------------------------------------------------ the invariant

  /** The counter that a record was charged to exists and carries the record's policy. */
  ghost predicate Backed(r: Record, counters: Counters) {
    r.budget.Some? && r.budget.value.policy.Finite? ==>
      var b := r.budget.value;
      b.Counter() in counters && counters[b.Counter()].policy == b.policy
  }

  ghost predicate Anchored(items: map<Key, Item>, counters: Counters) {
    forall k, id :: k in items && id in items[k].calls ==> Backed(items[k].calls[id], counters)
  }

  /** The books of one counter balance against all items. */
  ghost predicate Balanced(items: map<Key, Item>, c: CounterKey, counter: Counter) {
    && counter.policy.Finite?
    && CounterKey(counter.policy.cycle, counter.policy.organization, counter.policy.project) == c
    && counter.allocation == counter.policy.allocation
    && counter.reserved == Total(Held(c), items)
    && counter.settled == Total(Spent(c), items)
    && counter.charged == counter.reserved + counter.settled
    && counter.charged <= counter.allocation
  }

  ghost predicate Books(s: Sys) {
    && Anchored(s.items, s.counters)
    && forall c :: c in s.counters ==> Balanced(s.items, c, s.counters[c])
  }

  // ---------------------------------------------------------- steps keep the books

  lemma FenceKeepsBooks(s: Sys, i: nat)
    requires Inv(s) && Books(s) && i in s.workers && StepWriteFence(s, i, s.workers[i]).Some?
    ensures Books(StepWriteFence(s, i, s.workers[i]).value)
  {
    var w := s.workers[i];
    var t := StepWriteFence(s, i, w).value;
    if t.workers[i].pc != Closing {
      var item, r := s.items[w.key], w.pc.record;
      FenceAnchored(s, w.key, item, r);
      forall c | c in t.counters
        ensures Balanced(t.items, c, t.counters[c])
      {
        if c !in s.counters { UnusedCounter(s, c); }
        FenceBalances(s.items, s.counters, w.key, r, c);
      }
    }
  }

  lemma UnusedCounter(s: Sys, c: CounterKey)
    requires Anchored(s.items, s.counters) && c !in s.counters
    ensures Total(Held(c), s.items) == Total(Spent(c), s.items) == 0
  {
    NothingHeld(Held(c), s.items);
    NothingHeld(Spent(c), s.items);
  }

  lemma FenceBalances(items: map<Key, Item>, counters: Counters, key: Key, r: Record, c: CounterKey)
    requires if c in counters then Balanced(items, c, counters[c])
             else Total(Held(c), items) == Total(Spent(c), items) == 0
    requires key in items && r.id !in items[key].calls
    requires r.budget.Some? ==> r.budget.value.state == Reserved
    requires Charge(counters, r.budget).Some? && c in Charge(counters, r.budget).value
    ensures Balanced(items[key := WithFence(items[key], r)], c, Charge(counters, r.budget).value[c])
  {
    var next := WithFence(items[key], r);
    RecordUpdate(Held(c), items, key, next, r);
    RecordUpdate(Spent(c), items, key, next, r);
    ChargedCounter(counters, r, c);
  }

  /** What one fence adds to one counter, read off the transaction. */
  lemma ChargedCounter(counters: Counters, r: Record, c: CounterKey)
    requires r.budget.Some? ==> r.budget.value.state == Reserved
    requires Charge(counters, r.budget).Some? && c in Charge(counters, r.budget).value
    ensures Amount(Spent(c), r) == 0
    ensures var was := if c in counters then counters[c] else Counter(Charge(counters, r.budget).value[c].policy, 0, 0, 0, 0);
            var now := Charge(counters, r.budget).value[c];
            && now.policy == was.policy
            && now.reserved == was.reserved + Amount(Held(c), r)
            && now.charged == was.charged + Amount(Held(c), r)
            && now.settled == was.settled
            && (c in counters ==> now.allocation == was.allocation)
            && (c !in counters || now != was ==>
                  && now.policy.Finite? && now.charged <= now.policy.allocation
                  && CounterKey(now.policy.cycle, now.policy.organization, now.policy.project) == c
                  && (c !in counters ==> now.allocation == now.policy.allocation))
  {
  }

  lemma ChargeBacks(counters: Counters, budget: Option<Budget>, r: Record)
    requires Charge(counters, budget).Some?
    requires Backed(r, counters) || r.budget == budget
    ensures Backed(r, Charge(counters, budget).value)
  {
  }

  lemma FenceAnchored(s: Sys, key: Key, item: Item, r: Record)
    requires Books(s) && key in s.items && s.items[key] == item && r.id !in item.calls
    requires Charge(s.counters, r.budget).Some?
    ensures Anchored(s.items[key := WithFence(item, r)], Charge(s.counters, r.budget).value)
  {
    var items := s.items[key := WithFence(item, r)];
    forall k, id | k in items && id in items[k].calls
      ensures Backed(items[k].calls[id], Charge(s.counters, r.budget).value)
    {
      ChargeBacks(s.counters, r.budget, items[k].calls[id]);
    }
  }

  /** The guards of a first settlement never block it: the counter always covers the reservation. */
  lemma SettlementIsCovered(s: Sys, i: nat)
    requires Inv(s) && Books(s) && i in s.workers && s.workers[i].pc.Settling?
    ensures s.workers[i].key in s.items
    ensures var w := s.workers[i];
            && SettleWrite(s.items[w.key], w.pc.expected, w.pc.final).Some?
            && Release(s.counters, w.pc.final.budget, w.pc.cost).Some?
  {
    var w := s.workers[i];
    var e := w.pc.expected;
    SettlingFence(s.items[w.key], w, s.maxAttempts);
    if e.budget.Some? && e.budget.value.policy.Finite? {
      CounterCovers(s, w.key, e);
    }
    ReleaseSucceeds(s.counters, e, w.pc.final, w.pc.cost);
  }

  lemma ReleaseSucceeds(counters: Counters, e: Record, f: Record, cost: Option<nat>)
    requires Settles(e, f, cost)
    requires e.budget.Some? && e.budget.value.policy.Finite? ==>
               var b := e.budget.value;
               && b.Counter() in counters && counters[b.Counter()].policy == b.policy
               && b.reserved <= counters[b.Counter()].reserved <= counters[b.Counter()].charged
    ensures Release(counters, f.budget, cost).Some?
  {
  }

  lemma SettlingFence(item: Item, w: Worker, maxAttempts: int)
    requires ItemOk(w.key, item, maxAttempts) && WorkerOk(item, w, maxAttempts) && w.pc.Settling?
    ensures var e, f := w.pc.expected, w.pc.final;
            && e.id in item.calls && item.calls[e.id] == e && Settles(e, f, w.pc.cost)
            && (e.budget.Some? ==> e.budget.value.state == Reserved)
            && SettleWrite(item, e, f).Some?
  {
    assert RecordOk(item, w.pc.expected.id, maxAttempts);
  }

  lemma CounterCovers(s: Sys, key: Key, e: Record)
    requires Books(s) && key in s.items && e.id in s.items[key].calls && s.items[key].calls[e.id] == e
    requires e.budget.Some? && e.budget.value.policy.Finite? && e.budget.value.state == Reserved
    ensures var b := e.budget.value;
            && b.Counter() in s.counters && s.counters[b.Counter()].policy == b.policy
            && b.reserved <= s.counters[b.Counter()].reserved <= s.counters[b.Counter()].charged
  {
    var c := e.budget.value.Counter();
    assert c in s.counters && Balanced(s.items, c, s.counters[c]);
    TotalBounds(Held(c), s.items);
    TotalBounds(Spent(c), s.items);
    assert Amount(Held(c), s.items[key].calls[e.id]) == e.budget.value.reserved;
  }

  lemma SettlementKeepsBooks(s: Sys, i: nat)
    requires Inv(s) && Books(s) && i in s.workers && StepWriteSettlement(s, i, s.workers[i]).Some?
    ensures Books(StepWriteSettlement(s, i, s.workers[i]).value)
  {
    var w := s.workers[i];
    var t := StepWriteSettlement(s, i, w).value;
    SettlementIsCovered(s, i);
    assert RecordOk(s.items[w.key], w.pc.expected.id, s.maxAttempts);
    SettlementAnchored(s, w.key, w.pc.expected, w.pc.final, w.pc.cost);
    forall c | c in t.counters
      ensures Balanced(t.items, c, t.counters[c])
    {
      SettlementBalances(s, w.key, w.pc.expected, w.pc.final, w.pc.cost, c);
    }
  }

  /** A settlement in hand: the fence is on the item, and the final record and cost derive from it. */
  ghost predicate Settleable(s: Sys, key: Key, e: Record, f: Record, cost: Option<nat>) {
    && key in s.items && e.id in s.items[key].calls && s.items[key].calls[e.id] == e
    && Settles(e, f, cost)
    && (e.budget.Some? ==> e.budget.value.state == Reserved)
    && Release(s.counters, f.budget, cost).Some?
  }

  lemma ReleaseBacks(counters: Counters, budget: Option<Budget>, cost: Option<nat>, r: Record)
    requires Release(counters, budget, cost).Some? && Backed(r, counters)
    ensures Backed(r, Release(counters, budget, cost).value)
  {
  }

  lemma SettlementAnchored(s: Sys, key: Key, e: Record, f: Record, cost: Option<nat>)
    requires Books(s) && Settleable(s, key, e, f, cost)
    ensures Anchored(s.items[key := SettleWrite(s.items[key], e, f).value], Release(s.counters, f.budget, cost).value)
  {
    var items := s.items[key := SettleWrite(s.items[key], e, f).value];
    forall k, id | k in items && id in items[k].calls
      ensures Backed(items[k].calls[id], Release(s.counters, f.budget, cost).value)
    {
      assert Backed(s.items[k].calls[id], s.counters);
      assert Backed(e, s.counters) ==> Backed(f, s.counters);
      ReleaseBacks(s.counters, f.budget, cost, items[k].calls[id]);
    }
  }

  lemma SettlementBalances(s: Sys, key: Key, e: Record, f: Record, cost: Option<nat>, c: CounterKey)
    requires Books(s) && Settleable(s, key, e, f, cost)
    requires c in Release(s.counters, f.budget, cost).value
    ensures Balanced(s.items[key := SettleWrite(s.items[key], e, f).value], c,
                     Release(s.counters, f.budget, cost).value[c])
  {
    hide ActualCost, Release, Sum;
    var next := SettleWrite(s.items[key], e, f).value;
    RecordUpdate(Held(c), s.items, key, next, f);
    RecordUpdate(Spent(c), s.items, key, next, f);
    ReleasedCounter(s.counters, e, f, cost, c);
    assert Balanced(s.items, c, s.counters[c]);
  }

  /** What one settlement moves on one counter: the reservation out, the actual cost in. */
  lemma ReleasedCounter(counters: Counters, e: Record, f: Record, cost: Option<nat>, c: CounterKey)
    requires Settles(e, f, cost) && (e.budget.Some? ==> e.budget.value.state == Reserved)
    requires Release(counters, f.budget, cost).Some? && c in Release(counters, f.budget, cost).value
    ensures c in counters
    ensures var was, now := counters[c], Release(counters, f.budget, cost).value[c];
            && now.policy == was.policy && now.allocation == was.allocation
            && now.reserved == was.reserved - Amount(Held(c), e) + Amount(Held(c), f)
            && now.settled == was.settled - Amount(Spent(c), e) + Amount(Spent(c), f)
            && now.charged - was.charged == (now.reserved + now.settled) - (was.reserved + was.settled)
            && now.charged <= was.charged
  {
  }

  lemma SameCallsKeepBooks(s: Sys, t: Sys, key: Key, item: Item)
    requires Books(s) && t.counters == s.counters && t.items == s.items[key := item]
    requires if key in s.items then item.calls == s.items[key].calls else item.calls == map[]
    ensures Books(t)
  {
    forall c | c in t.counters
      ensures Balanced(t.items, c, t.counters[c])
    {
      assert Balanced(s.items, c, s.counters[c]);
      SameCallsSameTotal(Held(c), s.items, key, item);
      SameCallsSameTotal(Spent(c), s.items, key, item);
    }
    forall k, id | k in t.items && id in t.items[k].calls
      ensures k in s.items && id in s.items[k].calls && t.items[k].calls[id] == s.items[k].calls[id]
    {
    }
  }

  lemma StepKeepsBooks(s: Sys, a: Action)
    requires Inv(s) && Books(s) && Step(s, a).Some?
    ensures Books(Step(s, a).value)
  {
    if a.WriteFence? {
      FenceKeepsBooks(s, a.worker);
    } else if a.WriteSettlement? {
      SettlementKeepsBooks(s, a.worker);
    } else if !a.Redeliver? {
      var key := OtherStepsKeepCalls(s, a);
      var t := Step(s, a).value;
      SameCallsKeepBooks(s, t, key, t.items[key]);
    }
  }

  /** Every other step leaves the counters alone and rewrites one item without touching its calls. */
  lemma OtherStepsKeepCalls(s: Sys, a: Action) returns (key: Key)
    requires Step(s, a).Some? && !a.WriteFence? && !a.WriteSettlement? && !a.Redeliver?
    ensures SameCalls(s, Step(s, a).value, key)
  {
    hide StepAdmit, StepReadFence, StepPost, StepReadSettlement, StepReadSuccessor, StepLifecycle, Claimable,
         RequeueAccepted;
    if a.Insert? || a.ClaimPhase? {
      key := a.key;
    } else {
      key := s.workers[a.worker].key;
      if Lifecycle(a) {
        LifecycleKeepsCalls(s, a);
      } else if !a.WriteSuccessor? {
        SilentStepWritesNothing(s, a, Step(s, a).value);
      }
    }
  }

  ghost predicate SameCalls(s: Sys, t: Sys, key: Key) {
    && t.counters == s.counters && key in t.items && t.items == s.items[key := t.items[key]]
    && t.items[key].calls == if key in s.items then s.items[key].calls else map[]
  }

  lemma LifecycleKeepsCalls(s: Sys, a: Action)
    requires Lifecycle(a) && Step(s, a).Some?
    ensures SameCalls(s, Step(s, a).value, s.workers[a.worker].key)
  {
    hide LifecycleWrite, StepInsert, StepClaim, StepAdmit, StepReadFence, StepWriteFence, StepPost, StepReadSettlement,
         StepWriteSettlement, StepReadSuccessor, StepWriteSuccessor;
    var w := s.workers[a.worker];
    if LifecycleWrite(s.items[w.key], w.claim, a).Some? {
      WriteKeepsCalls(s.items[w.key], w.claim, a);
    }
  }

  lemma WriteKeepsCalls(item: Item, claim: Claim, a: Action)
    requires Lifecycle(a) && LifecycleWrite(item, claim, a).Some?
    ensures LifecycleWrite(item, claim, a).value.calls == item.calls
  {
  }
}
