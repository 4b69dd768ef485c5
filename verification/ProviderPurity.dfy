/** Which provider serves a run: a directly billed run is pinned to one profile and never mixed. */
module ProviderPurity {
  import opened Wrappers
  import opened DirectBudget
  import opened ReviewItem
  import opened ReviewProtocol
  import opened ReviewInvariant
  import opened GrantLedger
  import opened ReviewTheorems

  predicate Direct(identity: Identity) {
    identity.provider == DirectOpenAi
  }

  /** Every direct call carries the pinned profile, and shares its run with no other profile or provider. */
  ghost predicate Pure(item: Item) {
    forall id :: id in item.calls && Direct(item.calls[id].identity) ==>
                   && item.pin == Some(Pin(DirectOpenAi, item.calls[id].identity.profile))
                   && SoleProfile(item, item.calls[id].identity)
  }

  ghost predicate SoleProfile(item: Item, identity: Identity) {
    forall id :: id in item.calls && item.calls[id].identity.run == identity.run ==>
                   Direct(item.calls[id].identity) && item.calls[id].identity.profile == identity.profile
  }

  /** A fence read stays good for as long as its claim is current. */
  ghost predicate ReadStands(item: Item, w: Worker) {
    w.pc.Fencing? && Current(item, w.claim) ==>
      !PinConflict(item, w.pc.record.identity) && !ForeignProfile(item, w.pc.record.identity)
  }

  ghost predicate AllPure(s: Sys) {
    && (forall k :: k in s.items ==> Pure(s.items[k]))
    && (forall i :: i in s.workers && s.workers[i].key in s.items ==> ReadStands(s.items[s.workers[i].key], s.workers[i]))
  }

  // ----------------------------------------------------------------- single writes

  lemma ForeignIsNotSole(item: Item, identity: Identity)
    requires Direct(identity)
    ensures ForeignProfile(item, identity) <==> !SoleProfile(item, identity)
  {
  }

  lemma FenceKeepsPure(item: Item, w: Worker, r: Record, maxAttempts: int)
    requires Pure(item) && ReadStands(item, w) && WorkerOk(item, w, maxAttempts)
    requires w.pc == Fencing(r) && FenceAccepted(item, r, w.claim)
    ensures Pure(WithFence(item, r))
  {
    assert Current(item, w.claim);
    if Direct(r.identity) { ForeignIsNotSole(item, r.identity); }
    var next := WithFence(item, r);
    forall id | id in next.calls && Direct(next.calls[id].identity)
      ensures next.pin == Some(Pin(DirectOpenAi, next.calls[id].identity.profile))
      ensures SoleProfile(next, next.calls[id].identity)
    {
      if id != r.id { assert item.calls[id] == next.calls[id]; }
    }
  }

  /** Only one worker is current, so a fence leaves no other read standing on old grounds. */
  lemma FenceKeepsReads(item: Item, w: Worker, o: Worker, r: Record, maxAttempts: int)
    requires FenceAccepted(item, r, w.claim) && Distinct(w, o) && w.key == o.key
    ensures ReadStands(WithFence(item, r), o)
  {
  }

  /** The same calls up to their outcome, the same pin, and nobody current who was not. */
  ghost predicate SameParties(item: Item, next: Item) {
    && next.pin == item.pin && next.calls.Keys == item.calls.Keys
    && forall id :: id in item.calls ==> next.calls[id].identity == item.calls[id].identity
  }

  lemma SamePartiesKeepsPure(item: Item, next: Item)
    requires SameParties(item, next) && Pure(item)
    ensures Pure(next)
  {
    forall id | id in next.calls && Direct(next.calls[id].identity)
      ensures next.pin == Some(Pin(DirectOpenAi, next.calls[id].identity.profile))
      ensures SoleProfile(next, next.calls[id].identity)
    {
      assert SoleProfile(item, item.calls[id].identity);
    }
  }

  lemma SamePartiesKeepsReads(item: Item, next: Item, o: Worker)
    requires SameParties(item, next) && ReadStands(item, o) && (Current(next, o.claim) ==> Current(item, o.claim))
    ensures ReadStands(next, o)
  {
  }

  /** No step of another worker makes a claim current again. */
  ghost predicate NoneRevived(item: Item, next: Item, o: Worker) {
    Current(next, o.claim) ==> Current(item, o.claim)
  }

  lemma ClaimRevivesNone(item: Item, o: Worker, a: Action, maxAttempts: int)
    requires WorkerOk(item, o, maxAttempts) && a.ClaimPhase?
    requires ClaimWrite(item, a.phase, a.owner, a.event, a.head, a.run, a.now, a.leaseSeconds).Some?
    ensures NoneRevived(item, ClaimWrite(item, a.phase, a.owner, a.event, a.head, a.run, a.now, a.leaseSeconds).value, o)
  {
  }

  lemma LifecycleRevivesNone(key: Key, item: Item, o: Worker, claim: Claim, a: Action, maxAttempts: int)
    requires ItemOk(key, item, maxAttempts) && WorkerOk(item, o, maxAttempts)
    requires Lifecycle(a) && LifecycleWrite(item, claim, a).Some? && (a.Advance? ==> Allowed(claim.phase, a.next))
    ensures NoneRevived(item, LifecycleWrite(item, claim, a).value, o)
  {
  }

  lemma LifecycleKeepsParties(item: Item, claim: Claim, a: Action)
    requires Lifecycle(a) && LifecycleWrite(item, claim, a).Some?
    ensures SameParties(item, LifecycleWrite(item, claim, a).value)
  {
  }

  lemma RequeueRevivesNone(item: Item, o: Worker, plan: Requeue)
    ensures SameParties(item, Requeued(item, plan)) && NoneRevived(item, Requeued(item, plan), o)
  {
  }

  // ------------------------------------------------------------------------- steps

  /** A step that rewrites one item without new parties, and moves at most one worker to a place without a read. */
  ghost predicate PartiesKept(s: Sys, t: Sys, key: Key) {
    && key in s.items && key in t.items && t.items == s.items[key := t.items[key]]
    && SameParties(s.items[key], t.items[key])
    && forall j :: j in t.workers && t.workers[j].pc.Fencing? ==>
                     && j in s.workers && t.workers[j] == s.workers[j]
                     && (t.workers[j].key == key ==> NoneRevived(s.items[key], t.items[key], t.workers[j]))
  }

  lemma PartiesKeptIsPure(s: Sys, t: Sys, key: Key)
    requires AllPure(s) && PartiesKept(s, t, key)
    ensures AllPure(t)
  {
    SamePartiesKeepsPure(s.items[key], t.items[key]);
    forall j | j in t.workers && t.workers[j].key in t.items
      ensures ReadStands(t.items[t.workers[j].key], t.workers[j])
    {
      if t.workers[j].pc.Fencing? && t.workers[j].key == key {
        SamePartiesKeepsReads(s.items[key], t.items[key], t.workers[j]);
      }
    }
  }

  lemma StepKeepsPure(s: Sys, a: Action, t: Sys)
    requires Inv(s) && AllPure(s) && Step(s, a) == Some(t)
    ensures AllPure(t)
  {
    hide StepInsert, StepClaim, StepAdmit, StepReadFence, StepWriteFence, StepPost, StepReadSettlement,
         StepWriteSettlement, StepReadSuccessor, StepWriteSuccessor, StepLifecycle, AllPure, WorkerOk, ItemOk, Distinct;
    if a.Insert? { InsertKeepsPure(s, a, t); }
    else if a.ClaimPhase? { ClaimKeepsPure(s, a, t); }
    else if a.ReadFence? { ReadKeepsPure(s, a, t); }
    else if a.WriteFence? { WriteKeepsPure(s, a.worker, t); }
    else if a.WriteSettlement? { SettlementKeepsPure(s, a.worker, t); }
    else if a.WriteSuccessor? { SuccessorKeepsPure(s, a.worker, t); }
    else if Lifecycle(a) { LifecycleKeepsPure(s, a, t); }
    else if !a.Redeliver? { MoveKeepsPure(s, a, t); }
  }

  lemma InsertKeepsPure(s: Sys, a: Action, t: Sys)
    requires Inv(s) && AllPure(s) && a.Insert? && StepInsert(s, a) == Some(t)
    ensures AllPure(t)
  {
    assert forall i :: i in t.workers ==> t.workers[i].key in s.items;
  }

  lemma ClaimKeepsPure(s: Sys, a: Action, t: Sys)
    requires Inv(s) && AllPure(s) && a.ClaimPhase? && StepClaim(s, a) == Some(t)
    ensures AllPure(t)
  {
    forall j | j in s.workers && s.workers[j].key == a.key {
      ClaimRevivesNone(s.items[a.key], s.workers[j], a, s.maxAttempts);
    }
    PartiesKeptIsPure(s, t, a.key);
  }

  lemma ReadKeepsPure(s: Sys, a: Action, t: Sys)
    requires Inv(s) && AllPure(s) && a.ReadFence? && a.worker in s.workers
    requires StepReadFence(s, s.workers[a.worker], a) == Some(t)
    ensures AllPure(t)
  {
    hide Pure, WorkerOk, ItemOk, ValidFence, Binds;
    var w := s.workers[a.worker];
    FreshReadStands(s.items[w.key], w, a);
  }

  lemma FreshReadStands(item: Item, w: Worker, a: Action)
    requires a.ReadFence?
    ensures ReadStands(item, w.(pc := AfterFenceRead(item, w.claim, a)))
  {
    hide ValidFence, Binds;
  }

  lemma WriteKeepsPure(s: Sys, i: nat, t: Sys)
    requires Inv(s) && AllPure(s) && i in s.workers && StepWriteFence(s, i, s.workers[i]) == Some(t)
    ensures AllPure(t)
  {
    hide Pure, Distinct, ItemOk, WorkerOk, Charge, FenceAccepted, WithFence;
    var w := s.workers[i];
    assert WorkerOk(s.items[w.key], w, s.maxAttempts);
    if t.workers[i].pc != Closing {
      var r := w.pc.record;
      FenceKeepsPure(s.items[w.key], w, r, s.maxAttempts);
      forall j | j in s.workers && j != i && s.workers[j].key == w.key
        ensures ReadStands(WithFence(s.items[w.key], r), s.workers[j])
      {
        assert Distinct(w, s.workers[j]);
        FenceKeepsReads(s.items[w.key], w, s.workers[j], r, s.maxAttempts);
      }
    }
  }

  lemma SettlementKeepsPure(s: Sys, i: nat, t: Sys)
    requires Inv(s) && AllPure(s) && i in s.workers && StepWriteSettlement(s, i, s.workers[i]) == Some(t)
    ensures AllPure(t)
  {
    hide AllPure, WorkerOk, ItemOk, Distinct, Release, SettleWrite, AfterSettled;
    var w := s.workers[i];
    assert WorkerOk(s.items[w.key], w, s.maxAttempts);
    SettlingFence(s.items[w.key], w, s.maxAttempts);
    SettledParties(s, i, t);
    PartiesKeptIsPure(s, t, w.key);
  }

  lemma SettledParties(s: Sys, i: nat, t: Sys)
    requires i in s.workers && s.workers[i].key in s.items && StepWriteSettlement(s, i, s.workers[i]) == Some(t)
    requires var e, f := s.workers[i].pc.expected, s.workers[i].pc.final;
             Settles(e, f, s.workers[i].pc.cost) && SettleWrite(s.items[s.workers[i].key], e, f).Some?
    ensures PartiesKept(s, t, s.workers[i].key)
  {
    hide Release, AfterSettled, Current, Settles;
    var w := s.workers[i];
    var e, f := w.pc.expected, w.pc.final;
    var item, settled := s.items[w.key], SettleWrite(s.items[w.key], e, f).value;
    SettledSameParties(item, e, f, w.pc.cost);
    if t.items == s.items {
      assert s.items == s.items[w.key := item];
      assert SameParties(item, item);
    } else {
      assert t.items == s.items[w.key := settled];
    }
    forall j | j in t.workers && t.workers[j].pc.Fencing?
      ensures j in s.workers && t.workers[j] == s.workers[j]
      ensures NoneRevived(item, t.items[w.key], t.workers[j])
    {
      SettledRevivesNone(item, e, f, t.workers[j]);
    }
  }

  lemma SettledSameParties(item: Item, e: Record, f: Record, cost: Option<nat>)
    requires Settles(e, f, cost) && SettleWrite(item, e, f).Some?
    ensures SameParties(item, SettleWrite(item, e, f).value)
  {
  }

  lemma SettledRevivesNone(item: Item, e: Record, f: Record, o: Worker)
    requires SettleWrite(item, e, f).Some?
    ensures NoneRevived(item, item, o) && NoneRevived(item, SettleWrite(item, e, f).value, o)
  {
  }

  lemma SuccessorKeepsPure(s: Sys, i: nat, t: Sys)
    requires Inv(s) && AllPure(s) && i in s.workers && StepWriteSuccessor(s, i, s.workers[i]) == Some(t)
    ensures AllPure(t)
  {
    hide Pure, Distinct, WorkerOk, ItemOk, RequeueAccepted;
    var w := s.workers[i];
    forall j | j in s.workers { RequeueRevivesNone(s.items[w.key], s.workers[j], w.pc.plan); }
    PartiesKeptIsPure(s, t, w.key);
  }

  lemma LifecycleKeepsPure(s: Sys, a: Action, t: Sys)
    requires Inv(s) && AllPure(s) && Lifecycle(a) && a.worker in s.workers
    requires StepLifecycle(s, a.worker, s.workers[a.worker], a) == Some(t)
    ensures AllPure(t)
  {
    hide Pure, Distinct, LifecycleWrite, WorkerOk, ItemOk;
    var w := s.workers[a.worker];
    if LifecycleWrite(s.items[w.key], w.claim, a).Some? {
      LifecycleKeepsParties(s.items[w.key], w.claim, a);
      forall j | j in s.workers && s.workers[j].key == w.key {
        LifecycleRevivesNone(w.key, s.items[w.key], s.workers[j], w.claim, a, s.maxAttempts);
      }
    }
    PartiesKeptIsPure(s, t, w.key);
  }

  /** The remaining steps only move one worker to a place where no read is pending. */
  lemma MoveKeepsPure(s: Sys, a: Action, t: Sys)
    requires AllPure(s) && Step(s, a) == Some(t)
    requires a.Admit? || a.Post? || a.ReadSettlement? || a.ReadSuccessor? || a.Crash?
    ensures AllPure(t)
  {
    hide Step, Pure, ReadStands;
    SilentStepWritesNothing(s, a, t);
    StepMovesWorkers(s, a, t);
    MovedAway(s, a, t);
    WithoutReadStands(s, a.worker, t);
  }

  lemma MovedAway(s: Sys, a: Action, t: Sys)
    requires a.Admit? || a.Post? || a.ReadSettlement? || a.ReadSuccessor? || a.Crash?
    requires Step(s, a) == Some(t)
    ensures a.worker in t.workers && !t.workers[a.worker].pc.Fencing?
  {
    hide SettleRead, RequeueEligible, ClaimHolds, RequeuePlan, Lists;
  }

  lemma WithoutReadStands(s: Sys, i: nat, t: Sys)
    requires AllPure(s) && t.items == s.items && i in s.workers && i in t.workers && !t.workers[i].pc.Fencing?
    requires t.workers == s.workers[i := s.workers[i].(pc := t.workers[i].pc)]
    ensures AllPure(t)
  {
    hide Pure;
  }

  lemma {:induction false} RunIsPure(trace: seq<Sys>, actions: seq<Action>, n: nat)
    requires IsRun(trace, actions) && n < |trace|
    ensures AllPure(trace[n])
  {
    hide Step, AllPure, Inv;
    if n == 0 {
      StartIsPure(trace[0]);
    } else {
      RunIsPure(trace, actions, n - 1);
      RunIsSafe(trace, actions, n - 1);
      assert Step(trace[n - 1], actions[n - 1]) == Some(trace[n]);
      StepKeepsPure(trace[n - 1], actions[n - 1], trace[n]);
    }
  }

  lemma StartIsPure(s: Sys)
    requires Init(s)
    ensures AllPure(s)
  {
  }

  /**
    In every run of the protocol: a run of a pull request in which one call was billed directly has only
    direct calls, all under the one profile that the item is pinned to, whichever workers made them.
   */
  lemma DirectRunsAreNeverMixed(trace: seq<Sys>, actions: seq<Action>, n: nat, key: Key, a: CallId, b: CallId)
    requires IsRun(trace, actions) && n < |trace| && key in trace[n].items
    requires a in trace[n].items[key].calls && b in trace[n].items[key].calls
    requires trace[n].items[key].calls[a].identity.provider == DirectOpenAi
    ensures trace[n].items[key].pin
            == Some(Pin(DirectOpenAi, trace[n].items[key].calls[a].identity.profile))
    ensures trace[n].items[key].calls[b].identity.run == trace[n].items[key].calls[a].identity.run ==>
              && trace[n].items[key].calls[b].identity.provider == DirectOpenAi
              && trace[n].items[key].calls[b].identity.profile == trace[n].items[key].calls[a].identity.profile
  {
    RunIsPure(trace, actions, n);
    assert Pure(trace[n].items[key]);
  }
}
