/**
  The table requests are the protocol's steps: each method below makes one call on the table from a
  state of the protocol and shows that the table then holds the items and the counters of the next one.
 */
module TableProtocol {
  import opened Wrappers
  import opened DirectBudget
  import opened ReviewItem
  import opened ReviewProtocol
  import opened ReviewInvariant
  import opened GrantLedger
  import opened ReviewTable

  /** The table holds the durable part of a state that keeps the invariant and the books. */
  ghost predicate Mirrors(table: Table, s: Sys)
    reads table
  {
    table.items == s.items && table.counters == s.counters && Inv(s) && Books(s)
  }

  ghost predicate At(s: Sys, i: nat, pc: Pc) {
    i in s.workers && s.workers[i].pc == pc
  }

  lemma NextMirrors(table: Table, s: Sys, a: Action, t: Sys)
    requires Inv(s) && Books(s) && Step(s, a) == Some(t) && table.items == t.items && table.counters == t.counters
    ensures Mirrors(table, t)
  {
    hide Step;
    StepKeepsInv(s, a);
    StepKeepsBooks(s, a);
  }

  method Insert(table: Table, s: Sys, key: Key, head: string, run: RunId) returns (stored: bool, ghost t: Sys)
    requires Mirrors(table, s) && key.repo != "" && key.pr >= 1 && head != "" && run.Delivered? && run != NO_RUN
    modifies table
    ensures Mirrors(table, t)
    ensures if stored then Step(s, Action.Insert(key, head, run)) == Some(t)
            else t == s && Step(s, Action.Insert(key, head, run)).None?
  {
    hide Inv, Books;
    stored := table.PutOnce(key, head, run);
    t := s;
    if stored {
      t := Step(s, Action.Insert(key, head, run)).value;
      NextMirrors(table, s, Action.Insert(key, head, run), t);
    }
  }

  /** A won claim is a new worker of the protocol, with the claim in hand. */
  method ClaimAttempt(table: Table, s: Sys, worker: nat, key: Key, phase: Phase, owner: string, event: string,
               head: string, run: RunId, now: nat, leaseSeconds: int) returns (claim: Option<Claim>, ghost t: Sys)
    requires Mirrors(table, s) && worker !in s.workers && owner != ""
    modifies table
    ensures Mirrors(table, t)
    ensures var a := ClaimPhase(worker, key, phase, owner, event, head, run, now, leaseSeconds);
            if claim.Some? then Step(s, a) == Some(t) && t.workers[worker] == Worker(key, claim.value, Claimed(head, run))
            else t == s && Step(s, a).None?
  {
    hide Inv, Books, Claimable;
    claim := table.ClaimPhaseAttempt(key, phase, owner, event, head, run, now, leaseSeconds);
    t := s;
    if claim.Some? {
      ghost var a := ClaimPhase(worker, key, phase, owner, event, head, run, now, leaseSeconds);
      ClaimCounts(s.items[key], a);
      t := Step(s, a).value;
      NextMirrors(table, s, a, t);
    }
  }

  lemma ClaimCounts(item: Item, a: Action)
    requires a.ClaimPhase?
    ensures var written := ClaimWrite(item, a.phase, a.owner, a.event, a.head, a.run, a.now, a.leaseSeconds);
            && (written.Some? <==> Claimable(item, a.phase, a.event, a.head, a.run, a.now))
            && (written.Some? ==> written.value.Attempt(a.phase) == item.Attempt(a.phase) + 1)
  {
  }

  /** The read that decides whether the fence may be tried at all. */
  method ReadForFence(table: Table, s: Sys, i: nat, key: Key, claim: Claim, record: Record,
                      policy: Policy, model: string, maxOutput: int, mode: CacheMode, now: nat)
    returns (verdict: BeginVerdict, ghost t: Sys)
    requires Mirrors(table, s) && i in s.workers && s.workers[i] == Worker(key, claim, Ready)
    requires Offers(LineOf(s, i), record.id, s.maxRetries) && ValidFence(record, policy, model, maxOutput, mode)
    requires record.budget.Some? ==> Authorizes(policy, now, 0, record.identity.profile)
    ensures Mirrors(table, t) && Step(s, ReadFence(i, record, policy, model, maxOutput, mode, now)) == Some(t)
    ensures At(t, i, if verdict == Proceed then Fencing(record) else Closing)
  {
    hide ItemOk, WorkerOk, WorkersDistinct, Books, BeginRead, Offers, ValidFence, Authorizes;
    verdict := table.ReadForFence(key, record, claim);
    ghost var a := ReadFence(i, record, policy, model, maxOutput, mode, now);
    assert key in s.items;
    t := Step(s, a).value;
    NextMirrors(table, s, a, t);
  }

  /** The fence and its charge. */
  method WriteFence(table: Table, s: Sys, i: nat, key: Key, claim: Claim, record: Record)
    returns (stored: bool, ghost t: Sys)
    requires Mirrors(table, s) && i in s.workers && s.workers[i] == Worker(key, claim, Fencing(record))
    modifies table
    ensures Mirrors(table, t) && Step(s, Action.WriteFence(i)) == Some(t)
    ensures At(t, i, if stored then Fenced(record) else Closing)
  {
    hide ItemOk, WorkerOk, WorkersDistinct, Books, FenceAccepted, Charge;
    stored := table.WriteFence(key, record, claim);
    assert key in s.items;
    t := Step(s, Action.WriteFence(i)).value;
    NextMirrors(table, s, Action.WriteFence(i), t);
  }

  /**
    A settlement with nothing acting in between is the read step and, where that pairs the report with
    the worker's fence, the write step; under the invariant and the books that write always succeeds.
   */
  method Settle(table: Table, s: Sys, i: nat, key: Key, reported: Record)
    returns (stored: bool, ghost mid: Sys, ghost t: Sys)
    requires Mirrors(table, s) && i in s.workers && s.workers[i].key == key
    requires (s.workers[i].pc.Fenced? || s.workers[i].pc.Answered?) && s.workers[i].pc.record.id == reported.id
    modifies table
    ensures Mirrors(table, t) && Step(s, ReadSettlement(i, reported)) == Some(mid)
    ensures stored <==> key in s.items && SettleRead(s.items[key], reported).Replace?
    ensures if stored then Step(mid, WriteSettlement(i)) == Some(t) else t == mid
  {
    hide ItemOk, WorkerOk, WorkersDistinct, Books, SettleRead, Release, SettleWrite;
    assert key in s.items;
    mid := Step(s, ReadSettlement(i, reported)).value;
    t := mid;
    SettlementRead(s, i, reported, mid);
    if mid.workers[i].pc.Settling? { t := SettlementWrite(mid, i, reported); }
    stored := table.RecordProviderCall(key, reported);
    if mid.workers[i].pc.Settling? {
      SettledItem(s.items[key], reported);
      NextMirrors(table, mid, WriteSettlement(i), t);
    }
  }

  lemma SettledItem(item: Item, reported: Record)
    requires SettleRead(item, reported).Replace?
    ensures var verdict := SettleRead(item, reported);
            && verdict.final.id == reported.id
            && SettleWrite(item, verdict.expected, verdict.final)
               == Some(item.(calls := item.calls[reported.id := verdict.final]))
  {
  }

  lemma SettlementRead(s: Sys, i: nat, reported: Record, mid: Sys)
    requires Inv(s) && Books(s) && i in s.workers && Step(s, ReadSettlement(i, reported)) == Some(mid)
    requires (s.workers[i].pc.Fenced? || s.workers[i].pc.Answered?) && s.workers[i].pc.record.id == reported.id
    ensures mid.items == s.items && mid.counters == s.counters && Inv(mid) && Books(mid)
    ensures i in mid.workers && mid.workers[i].key == s.workers[i].key && s.workers[i].key in s.items
    ensures match SettleRead(s.items[s.workers[i].key], reported)
            case Replace(e, f, c) => mid.workers[i].pc == Settling(e, f, c)
            case AlreadySettled => false
            case _ => !mid.workers[i].pc.Settling?
  {
    hide StepReadSettlement, StepInsert, StepClaim, StepAdmit, StepReadFence, StepWriteFence, StepPost,
         StepWriteSettlement, StepReadSuccessor, StepWriteSuccessor, StepLifecycle, StepRedeliver,
         Books, SettleRead, ItemOk, WorkerOk, WorkersDistinct;
    var w := s.workers[i];
    StepKeepsInv(s, ReadSettlement(i, reported));
    StepKeepsBooks(s, ReadSettlement(i, reported));
    SilentStepWritesNothing(s, ReadSettlement(i, reported), mid);
    OwnFenceIsOpen(s.items[w.key], w, reported, s.maxAttempts);
    ReadMoves(s, i, reported, mid);
  }

  lemma ReadMoves(s: Sys, i: nat, reported: Record, mid: Sys)
    requires i in s.workers && s.workers[i].key in s.items
    requires StepReadSettlement(s, s.workers[i], ReadSettlement(i, reported)) == Some(mid)
    ensures mid == Move(s, i, AfterSettlementRead(s.items[s.workers[i].key], reported))
  {
    hide AfterSettlementRead;
  }

  lemma OwnFenceIsOpen(item: Item, w: Worker, reported: Record, maxAttempts: int)
    requires WorkerOk(item, w, maxAttempts)
    requires (w.pc.Fenced? || w.pc.Answered?) && w.pc.record.id == reported.id
    ensures SettleRead(item, reported) != AlreadySettled
  {
  }

  lemma SettlementWrite(mid: Sys, i: nat, reported: Record) returns (t: Sys)
    requires Inv(mid) && Books(mid) && i in mid.workers && mid.workers[i].pc.Settling?
    ensures mid.workers[i].key in mid.items && Step(mid, WriteSettlement(i)) == Some(t)
    ensures var w := mid.workers[i];
            && SettleWrite(mid.items[w.key], w.pc.expected, w.pc.final).Some?
            && t.items == mid.items[w.key := SettleWrite(mid.items[w.key], w.pc.expected, w.pc.final).value]
            && Release(mid.counters, w.pc.final.budget, w.pc.cost) == Some(t.counters)
  {
    hide ItemOk, WorkerOk, WorkersDistinct, Books, SettleWrite, Release, AfterSettled;
    SettlementIsCovered(mid, i);
    t := Step(mid, WriteSettlement(i)).value;
  }

  /** A report that does not find its fence open is a repetition: confirmed or refused, and never written. */
  method Redeliver(table: Table, s: Sys, key: Key, reported: Record) returns (confirmed: bool)
    requires Mirrors(table, s) && Step(s, Action.Redeliver(key, reported)).Some?
    modifies table
    ensures Mirrors(table, s) && Step(s, Action.Redeliver(key, reported)) == Some(s)
    ensures confirmed <==> key in s.items && SettleRead(s.items[key], reported) == AlreadySettled
  {
    hide Inv, Books, SettleRead;
    confirmed := table.RecordProviderCall(key, reported);
  }

  // --------------------------------------------------------------- lifecycle requests

  /** What a lifecycle request leaves on the table: its write, or nothing when its condition fails. */
  ghost predicate Wrote(s: Sys, i: nat, a: Action, items: map<Key, Item>)
    requires Lifecycle(a) && i in s.workers && s.workers[i].key in s.items
  {
    var w := s.workers[i];
    var written := LifecycleWrite(s.items[w.key], w.claim, a);
    items == if written.None? then s.items else s.items[w.key := written.value]
  }

  lemma LifecycleMirrors(table: Table, s: Sys, i: nat, a: Action) returns (t: Sys)
    requires Inv(s) && Books(s) && Lifecycle(a) && a.worker == i && i in s.workers && Free(s.workers[i].pc)
    requires a.Advance? ==> Allowed(s.workers[i].claim.phase, a.next)
    requires s.workers[i].key in s.items && table.counters == s.counters && Wrote(s, i, a, table.items)
    ensures Step(s, a) == Some(t) && Mirrors(table, t)
  {
    hide Inv, Books, LifecycleWrite;
    t := Step(s, a).value;
    NextMirrors(table, s, a, t);
  }

  method ReleasePhaseClaim(table: Table, s: Sys, i: nat, key: Key, claim: Claim) returns (released: bool, ghost t: Sys)
    requires Mirrors(table, s) && i in s.workers && s.workers[i].key == key && s.workers[i].claim == claim
    requires Free(s.workers[i].pc)
    modifies table
    ensures Mirrors(table, t) && Step(s, ReleaseClaim(i)) == Some(t)
    ensures released <==> key in s.items && LifecycleWrite(s.items[key], claim, ReleaseClaim(i)).Some?
  {
    hide ItemOk, WorkerOk, WorkersDistinct, Books, Free;
    released := table.ReleasePhaseClaim(key, claim);
    assert key in s.items;
    t := LifecycleMirrors(table, s, i, ReleaseClaim(i));
  }

  method Advance(table: Table, s: Sys, i: nat, key: Key, claim: Claim, next: Status,
                 expectedIntent: Option<Intent>, attributes: Terminals) returns (stored: bool, ghost t: Sys)
    requires Mirrors(table, s) && i in s.workers && s.workers[i].key == key && s.workers[i].claim == claim
    requires Free(s.workers[i].pc) && Allowed(claim.phase, next)
    modifies table
    ensures Mirrors(table, t) && Step(s, Action.Advance(i, next, expectedIntent, attributes)) == Some(t)
    ensures stored <==> key in s.items && LifecycleWrite(s.items[key], claim, Action.Advance(i, next, expectedIntent, attributes)).Some?
  {
    hide ItemOk, WorkerOk, WorkersDistinct, Books, Free, AdvanceWrite;
    stored := table.UpdateStatus(key, claim, next, expectedIntent, attributes);
    assert key in s.items;
    t := LifecycleMirrors(table, s, i, Action.Advance(i, next, expectedIntent, attributes));
  }

  method StoreIntent(table: Table, s: Sys, i: nat, key: Key, claim: Claim, head: string, intent: Intent)
    returns (stored: bool, ghost t: Sys)
    requires Mirrors(table, s) && i in s.workers && s.workers[i].key == key && s.workers[i].claim == claim
    requires Free(s.workers[i].pc)
    modifies table
    ensures Mirrors(table, t) && Step(s, Action.StoreIntent(i, head, intent)) == Some(t)
    ensures stored <==> key in s.items && LifecycleWrite(s.items[key], claim, Action.StoreIntent(i, head, intent)).Some?
  {
    hide ItemOk, WorkerOk, WorkersDistinct, Books, Free, Owns;
    stored := table.StorePublicationIntent(key, claim, head, intent);
    assert key in s.items;
    t := LifecycleMirrors(table, s, i, Action.StoreIntent(i, head, intent));
  }

  method ReplaceIntent(table: Table, s: Sys, i: nat, key: Key, claim: Claim, expected: Intent, next: Intent)
    returns (stored: bool, ghost t: Sys)
    requires Mirrors(table, s) && i in s.workers && s.workers[i].key == key && s.workers[i].claim == claim
    requires Free(s.workers[i].pc)
    modifies table
    ensures Mirrors(table, t) && Step(s, Action.ReplaceIntent(i, expected, next)) == Some(t)
    ensures stored <==> key in s.items && LifecycleWrite(s.items[key], claim, Action.ReplaceIntent(i, expected, next)).Some?
  {
    hide ItemOk, WorkerOk, WorkersDistinct, Books, Free, Owns;
    stored := table.ReplacePublicationIntent(key, claim, expected, next);
    assert key in s.items;
    t := LifecycleMirrors(table, s, i, Action.ReplaceIntent(i, expected, next));
  }

  method RecordAdmission(table: Table, s: Sys, i: nat, key: Key, claim: Claim, head: string)
    returns (recorded: bool, ghost t: Sys)
    requires Mirrors(table, s) && i in s.workers && s.workers[i].key == key && s.workers[i].claim == claim
    requires Free(s.workers[i].pc)
    modifies table
    ensures Mirrors(table, t) && key in s.items
    ensures Step(s, Action.RecordAdmission(i, head, s.items[key].run)) == Some(t)
    ensures recorded <==> key in t.items && t.items[key].admission == Some(Admission(head, s.items[key].run))
    ensures t.items != s.items ==> recorded && LifecycleWrite(s.items[key], claim, Action.RecordAdmission(i, head, s.items[key].run)).Some?
  {
    hide ItemOk, WorkerOk, WorkersDistinct, Books, Free, OwnsEvent;
    recorded := table.RecordInitialAdmission(key, claim, head);
    assert key in s.items;
    t := LifecycleMirrors(table, s, i, Action.RecordAdmission(i, head, s.items[key].run));
  }

  // ----------------------------------------------------------------- head successor

  /** Reading for a successor: an eligible read plans the write, any other one ends the worker's work. */
  method ReadSuccessor(table: Table, s: Sys, i: nat, key: Key, claim: Claim, oldHead: string,
                       newHead: string, stage: string, maxAttempts: int)
    returns (plan: Option<Requeue>, ghost t: Sys)
    requires Mirrors(table, s) && i in s.workers && s.workers[i] == Worker(key, claim, Ready) && maxAttempts == s.maxAttempts
    ensures var ids := if plan.Some? then plan.value.predecessor.callIds else [];
            Mirrors(table, t) && Step(s, Action.ReadSuccessor(i, oldHead, newHead, stage, ids)) == Some(t)
    ensures At(t, i, if plan.Some? then Requeuing(plan.value) else Closing)
  {
    hide ItemOk, WorkerOk, WorkersDistinct, Books, RequeueEligible, Lists;
    plan := table.PlanSuccessor(key, claim, oldHead, newHead, stage, maxAttempts);
    assert key in s.items;
    ghost var a := Action.ReadSuccessor(i, oldHead, newHead, stage, if plan.Some? then plan.value.predecessor.callIds else []);
    t := Step(s, a).value;
    NextMirrors(table, s, a, t);
  }

  method WriteSuccessor(table: Table, s: Sys, i: nat, key: Key, claim: Claim, plan: Requeue)
    returns (stored: bool, ghost t: Sys)
    requires Mirrors(table, s) && i in s.workers && s.workers[i] == Worker(key, claim, Requeuing(plan))
    modifies table
    ensures Mirrors(table, t) && Step(s, Action.WriteSuccessor(i)) == Some(t)
    ensures stored <==> t.items != s.items
  {
    hide ItemOk, WorkerOk, WorkersDistinct, Books, RequeueAccepted;
    stored := table.WriteSuccessor(key, claim, plan);
    assert key in s.items;
    t := Step(s, Action.WriteSuccessor(i)).value;
    NextMirrors(table, s, Action.WriteSuccessor(i), t);
    if stored { RequeueChanges(s.items[key], claim, plan); }
  }

  lemma RequeueChanges(item: Item, claim: Claim, plan: Requeue)
    requires RequeueAccepted(item, claim, plan)
    ensures Requeued(item, plan) != item
  {
    assert Requeued(item, plan).successors == 1;
  }
}
