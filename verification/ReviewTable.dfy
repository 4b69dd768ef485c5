/**
  The table as the pipeline uses it: shared items and grant counters, changed in place by one
  conditional request at a time. Each request is proved against its write function in ReviewItem,
  the functions the protocol steps with.
 */
module ReviewTable {
  import opened Wrappers
  import opened DirectBudget
  import opened ReviewItem
  import opened ReviewProtocol

  class Table {
    var items: map<Key, Item>
    var counters: Counters

    constructor ()
      ensures items == map[] && counters == map[]
    {
      items, counters := map[], map[];
    }

    /** The webhook's put-once. */
    method PutOnce(key: Key, head: string, run: RunId) returns (stored: bool)
      modifies this`items
      ensures stored <==> key !in old(items)
      ensures items == if stored then old(items)[key := NewItem(key.repo, key.pr, head, run)] else old(items)
    {
      stored := key !in items;
      if stored { items := items[key := NewItem(key.repo, key.pr, head, run)]; }
    }

    /** `claim_phase_attempt`: one new attempt of a phase, or nothing when another lease is live. */
    method ClaimPhaseAttempt(key: Key, phase: Phase, owner: string, event: string, head: string, run: RunId,
                             now: int, leaseSeconds: int) returns (claim: Option<Claim>)
      modifies this`items
      ensures claim.Some? <==> key in old(items) && Claimable(old(items)[key], phase, event, head, run, now)
      ensures claim.Some? ==>
                var written := ClaimWrite(old(items)[key], phase, owner, event, head, run, now, leaseSeconds);
                && written.Some? && items == old(items)[key := written.value]
                && claim == Some(Claim(phase, owner, event, old(items)[key].Attempt(phase) + 1))
      ensures claim.None? ==> items == old(items)
    {
      if key !in items { return None; }
      var written := ClaimWrite(items[key], phase, owner, event, head, run, now, leaseSeconds);
      if written.None? { return None; }
      items := items[key := written.value];
      claim := Some(Claim(phase, owner, event, written.value.Attempt(phase)));
    }

    method ReleasePhaseClaim(key: Key, claim: Claim) returns (released: bool)
      modifies this`items
      ensures released <==>
              key in old(items) && old(items)[key].status == StatusOf(claim.phase) && Owns(old(items)[key], claim)
      ensures items == if released then old(items)[key := old(items)[key].WithLease(claim.phase, None)] else old(items)
    {
      released := key in items && ReleaseWrite(items[key], claim).Some?;
      if released { items := items[key := ReleaseWrite(items[key], claim).value]; }
    }

    /** `_unresolved_provider_dispatch`: the search for a call without a known outcome. */
    method FindUnresolved(item: Item) returns (found: Option<CallId>)
      ensures found.Some? <==> item.Unresolved()
      ensures found.Some? ==> found.value in item.calls && item.calls[found.value].status == Dispatching
    {
      var rest := item.calls.Keys;
      while rest != {}
        invariant rest <= item.calls.Keys
        invariant forall id :: id in item.calls && id !in rest ==> item.calls[id].status != Dispatching
        decreases rest
      {
        var id :| id in rest;
        if item.calls[id].status == Dispatching { return Some(id); }
        rest := rest - {id};
      }
      found := None;
    }

    /** The read half of `begin_provider_call_dispatch`. */
    method ReadForFence(key: Key, record: Record, claim: Claim) returns (verdict: BeginVerdict)
      ensures key !in items ==> verdict == NotStored
      ensures key in items ==> verdict == BeginRead(items[key], record, claim)
    {
      if key !in items { return NotStored; }
      var item := items[key];
      if item.status != StatusOf(claim.phase) { return NotStored; }
      if PinConflict(item, record.identity) || ForeignProfile(item, record.identity) { return BeginVerdict.Refused; }
      if !Binds(item, record, claim) { return NotStored; }
      var unresolved := FindUnresolved(item);
      verdict := if unresolved.Some? then OutcomeUnknown else Proceed;
    }

    /** The write half: the fence and its charge go in together, or nothing does. */
    method WriteFence(key: Key, record: Record, claim: Claim) returns (stored: bool)
      modifies this
      ensures stored <==>
              && key in old(items) && FenceAccepted(old(items)[key], record, claim)
              && Charge(old(counters), record.budget).Some?
      ensures stored ==>
                && items == old(items)[key := WithFence(old(items)[key], record)]
                && Charge(old(counters), record.budget) == Some(counters)
      ensures !stored ==> items == old(items) && counters == old(counters)
    {
      if key !in items || !FenceAccepted(items[key], record, claim) { return false; }
      var charged := Charge(counters, record.budget);
      if charged.None? { return false; }
      items := items[key := WithFence(items[key], record)];
      counters := charged.value;
      stored := true;
    }

    /** `record_provider_call` when nothing acts between its read and its write. */
    method RecordProviderCall(key: Key, reported: Record) returns (stored: bool)
      modifies this
      ensures key !in old(items) ==> !stored
      ensures key in old(items) ==>
                match SettleRead(old(items)[key], reported)
                case Replace(expected, final, cost) =>
                  && (stored <==> Release(old(counters), final.budget, cost).Some?)
                  && (stored ==>
                        && Release(old(counters), final.budget, cost) == Some(counters)
                        && items == old(items)[key := old(items)[key].(calls := old(items)[key].calls[reported.id := final])]
                        && SettleRead(items[key], reported) == AlreadySettled)
                case verdict => stored <==> verdict == AlreadySettled
      ensures !stored || (key in old(items) && SettleRead(old(items)[key], reported) == AlreadySettled) ==>
                items == old(items) && counters == old(counters)
    {
      if key !in items { return false; }
      match SettleRead(items[key], reported)
      case Replace(expected, final, cost) =>
        var settled := SettleWrite(items[key], expected, final);
        var released := Release(counters, final.budget, cost);
        if settled.None? || released.None? { return false; }
        items := items[key := settled.value];
        counters := released.value;
        stored := true;
      case AlreadySettled => stored := true;
      case NoFence => stored := false;
      case Conflict => stored := false;
    }

    method UpdateStatus(key: Key, claim: Claim, next: Status, expectedIntent: Option<Intent>, attributes: Terminals)
      returns (stored: bool)
      modifies this`items
      ensures stored <==>
              key in old(items) && AdvanceWrite(old(items)[key], claim, next, expectedIntent, attributes).Some?
      ensures stored ==>
                && key in items && items == old(items)[key := items[key]]
                && AdvanceWrite(old(items)[key], claim, next, expectedIntent, attributes) == Some(items[key])
                && items[key].status == next && !Owns(items[key], claim)
                && items[key].calls == old(items)[key].calls && items[key].intent == old(items)[key].intent
      ensures !stored ==> items == old(items)
    {
      if key !in items { return false; }
      var moved := AdvanceWrite(items[key], claim, next, expectedIntent, attributes);
      if moved.None? { return false; }
      items := items[key := moved.value];
      stored := true;
    }

    /** `store_publication_intent`: prepared, for the head in place, once. */
    method StorePublicationIntent(key: Key, claim: Claim, head: string, intent: Intent) returns (stored: bool)
      modifies this`items
      ensures stored <==>
              && key in old(items) && intent.state == Prepared && old(items)[key].head == head
              && old(items)[key].status == StatusOf(claim.phase) && Owns(old(items)[key], claim)
              && old(items)[key].intent.None? && old(items)[key].receipt.None?
      ensures items == if stored then old(items)[key := old(items)[key].(intent := Some(intent))] else old(items)
    {
      if key !in items { return false; }
      var written := StoreIntentWrite(items[key], claim, head, intent);
      stored := written.Some?;
      if stored { items := items[key := written.value]; }
    }

    /** `replace_publication_intent`: an exact exchange. */
    method ReplacePublicationIntent(key: Key, claim: Claim, expected: Intent, next: Intent) returns (stored: bool)
      modifies this`items
      ensures stored <==>
              && key in old(items) && old(items)[key].status == StatusOf(claim.phase) && Owns(old(items)[key], claim)
              && old(items)[key].intent == Some(expected) && old(items)[key].receipt.None?
      ensures items == if stored then old(items)[key := old(items)[key].(intent := Some(next))] else old(items)
    {
      if key !in items { return false; }
      var written := ReplaceIntentWrite(items[key], claim, expected, next);
      stored := written.Some?;
      if stored { items := items[key := written.value]; }
    }

    /** `record_initial_admission`: written once for the head and run in place; a repetition only confirms it. */
    method RecordInitialAdmission(key: Key, claim: Claim, head: string) returns (recorded: bool)
      modifies this`items
      ensures recorded ==>
                && key in old(items) && key in items
                && items[key].admission == Some(Admission(head, items[key].run))
                && items == old(items)[key := old(items)[key].(admission := items[key].admission)]
      ensures recorded <==>
              && key in old(items)
              && (if old(items)[key].admission.Some? then old(items)[key].admission.value == Admission(head, old(items)[key].run)
                  else
                    && old(items)[key].status == StatusOf(claim.phase) && old(items)[key].head == head
                    && OwnsEvent(old(items)[key], claim))
      ensures !recorded ==> items == old(items)
    {
      if key !in items { return false; }
      var current := items[key];
      if current.admission.Some? { return current.admission.value == Admission(head, current.run); }
      var written := AdmissionWrite(current, claim, head, current.run);
      recorded := written.Some?;
      if recorded { items := items[key := written.value]; }
    }

    /** One listing of the retained call ids, without repetition. */
    method ListCallIds(members: set<CallId>) returns (ids: seq<CallId>)
      ensures Lists(ids, members)
    {
      ids := [];
      var rest := members;
      while rest != {}
        invariant rest <= members && Lists(ids, members - rest)
        decreases rest
      {
        var id :| id in rest;
        assert |members - (rest - {id})| == |members - rest| + 1 by {
          assert members - (rest - {id}) == (members - rest) + {id};
        }
        ids := ids + [id];
        rest := rest - {id};
      }
      assert members - rest == members;
    }

    /** The read half of `requeue_head_successor`. */
    method PlanSuccessor(key: Key, claim: Claim, oldHead: string, newHead: string, stage: string, maxAttempts: int)
      returns (plan: Option<Requeue>)
      ensures plan.Some? <==> key in items && RequeueEligible(items[key], claim, oldHead, newHead, maxAttempts)
      ensures plan.Some? ==> Lists(plan.value.predecessor.callIds, items[key].RecordIds())
                             && plan.value == RequeuePlan(items[key], stage, newHead, plan.value.predecessor.callIds)
    {
      if key !in items || !RequeueEligible(items[key], claim, oldHead, newHead, maxAttempts) { return None; }
      var ids := ListCallIds(items[key].RecordIds());
      plan := Some(RequeuePlan(items[key], stage, newHead, ids));
    }

    /** The write half: the head is replaced only while the planned predecessor is still in place. */
    method WriteSuccessor(key: Key, claim: Claim, plan: Requeue) returns (stored: bool)
      modifies this`items
      ensures stored <==> key in old(items) && RequeueAccepted(old(items)[key], claim, plan)
      ensures items == if stored then old(items)[key := Requeued(old(items)[key], plan)] else old(items)
    {
      stored := key in items && RequeueAccepted(items[key], claim, plan);
      if stored { items := items[key := Requeued(items[key], plan)]; }
    }
  }
}
