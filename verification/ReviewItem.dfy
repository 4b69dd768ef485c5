/**
  One durable review item and the requests that change it.

  Every `...Write` function is one conditional write: it gives the item after the write, or nothing
  when the write condition rejects. Every `...Read` function is the decision taken on an earlier
  consistent read. SHA-256 identities are modelled by the values they digest.
 */
module ReviewItem {
  import opened Wrappers
  import opened DirectBudget

  const LEASE_SECONDS: nat := 16 * 60
  const MAX_RECEIPT_CALLS: nat := 64

  // ------------------------------------------------------------------ entities

  datatype Status = Pending | ContextReady | Processed | ProcessedDryRun | Error | Superseded {
    predicate Terminal() {
      this != Pending && this != ContextReady
    }
  }

  datatype Phase = Context | Review

  /** The status in which a phase may be claimed. */
  function StatusOf(phase: Phase): Status {
    match phase
    case Context => Pending
    case Review => ContextReady
  }

  datatype RunId = Delivered(id: string) | Successor(repo: string, pr: int, head: string)

  const NO_RUN := Delivered("")

  datatype Provider = DirectOpenAi | Gateway(name: string)

  datatype CallStatus = Dispatching | Completed | HttpRetry | HttpError | TransportError | Unknown {
    predicate Final() {
      this != Dispatching && this != Unknown
    }
  }

  /** One logical provider operation; its digest is the operation id. */
  datatype Operation = Operation(run: RunId, head: string, phase: Phase, attempt: int, stage: string, callIndex: int)

  /** One transport attempt of an operation; its digest is the call id. */
  datatype CallId = CallId(operation: Operation, transport: int)

  /** The fields that a terminal record must share with its fence. */
  datatype Identity = Identity(
    provider: Provider, profile: string, run: RunId, head: string, stage: string, phase: Phase,
    attempt: int, callIndex: int, operation: Operation, transport: int, model: string)

  datatype Record = Record(
    id: CallId, identity: Identity, dispatchCount: int, status: CallStatus, outcome: Outcome,
    budget: Option<Budget>)

  /** The lease as stored on the item. */
  datatype Lease = Lease(owner: string, event: string, expires: int)

  /** The claim as carried by the invocation that won it. */
  datatype Claim = Claim(phase: Phase, owner: string, event: string, attempt: int)

  datatype Pin = Pin(provider: Provider, profile: string)

  datatype IntentState = Prepared | Posting | Other(name: string)

  datatype Intent = Intent(state: IntentState, content: string)

  datatype Admission = Admission(head: string, run: RunId)

  datatype Predecessor = Predecessor(
    stage: string, oldHead: string, oldRun: RunId, newHead: string, newRun: RunId,
    attempt: int, contextAttempt: int, reviewAttempt: int, callIds: seq<CallId>)

  datatype Item = Item(
    repo: string, pr: int, status: Status, head: string, run: RunId,
    attempt: int, contextAttempt: int, reviewAttempt: int,
    contextLease: Option<Lease>, reviewLease: Option<Lease>,
    calls: map<CallId, Record>, aggregate: set<CallId>, pin: Option<Pin>,
    intent: Option<Intent>, receipt: Option<string>, admission: Option<Admission>,
    successors: int, predecessor: Option<Predecessor>)
  {
    function Attempt(phase: Phase): int {
      if phase == Context then contextAttempt else reviewAttempt
    }

    function LeaseOf(phase: Phase): Option<Lease> {
      if phase == Context then contextLease else reviewLease
    }

    function WithLease(phase: Phase, lease: Option<Lease>): Item {
      if phase == Context then this.(contextLease := lease) else this.(reviewLease := lease)
    }

    predicate Unresolved() {
      exists id :: id in calls && calls[id].status == Dispatching
    }

    /** The ids that `provider_call_records` lists, including rows kept only in an old aggregate. */
    function RecordIds(): set<CallId> {
      calls.Keys + aggregate
    }
  }

  /** The row written once by the webhook. */
  function NewItem(repo: string, pr: int, head: string, run: RunId): Item {
    Item(repo, pr, Pending, head, run, 0, 0, 0, None, None, map[], {}, None, None, None, None, 0, None)
  }

  // -------------------------------------------------------------------- claims

  predicate Claimable(item: Item, phase: Phase, event: string, head: string, run: RunId, now: int) {
    && item.status == StatusOf(phase)
    && (item.LeaseOf(phase).None?
        || item.LeaseOf(phase).value.expires < now
        || (event != "" && item.LeaseOf(phase).value.event == event))
    && (head == "" || item.head == head)
    && (run == NO_RUN || item.run == run)
  }

  function ClaimWrite(item: Item, phase: Phase, owner: string, event: string, head: string, run: RunId,
                      now: int, leaseSeconds: int): Option<Item>
  {
    if !Claimable(item, phase, event, head, run, now) then None
    else
      var seconds := if leaseSeconds > LEASE_SECONDS then leaseSeconds else LEASE_SECONDS;
      var lease := Lease(owner, event, now + seconds);
      var counted := if phase == Context then item.(contextAttempt := item.contextAttempt + 1)
                     else item.(reviewAttempt := item.reviewAttempt + 1);
      Some(counted.(attempt := item.attempt + 1).WithLease(phase, Some(lease)))
  }

  predicate Owns(item: Item, claim: Claim) {
    item.LeaseOf(claim.phase).Some? && item.LeaseOf(claim.phase).value.owner == claim.owner
  }

  predicate OwnsEvent(item: Item, claim: Claim) {
    Owns(item, claim) && item.LeaseOf(claim.phase).value.event == claim.event
  }

  /** The consistent reread of `claim_current_phase_delivery`. */
  predicate ClaimHolds(item: Item, claim: Claim, head: string, run: RunId) {
    && item.status == StatusOf(claim.phase)
    && OwnsEvent(item, claim)
    && item.Attempt(claim.phase) == claim.attempt
    && (head == "" || item.head == head)
    && (run == NO_RUN || item.run == run)
  }

  function ReleaseWrite(item: Item, claim: Claim): Option<Item> {
    if item.status == StatusOf(claim.phase) && Owns(item, claim) then Some(item.WithLease(claim.phase, None))
    else None
  }

  // ------------------------------------------------------------ dispatch fences

  /** The shape checks made before anything is read. */
  predicate ValidFence(record: Record, policy: Policy, model: string, maxOutput: int, mode: CacheMode) {
    && record.status == Dispatching
    && !record.outcome.usageReported && record.outcome.usage == NotMapping
    && record.identity.transport >= 1 && record.dispatchCount == 1
    && record.id == CallId(record.identity.operation, record.identity.transport)
    && (if record.identity.provider == DirectOpenAi
        then record.budget.Some? && record.budget == Reserve(policy, model, maxOutput, mode)
        else record.budget.None?)
  }

  /** `_provider_phase_claim_binding`. */
  predicate Binds(item: Item, record: Record, claim: Claim) {
    && claim.owner != "" && claim.event != "" && claim.attempt > 0
    && OwnsEvent(item, claim)
    && item.Attempt(claim.phase) == claim.attempt
    && record.identity.phase == claim.phase && record.identity.attempt == claim.attempt
    && record.identity.run == item.run && record.identity.head == item.head
  }

  /** A direct attempt never joins a run that another provider or profile already served. */
  predicate ForeignProfile(item: Item, identity: Identity) {
    identity.provider == DirectOpenAi &&
    exists id ::
      && id in item.calls
      && item.calls[id].identity.run == identity.run
      && (item.calls[id].identity.provider != DirectOpenAi || item.calls[id].identity.profile != identity.profile)
  }

  predicate PinConflict(item: Item, identity: Identity) {
    item.pin.Some? && item.pin.value != Pin(identity.provider, identity.profile)
  }

  datatype BeginVerdict = Proceed | NotStored | Refused | OutcomeUnknown

  function BeginRead(item: Item, record: Record, claim: Claim): BeginVerdict {
    if item.status != StatusOf(claim.phase) then NotStored
    else if PinConflict(item, record.identity) then Refused
    else if ForeignProfile(item, record.identity) then Refused
    else if !Binds(item, record, claim) then NotStored
    else if item.Unresolved() then OutcomeUnknown
    else Proceed
  }

  /** The write condition of the fence: it repeats the claim, not the search for unresolved fences. */
  predicate FenceAccepted(item: Item, record: Record, claim: Claim) {
    && item.status == StatusOf(claim.phase)
    && record.id !in item.calls
    && OwnsEvent(item, claim)
    && item.Attempt(claim.phase) == claim.attempt
    && item.run == record.identity.run && item.head == record.identity.head
    && (record.budget.Some? ==>
          item.pin.None? || item.pin.value == Pin(DirectOpenAi, record.identity.profile))
  }

  function WithFence(item: Item, record: Record): Item {
    var fenced := item.(calls := item.calls[record.id := record]);
    if record.budget.Some? && item.pin.None? then fenced.(pin := Some(Pin(DirectOpenAi, record.identity.profile)))
    else fenced
  }

  // -------------------------------------------------------------- grant counter

  /** The shared counter of one finite grant. */
  datatype Counter = Counter(policy: Policy, allocation: int, charged: int, reserved: int, settled: int)

  type Counters = map<CounterKey, Counter>

  /** The counter half of the fence transaction. */
  function Charge(counters: Counters, budget: Option<Budget>): Option<Counters> {
    if budget.None? || budget.value.policy.Continuous? then Some(counters)
    else
      var b := budget.value;
      var headroom := b.policy.allocation - b.reserved;
      if headroom < 0 then None
      else if b.Counter() !in counters then
        Some(counters[b.Counter() := Counter(b.policy, b.policy.allocation, b.reserved, b.reserved, 0)])
      else
        var c := counters[b.Counter()];
        if c.policy != b.policy || c.charged > headroom then None
        else Some(counters[b.Counter() := c.(charged := c.charged + b.reserved, reserved := c.reserved + b.reserved)])
  }

  /** The counter half of a settlement; an unknown cost keeps its whole reservation charged. */
  function Release(counters: Counters, budget: Option<Budget>, cost: Option<nat>): Option<Counters> {
    if budget.None? || budget.value.policy.Continuous? || cost.None? then Some(counters)
    else
      var b := budget.value;
      if b.Counter() !in counters then None
      else
        var c := counters[b.Counter()];
        if c.policy != b.policy || c.reserved < b.reserved || c.charged < b.reserved then None
        else
          Some(counters[b.Counter() := c.(charged := c.charged + cost.value - b.reserved,
                                          reserved := c.reserved - b.reserved,
                                          settled := c.settled + cost.value)])
  }

  // ----------------------------------------------------------------- settlement

  datatype SettleVerdict =
    | NoFence
    | AlreadySettled
    | Conflict
    | Replace(expected: Record, final: Record, cost: Option<nat>)

  /** The terminal record as stored: its budget comes only from the original fence. */
  function FinalRecord(existing: Record, reported: Record): Record
    requires reported.identity.provider == DirectOpenAi ==> existing.budget.Some?
  {
    if reported.identity.provider != DirectOpenAi then reported
    else
      var original := existing.budget.value.(state := Reserved);
      var cost := ActualCost(reported.outcome, original);
      reported.(budget := Some(if cost.Some? then original.(state := Settled(cost.value)) else original))
  }

  function FinalCost(existing: Record, reported: Record): Option<nat>
    requires reported.identity.provider == DirectOpenAi ==> existing.budget.Some?
  {
    if reported.identity.provider != DirectOpenAi then None
    else ActualCost(reported.outcome, existing.budget.value.(state := Reserved))
  }

  function SettleRead(item: Item, reported: Record): SettleVerdict {
    if reported.id !in item.calls then NoFence
    else
      var existing := item.calls[reported.id];
      if reported.identity.provider == DirectOpenAi && existing.budget.None? then Conflict
      else if reported.identity.provider != DirectOpenAi && reported.budget.Some? then Conflict
      else
        var final := FinalRecord(existing, reported);
        if existing.status != Dispatching && existing == final then AlreadySettled
        else if existing.status != Dispatching || existing.identity != final.identity then Conflict
        else if !final.status.Final() then Conflict
        else Replace(existing, final, FinalCost(existing, reported))
  }

  /** The item half of a settlement: a compare-and-swap on the exact fence. */
  function SettleWrite(item: Item, expected: Record, final: Record): Option<Item> {
    if final.id in item.calls && item.calls[final.id] == expected
    then Some(item.(calls := item.calls[final.id := final]))
    else None
  }

  // --------------------------------------------------- status and publication

  /** The attributes a status update may carry, as far as this model keeps them. */
  datatype Terminals = Terminals(receipt: Option<string>, aggregate: set<CallId>)

  function AdvanceWrite(item: Item, claim: Claim, next: Status, expectedIntent: Option<Intent>, attributes: Terminals)
    : Option<Item>
  {
    if item.status == StatusOf(claim.phase) && Owns(item, claim)
       && (expectedIntent.Some? ==> item.intent == expectedIntent && item.receipt.None?)
    then
      var moved := item.WithLease(claim.phase, None).(status := next, aggregate := item.aggregate + attributes.aggregate);
      Some(if attributes.receipt.Some? then moved.(receipt := attributes.receipt) else moved)
    else None
  }

  function StoreIntentWrite(item: Item, claim: Claim, head: string, intent: Intent): Option<Item> {
    if intent.state == Prepared && item.status == StatusOf(claim.phase) && item.head == head && Owns(item, claim)
       && item.intent.None? && item.receipt.None?
    then Some(item.(intent := Some(intent)))
    else None
  }

  function ReplaceIntentWrite(item: Item, claim: Claim, expected: Intent, next: Intent): Option<Item> {
    if item.status == StatusOf(claim.phase) && Owns(item, claim)
       && item.intent == Some(expected) && item.receipt.None?
    then Some(item.(intent := Some(next)))
    else None
  }

  function AdmissionWrite(item: Item, claim: Claim, head: string, run: RunId): Option<Item> {
    if item.status == StatusOf(claim.phase) && item.head == head && item.run == run
       && OwnsEvent(item, claim) && item.admission.None?
    then Some(item.(admission := Some(Admission(head, run))))
    else None
  }

  // ------------------------------------------------------------- head successor

  /** What a requeue read decided: the write's coordinates, its receipt, and the stale fields it saw. */
  datatype Requeue = Requeue(
    predecessor: Predecessor, dropsContextLease: bool, dropsReviewLease: bool, dropsAdmission: bool)

  predicate RequeueEligible(item: Item, claim: Claim, oldHead: string, newHead: string, maxAttempts: int) {
    && claim.phase == Context && claim.owner != "" && claim.event != "" && claim.attempt > 0
    && newHead != "" && newHead != oldHead
    && item.status == Pending && item.head == oldHead && item.run != NO_RUN
    && item.successors == 0 && item.contextAttempt < maxAttempts
    && item.intent.None? && item.receipt.None?
    && OwnsEvent(item, claim) && item.contextAttempt == claim.attempt
    && !item.Unresolved()
    && |item.RecordIds()| <= MAX_RECEIPT_CALLS
    && item.RecordIds() == item.calls.Keys
  }

  predicate Lists(ids: seq<CallId>, members: set<CallId>) {
    && |ids| == |members|
    && (forall i :: 0 <= i < |ids| ==> ids[i] in members)
    && forall i, j :: 0 <= i < j < |ids| ==> ids[i] != ids[j]
  }

  function RequeuePlan(item: Item, stage: string, newHead: string, ids: seq<CallId>): Requeue {
    Requeue(
      Predecessor(stage, item.head, item.run, newHead, Successor(item.repo, item.pr, newHead),
                  item.attempt, item.contextAttempt, item.reviewAttempt, ids),
      item.contextLease.Some?, item.reviewLease.Some?, item.admission.Some?)
  }

  predicate RequeueAccepted(item: Item, claim: Claim, plan: Requeue) {
    && item.status == Pending
    && item.head == plan.predecessor.oldHead && item.run == plan.predecessor.oldRun
    && item.successors == 0
    && OwnsEvent(item, claim) && item.contextAttempt == claim.attempt
    && item.intent.None? && item.receipt.None?
  }

  /** The write removes the stale fields its read had seen, and no others. */
  function Requeued(item: Item, plan: Requeue): Item {
    item.(head := plan.predecessor.newHead, run := plan.predecessor.newRun,
          successors := 1, predecessor := Some(plan.predecessor), aggregate := {},
          contextLease := if plan.dropsContextLease then None else item.contextLease,
          reviewLease := if plan.dropsReviewLease then None else item.reviewLease,
          admission := if plan.dropsAdmission then None else item.admission)
  }

  /** The transition without its last test, on the admission. */
  predicate SuccessorCore(prior: Item, next: Item) {
    && prior.status == Pending && next.status == Pending
    && next.repo != "" && next.repo == prior.repo && next.pr == prior.pr
    && prior.head != "" && next.head != "" && prior.head != next.head
    && prior.run != NO_RUN && prior.successors == 0 && next.successors == 1
    && next.run == Successor(next.repo, next.pr, next.head)
    && next.predecessor.Some?
    && var p := next.predecessor.value;
       && p.oldHead == prior.head && p.oldRun == prior.run && p.newHead == next.head && p.newRun == next.run
       && p.attempt == prior.attempt == next.attempt
       && p.contextAttempt == prior.contextAttempt == next.contextAttempt
       && p.reviewAttempt == prior.reviewAttempt == next.reviewAttempt
       && prior.calls == next.calls
       && |p.callIds| == |next.calls.Keys| && (set id | id in p.callIds) == next.calls.Keys
       && (forall id :: id in next.calls ==> next.calls[id].id == id && next.calls[id].status != Dispatching)
       && next.contextLease.None? && next.reviewLease.None?
  }

  /** `is_valid_head_successor_transition`. */
  predicate ValidSuccessor(prior: Item, next: Item) {
    SuccessorCore(prior, next) && next.admission.None?
  }

  // ------------------------------------------------------------ stream dispatch

  datatype Dispatch = Ignored | MissingEventId | ContextPhase | ReviewPhase

  /** `process_record` on one stream image pair; an insert has no old image. */
  function ProcessRecord(prior: Option<Item>, next: Item, event: string): Dispatch {
    if next.pr < 1 then Ignored
    else if prior.Some? && prior.value.status == next.status && !ValidSuccessor(prior.value, next) then Ignored
    else if (next.status == Pending || next.status == ContextReady) && event == "" then MissingEventId
    else if next.status == Pending then ContextPhase
    else if next.status == ContextReady then ReviewPhase
    else Ignored
  }
}
