/**
  The review-run protocol: at-least-once invocations racing on shared items and grant counters.

  A worker is one invocation that won a phase claim. It is sequential, it may crash between any two
  steps, and every read that precedes a conditional write is a step of its own, so that other
  workers can act in between.
 */
module ReviewProtocol {
  import opened Wrappers
  import opened DirectBudget
  import opened ReviewItem

  datatype Key = Key(repo: string, pr: int)

  datatype Pc =
    | Claimed(head: string, run: RunId)                                  // claim written, not yet reread
    | Ready                                                              // admitted: may dispatch
    | Fencing(record: Record)                                            // fence read passed, write pending
    | Fenced(record: Record)                                             // fence durable, no HTTP yet
    | Answered(record: Record)                                           // HTTP left the process
    | Settling(expected: Record, final: Record, cost: Option<nat>)       // settlement read passed
    | Requeuing(plan: Requeue)                                           // successor read passed
    | Closing                                                            // may only finish or release
    | Crashed

  datatype Worker = Worker(key: Key, claim: Claim, pc: Pc)

  /**
    What the retry loop of one worker remembers: the operations it has begun, the transport attempt that
    may follow a settled retryable one, and whether the current attempt was sent.
   */
  datatype Line = Line(begun: set<Operation>, next: Option<CallId>, sent: bool)

  const FreshLine := Line({}, None, false)

  datatype Sys = Sys(
    maxAttempts: int, maxRetries: nat, items: map<Key, Item>, counters: Counters, workers: map<nat, Worker>,
    lines: map<nat, Line>, paid: multiset<(Key, CallId)>)

  datatype Action =
    | Insert(key: Key, head: string, run: RunId)
    | ClaimPhase(worker: nat, key: Key, phase: Phase, owner: string, event: string,
                 head: string, run: RunId, now: nat, leaseSeconds: int)
    | Admit(worker: nat)
    | ReadFence(worker: nat, record: Record, policy: Policy, model: string, maxOutput: int, mode: CacheMode, now: nat)
    | WriteFence(worker: nat)
    | Post(worker: nat)
    | ReadSettlement(worker: nat, reported: Record)
    | WriteSettlement(worker: nat)
    | ReleaseClaim(worker: nat)
    | Advance(worker: nat, next: Status, expectedIntent: Option<Intent>, attributes: Terminals)
    | StoreIntent(worker: nat, head: string, intent: Intent)
    | ReplaceIntent(worker: nat, expected: Intent, replacement: Intent)
    | RecordAdmission(worker: nat, head: string, run: RunId)
    | ReadSuccessor(worker: nat, oldHead: string, newHead: string, stage: string, ids: seq<CallId>)
    | WriteSuccessor(worker: nat)
    | Redeliver(key: Key, reported: Record)
    | Crash(worker: nat)

  predicate Init(s: Sys) {
    s.items == map[] && s.counters == map[] && s.workers == map[] && s.lines == map[] && s.paid == multiset{}
  }

  function LineOf(s: Sys, i: nat): Line {
    if i in s.lines then s.lines[i] else FreshLine
  }

  function Note(s: Sys, i: nat, line: Line): Sys {
    s.(lines := s.lines[i := line])
  }

  /** The statuses after which the loop may try again. */
  predicate Retried(status: CallStatus) {
    status == HttpRetry || status == HttpError || status == TransportError
  }

  /** The next fence the sequential client can ask for: a retry of its call, or a new operation. */
  predicate Offers(line: Line, id: CallId, maxRetries: nat) {
    && id.transport <= maxRetries
    && (line.next == Some(id) || (id.transport == 1 && id.operation !in line.begun))
  }

  function Move(s: Sys, i: nat, pc: Pc): Sys
    requires i in s.workers
  {
    s.(workers := s.workers[i := s.workers[i].(pc := pc)])
  }

  /** The effect of one conditional write by a worker: a lost condition changes nothing on the item. */
  function Write(s: Sys, i: nat, item: Option<Item>, pc: Pc): Sys
    requires i in s.workers
  {
    if item.None? then Move(s, i, pc) else Move(s.(items := s.items[s.workers[i].key := item.value]), i, pc)
  }

  /** A worker between two provider calls may use every lifecycle request. */
  predicate Free(pc: Pc) {
    pc.Claimed? || pc.Ready? || pc.Closing?
  }

  /** The next statuses that the callers of `update_status` ask for. */
  predicate Allowed(phase: Phase, next: Status) {
    next.Terminal() || (phase == Context && next == ContextReady)
  }

  function StepClaim(s: Sys, a: Action): Option<Sys>
    requires a.ClaimPhase?
  {
    if a.worker in s.workers || a.key !in s.items || a.owner == "" then None
    else
      var item := s.items[a.key];
      var claimed := ClaimWrite(item, a.phase, a.owner, a.event, a.head, a.run, a.now, a.leaseSeconds);
      if claimed.None? then None
      else
        var claim := Claim(a.phase, a.owner, a.event, claimed.value.Attempt(a.phase));
        Some(s.(items := s.items[a.key := claimed.value],
                workers := s.workers[a.worker := Worker(a.key, claim, Claimed(a.head, a.run))],
                lines := s.lines[a.worker := FreshLine]))
  }

  function AfterFenceRead(item: Item, claim: Claim, a: Action): Pc
    requires a.ReadFence?
  {
    if !ValidFence(a.record, a.policy, a.model, a.maxOutput, a.mode) then Closing
    else if a.record.budget.Some? && !Authorizes(a.policy, a.now, 0, a.record.identity.profile) then Closing
    else if BeginRead(item, a.record, claim) == Proceed then Fencing(a.record)
    else Closing
  }

  function StepReadFence(s: Sys, w: Worker, a: Action): Option<Sys>
    requires a.ReadFence? && a.worker in s.workers && w.key in s.items
  {
    var line := LineOf(s, a.worker);
    if !w.pc.Ready? || !Offers(line, a.record.id, s.maxRetries) then None
    else
      Some(Note(Move(s, a.worker, AfterFenceRead(s.items[w.key], w.claim, a)), a.worker,
                Line(line.begun + {a.record.id.operation}, None, false)))
  }

  /** Item and counter move together or not at all. */
  function StepWriteFence(s: Sys, i: nat, w: Worker): Option<Sys>
    requires i in s.workers && w.key in s.items
  {
    if !w.pc.Fencing? then None
    else
      var item, r := s.items[w.key], w.pc.record;
      var charged := Charge(s.counters, r.budget);
      if !FenceAccepted(item, r, w.claim) || charged.None? then Some(Move(s, i, Closing))
      else Some(Move(s.(items := s.items[w.key := WithFence(item, r)], counters := charged.value), i, Fenced(r)))
  }

  function AfterSettlementRead(item: Item, reported: Record): Pc {
    match SettleRead(item, reported)
    case Replace(expected, final, cost) => Settling(expected, final, cost)
    case AlreadySettled => Ready
    case NoFence => Closing
    case Conflict => Closing
  }

  function StepReadSettlement(s: Sys, w: Worker, a: Action): Option<Sys>
    requires a.ReadSettlement? && a.worker in s.workers && w.key in s.items
  {
    if (w.pc.Fenced? || w.pc.Answered?) && a.reported.id == w.pc.record.id
    then Some(Move(s, a.worker, AfterSettlementRead(s.items[w.key], a.reported)))
    else None
  }

  function StepWriteSettlement(s: Sys, i: nat, w: Worker): Option<Sys>
    requires i in s.workers && w.key in s.items
  {
    if !w.pc.Settling? then None
    else
      var item := s.items[w.key];
      var settled := SettleWrite(item, w.pc.expected, w.pc.final);
      var released := Release(s.counters, w.pc.final.budget, w.pc.cost);
      if settled.None? || released.None? then
        var repeated := w.pc.final.id in item.calls && item.calls[w.pc.final.id] == w.pc.final;
        Some(if repeated then Note(Move(s, i, Ready), i, AfterSettled(LineOf(s, i), w.pc.final)) else Move(s, i, Closing))
      else
        Some(Note(Move(s.(items := s.items[w.key := settled.value], counters := released.value), i, Ready), i,
                  AfterSettled(LineOf(s, i), w.pc.final)))
  }

  /** A sent attempt that settled as retryable may be followed by the next one of its call. */
  function AfterSettled(line: Line, final: Record): Line {
    line.(next := if line.sent && Retried(final.status)
                  then Some(CallId(final.id.operation, final.id.transport + 1)) else None)
  }

  /**
    A terminal report delivered again, at any time and by anyone. A report that finds its fence still
    open is no repetition: that delivery is the read and the write of the worker behind the fence.
   */
  function StepRedeliver(s: Sys, key: Key, reported: Record): Option<Sys> {
    if key in s.items && SettleRead(s.items[key], reported).Replace? then None else Some(s)
  }

  function StepReadSuccessor(s: Sys, w: Worker, a: Action): Option<Sys>
    requires a.ReadSuccessor? && a.worker in s.workers && w.key in s.items
  {
    if !w.pc.Ready? then None
    else
      var item := s.items[w.key];
      if !RequeueEligible(item, w.claim, a.oldHead, a.newHead, s.maxAttempts) then Some(Move(s, a.worker, Closing))
      else if !Lists(a.ids, item.RecordIds()) then None
      else Some(Move(s, a.worker, Requeuing(RequeuePlan(item, a.stage, a.newHead, a.ids))))
  }

  function StepWriteSuccessor(s: Sys, i: nat, w: Worker): Option<Sys>
    requires i in s.workers && w.key in s.items
  {
    if !w.pc.Requeuing? then None
    else
      var item := s.items[w.key];
      if !RequeueAccepted(item, w.claim, w.pc.plan) then Some(Move(s, i, Closing))
      else Some(Move(s.(items := s.items[w.key := Requeued(item, w.pc.plan)]), i, Closing))
  }

  predicate Lifecycle(a: Action) {
    a.ReleaseClaim? || a.Advance? || a.StoreIntent? || a.ReplaceIntent? || a.RecordAdmission?
  }

  /** The single-request writes that a worker makes between provider calls. */
  function LifecycleWrite(item: Item, claim: Claim, a: Action): Option<Item>
    requires Lifecycle(a)
  {
    match a
    case ReleaseClaim(_) => ReleaseWrite(item, claim)
    case Advance(_, next, expectedIntent, attributes) => AdvanceWrite(item, claim, next, expectedIntent, attributes)
    case StoreIntent(_, head, intent) => StoreIntentWrite(item, claim, head, intent)
    case ReplaceIntent(_, expected, replacement) => ReplaceIntentWrite(item, claim, expected, replacement)
    case RecordAdmission(_, head, run) => AdmissionWrite(item, claim, head, run)
  }

  function StepLifecycle(s: Sys, i: nat, w: Worker, a: Action): Option<Sys>
    requires Lifecycle(a) && i in s.workers && w.key in s.items && s.workers[i] == w
  {
    if !Free(w.pc) || (a.Advance? && !Allowed(w.claim.phase, a.next)) then None
    else Some(Write(s, i, LifecycleWrite(s.items[w.key], w.claim, a), w.pc))
  }

  /** The reread after a claim, and the retry-budget gate before any paid work. */
  function StepAdmit(s: Sys, i: nat, w: Worker): Option<Sys>
    requires i in s.workers && w.key in s.items
  {
    if !w.pc.Claimed? then None
    else if ClaimHolds(s.items[w.key], w.claim, w.pc.head, w.pc.run) && w.claim.attempt <= s.maxAttempts
    then Some(Move(s, i, Ready))
    else Some(Move(s, i, Closing))
  }

  /** The paid request itself. */
  function StepPost(s: Sys, i: nat, w: Worker): Option<Sys>
    requires i in s.workers && w.key in s.items
  {
    if !w.pc.Fenced? then None
    else
      Some(Note(Move(s.(paid := s.paid + multiset{(w.key, w.pc.record.id)}), i, Answered(w.pc.record)), i,
                LineOf(s, i).(sent := true)))
  }

  function StepInsert(s: Sys, a: Action): Option<Sys>
    requires a.Insert?
  {
    if a.key in s.items || a.key.repo == "" || a.key.pr < 1 || a.head == "" || !a.run.Delivered? || a.run == NO_RUN
    then None
    else Some(s.(items := s.items[a.key := NewItem(a.key.repo, a.key.pr, a.head, a.run)]))
  }

  /** The state after one action, or nothing when the action is not enabled. */
  function Step(s: Sys, a: Action): Option<Sys> {
    if a.Insert? then StepInsert(s, a)
    else if a.ClaimPhase? then StepClaim(s, a)
    else if a.Redeliver? then StepRedeliver(s, a.key, a.reported)
    else if a.worker !in s.workers || s.workers[a.worker].key !in s.items then None
    else
      var i, w := a.worker, s.workers[a.worker];
      if a.Admit? then StepAdmit(s, i, w)
      else if a.ReadFence? then StepReadFence(s, w, a)
      else if a.WriteFence? then StepWriteFence(s, i, w)
      else if a.Post? then StepPost(s, i, w)
      else if a.ReadSettlement? then StepReadSettlement(s, w, a)
      else if a.WriteSettlement? then StepWriteSettlement(s, i, w)
      else if a.ReadSuccessor? then StepReadSuccessor(s, w, a)
      else if a.WriteSuccessor? then StepWriteSuccessor(s, i, w)
      else if a.Crash? then Some(Move(s, i, Crashed))
      else StepLifecycle(s, i, w, a)
  }

  /** A run: a trace of states linked by the actions between them. */
  ghost predicate IsRun(trace: seq<Sys>, actions: seq<Action>) {
    && |trace| == |actions| + 1
    && Init(trace[0])
    && forall n :: 0 <= n < |actions| ==> Step(trace[n], actions[n]) == Some(trace[n + 1])
  }
}
