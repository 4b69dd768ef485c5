/**
  The client side of a paid call: the retry loop that fences, posts and settles each attempt.

  What the network, the store and the clock answer is an arbitrary script, one entry an attempt.
 */
module ProviderClient {
  import opened Wrappers
  import opened ReviewItem

  /** How one HTTP exchange ends, as far as the loop tells outcomes apart. */
  datatype Answer =
    | NotSent              // interrupted between the fence and the request
    | Success
    | SuccessThenInterrupted // answered, recorded locally, then interrupted before settling
    | BadBody              // a 200 that is not a usable object
    | Retryable            // 429 without a billing rejection, or 5xx
    | BillingRejected
    | ClientError
    | NetworkError         // a transport timeout or request exception
    | WallTimeout          // the caller's deadline fired
    | Interrupted

  datatype FenceAnswer = Stored | RejectedFence | PriorUnknown

  datatype Attempt = Attempt(
    timeLeft: bool, budgetLoads: bool, fence: FenceAnswer, answer: Answer, settled: bool, backoffFits: bool)

  datatype Event =
    | FenceStored(id: CallId)
    | FenceLost(id: CallId)
    | Sent(id: CallId)
    | SettleTried(id: CallId, status: CallStatus, stored: bool)

  datatype Failure =
    | DeadlineFailure | BudgetFailure | FenceFailure | UnknownOutcome | LedgerFailure
    | ResponseFailure | HttpFailure | TransportFailure | InterruptFailure

  datatype Outcome = Returned(id: CallId) | Raised(failure: Failure)

  // ------------------------------------------------------------- the event grammar

  /** The fence, the optional request and the one settlement attempt of one transport attempt. */
  function AttemptEvents(id: CallId, sent: bool, status: CallStatus, stored: bool): seq<Event> {
    [FenceStored(id)] + (if sent then [Sent(id)] else []) + [SettleTried(id, status, stored)]
  }

  /** One attempt that settled and may be followed by another. */
  datatype Round = Round(sent: bool, status: CallStatus)

  predicate Continues(r: Round) {
    r.sent && (r.status == HttpRetry || r.status == HttpError || r.status == TransportError)
  }

  /** The events of n completed rounds, with transport indexes 1..n. */
  function Rounds(op: Operation, rounds: seq<Round>): seq<Event> {
    if rounds == [] then []
    else
      var n := |rounds| - 1;
      Rounds(op, rounds[..n]) + AttemptEvents(CallId(op, n + 1), rounds[n].sent, rounds[n].status, true)
  }

  /** How a call may end after its completed rounds. */
  datatype Ending =
    | Exhausted                                                   // the last round was the last allowed
    | Before                                                      // stopped without touching the store again
    | Refused                                                     // the next fence was not stored
    | Final(sent: bool, status: CallStatus, stored: bool)         // one more attempt, and no retry after it

  function EndingEvents(op: Operation, index: nat, ending: Ending): seq<Event> {
    match ending
    case Exhausted => []
    case Before => []
    case Refused => [FenceLost(CallId(op, index))]
    case Final(sent, status, stored) => AttemptEvents(CallId(op, index), sent, status, stored)
  }

  function CallEvents(op: Operation, rounds: seq<Round>, ending: Ending): seq<Event> {
    Rounds(op, rounds) + EndingEvents(op, |rounds| + 1, ending)
  }

  lemma EventsAssemble(prefix: seq<Event>, id: CallId, sent: bool, status: CallStatus, stored: bool)
    ensures var fenced := prefix + [FenceStored(id)];
            var posted := if sent then fenced + [Sent(id)] else fenced;
            posted + [SettleTried(id, status, stored)] == prefix + AttemptEvents(id, sent, status, stored)
  {
  }

  lemma RoundsExtend(op: Operation, rounds: seq<Round>, r: Round)
    ensures Rounds(op, rounds + [r])
            == Rounds(op, rounds) + AttemptEvents(CallId(op, |rounds| + 1), r.sent, r.status, true)
  {
    assert (rounds + [r])[..|rounds|] == rounds;
  }

  /** The number of attempts that reached the store. */
  function Dispatches(rounds: seq<Round>, ending: Ending): nat {
    |rounds| + if ending.Final? then 1 else 0
  }

  /** The terminal status recorded for an answer. */
  function StatusAfter(answer: Answer, last: bool): CallStatus {
    match answer
    case Success => Completed
    case Retryable => if last then HttpError else HttpRetry
    case BadBody => HttpError
    case BillingRejected => HttpError
    case ClientError => HttpError
    case _ => TransportError
  }

  function FailureAfter(answer: Answer): Failure {
    match answer
    case BadBody => ResponseFailure
    case BillingRejected => HttpFailure
    case ClientError => HttpFailure
    case WallTimeout => DeadlineFailure
    case _ => InterruptFailure
  }

  // ------------------------------------------------------- the call that a script makes

  /** An attempt after which the loop goes round again; the last one needs no backoff. */
  predicate Retries(a: Attempt, last: bool) {
    && a.timeLeft && a.budgetLoads && a.fence == Stored && a.settled
    && (a.answer == Retryable || a.answer == NetworkError)
    && (last || a.backoffFits)
  }

  predicate IsLast(script: seq<Attempt>, k: nat) {
    k == |script| - 1
  }

  function EndingOf(a: Attempt, last: bool): Ending {
    if !a.timeLeft || !a.budgetLoads then Before
    else if a.fence != Stored then Ending.Refused
    else Final(a.answer != NotSent, StatusAfter(a.answer, last), a.settled)
  }

  /** What the caller gets from the attempt that ends the call; a lost settlement hides every other result. */
  function OutcomeOf(id: CallId, a: Attempt): Outcome {
    if !a.timeLeft then Raised(DeadlineFailure)
    else if !a.budgetLoads then Raised(BudgetFailure)
    else if a.fence == PriorUnknown then Raised(UnknownOutcome)
    else if a.fence == RejectedFence then Raised(FenceFailure)
    else if !a.settled then Raised(LedgerFailure)
    else if a.answer == Success then Returned(id)
    else if a.answer == Retryable || a.answer == NetworkError then Raised(DeadlineFailure)
    else Raised(FailureAfter(a.answer))
  }

  /** The rounds are those of the first attempts of the script, all of them retried. */
  ghost predicate Leads(script: seq<Attempt>, rounds: seq<Round>) {
    && |rounds| <= |script|
    && forall k :: 0 <= k < |rounds| ==>
                     && Retries(script[k], IsLast(script, k))
                     && rounds[k] == Round(true, StatusAfter(script[k].answer, IsLast(script, k)))
  }

  /** The rounds are the retried attempts, and the call ends with the first attempt that is not. */
  ghost predicate Plays(op: Operation, script: seq<Attempt>, outcome: Outcome, rounds: seq<Round>, ending: Ending) {
    var n := |rounds|;
    && Leads(script, rounds)
    && (n < |script| ==>
          && !Retries(script[n], IsLast(script, n))
          && ending == EndingOf(script[n], IsLast(script, n))
          && outcome == OutcomeOf(CallId(op, n + 1), script[n]))
    && (n == |script| ==>
          && ending == Exhausted
          && outcome == Raised(if n > 0 && script[n - 1].answer == NetworkError then TransportFailure else HttpFailure))
  }

  /** The script leaves no choice: one call, one outcome. */
  lemma ScriptDeterminesCall(op: Operation, script: seq<Attempt>, o: Outcome, rs: seq<Round>, e: Ending,
                             o': Outcome, rs': seq<Round>, e': Ending)
    requires Plays(op, script, o, rs, e) && Plays(op, script, o', rs', e')
    ensures o == o' && rs == rs' && e == e'
  {
    NotLonger(op, script, o, rs, e, rs');
    NotLonger(op, script, o', rs', e', rs);
  }

  lemma NotLonger(op: Operation, script: seq<Attempt>, o: Outcome, rs: seq<Round>, e: Ending, other: seq<Round>)
    requires Plays(op, script, o, rs, e) && Leads(script, other)
    ensures |other| <= |rs|
  {
    if |rs| < |script| { assert !Retries(script[|rs|], IsLast(script, |rs|)); }
  }

  /** The local rows of one attempt: an answer recorded before its interruption leaves a row of its own. */
  function AttemptRows(id: CallId, answer: Answer, last: bool): seq<(CallId, CallStatus)> {
    (if answer == SuccessThenInterrupted then [(id, Completed)] else []) + [(id, StatusAfter(answer, last))]
  }

  /** The local rows of the first n attempts. */
  function Rows(op: Operation, script: seq<Attempt>, n: nat): seq<(CallId, CallStatus)>
    requires n <= |script|
  {
    if n == 0 then []
    else Rows(op, script, n - 1) + AttemptRows(CallId(op, n), script[n - 1].answer, IsLast(script, n - 1))
  }

  lemma RowsExtend(op: Operation, script: seq<Attempt>, n: nat)
    requires n < |script|
    ensures Rows(op, script, n + 1)
            == Rows(op, script, n)
               + (if script[n].answer == SuccessThenInterrupted then [(CallId(op, n + 1), Completed)] else [])
               + [(CallId(op, n + 1), StatusAfter(script[n].answer, IsLast(script, n)))]
  {
  }

  lemma StartOfCall(op: Operation, script: seq<Attempt>)
    ensures Rounds(op, []) == [] && Rows(op, script, 0) == []
  {
  }

  class Client {
    var ordinals: map<(Phase, int, string), nat>
    var ledger: seq<(CallId, CallStatus)>
    ghost var issued: set<Operation>

    /** Every issued operation lies within its ordinal counter. */
    ghost predicate Valid()
      reads this
    {
      forall op :: op in issued ==>
                     (op.phase, op.attempt, op.stage) in ordinals
                     && op.callIndex <= ordinals[(op.phase, op.attempt, op.stage)]
    }

    constructor ()
      ensures Valid() && issued == {} && ledger == []
    {
      ordinals, ledger, issued := map[], [], {};
    }

    /** Allocates one logical operation that this client has never issued before. */
    method BeginOperation(run: RunId, head: string, phase: Phase, attempt: int, stage: string)
      returns (op: Operation)
      requires Valid()
      modifies this`ordinals, this`issued
      ensures Valid() && op !in old(issued) && issued == old(issued) + {op}
      ensures op == Operation(run, head, phase, attempt, stage, op.callIndex) && op.callIndex >= 1
    {
      var key := (phase, attempt, stage);
      var index := (if key in ordinals then ordinals[key] else 0) + 1;
      ordinals := ordinals[key := index];
      op := Operation(run, head, phase, attempt, stage, index);
      issued := issued + {op};
    }

    /** Appends the local row of one dispatch. */
    method RecordCall(id: CallId, status: CallStatus)
      modifies this`ledger
      ensures ledger == old(ledger) + [(id, status)]
    {
      ledger := ledger + [(id, status)];
    }

    /**
      The retry loop: for every script of answers it makes the call that the script determines, the
      retried attempts first and then one ending, and its local ledger gains the rows of what it fenced.
     */
    method Post(op: Operation, maxRetries: nat, script: seq<Attempt>)
      returns (outcome: Outcome, ghost events: seq<Event>, ghost rounds: seq<Round>, ghost ending: Ending)
      requires |script| == maxRetries
      modifies this`ledger
      ensures Plays(op, script, outcome, rounds, ending) && events == CallEvents(op, rounds, ending)
      ensures Dispatches(rounds, ending) <= maxRetries
      ensures ledger == old(ledger) + Rows(op, script, Dispatches(rounds, ending))
    {
      hide Rounds, Rows, AttemptEvents, AttemptRows, StatusAfter, FailureAfter;
      StartOfCall(op, script);
      events, rounds := [], [];
      var attempt := 0;
      var lastNetwork := false;
      while attempt < maxRetries
        invariant 0 <= attempt <= maxRetries && |rounds| == attempt
        invariant events == Rounds(op, rounds)
        invariant Leads(script, rounds)
        invariant lastNetwork <==> attempt > 0 && script[attempt - 1].answer == NetworkError
        invariant ledger == old(ledger) + Rows(op, script, attempt)
      {
        var now := script[attempt];
        if !now.timeLeft { return Raised(DeadlineFailure), events, rounds, Before; }
        if !now.budgetLoads { return Raised(BudgetFailure), events, rounds, Before; }
        var id := CallId(op, attempt + 1);
        if now.fence != Stored {
          events := events + [FenceLost(id)];
          return Raised(if now.fence == PriorUnknown then UnknownOutcome else FenceFailure), events, rounds, Ending.Refused;
        }
        events := events + [FenceStored(id)];
        if now.answer != NotSent { events := events + [Sent(id)]; }
        if now.answer == SuccessThenInterrupted { ledger := ledger + [(id, Completed)]; }
        var last := attempt == maxRetries - 1;
        var status := StatusAfter(now.answer, last);
        RecordCall(id, status);
        events := events + [SettleTried(id, status, now.settled)];
        RowsExtend(op, script, attempt);
        ghost var final := Final(now.answer != NotSent, status, now.settled);
        EventsAssemble(Rounds(op, rounds), id, now.answer != NotSent, status, now.settled);
        if !now.settled { return Raised(LedgerFailure), events, rounds, final; }
        if now.answer == Success { return Returned(id), events, rounds, final; }
        if now.answer != Retryable && now.answer != NetworkError {
          return Raised(FailureAfter(now.answer)), events, rounds, final;
        }
        if !last && !now.backoffFits { return Raised(DeadlineFailure), events, rounds, final; }
        lastNetwork := now.answer == NetworkError;
        RoundsExtend(op, rounds, Round(true, status));
        rounds := rounds + [Round(true, status)];
        attempt := attempt + 1;
      }
      return Raised(if lastNetwork then TransportFailure else HttpFailure), events, rounds, Exhausted;
    }
  }

  // ----------------------------------------------------------- what the grammar says

  /** Where the sequential client stands: exactly the program counters of a protocol worker. */
  datatype Stage = Idle | AfterFence(id: CallId) | AfterSend(id: CallId) | Stuck

  function Advance(stage: Stage, e: Event): Stage {
    match (stage, e)
    case (Idle, FenceStored(id)) => AfterFence(id)
    case (Idle, FenceLost(id)) => Idle
    case (AfterFence(id), Sent(other)) => if id == other then AfterSend(id) else Stuck
    case (AfterFence(id), SettleTried(other, _, _)) => if id == other then Idle else Stuck
    case (AfterSend(id), SettleTried(other, _, _)) => if id == other then Idle else Stuck
    case _ => Stuck
  }

  function StageAfter(events: seq<Event>): Stage {
    if events == [] then Idle else Advance(StageAfter(events[..|events| - 1]), events[|events| - 1])
  }

  /** The ids fenced by an event sequence, in order. */
  function FencedIds(events: seq<Event>): seq<CallId> {
    if events == [] then []
    else
      var last := events[|events| - 1];
      var before := FencedIds(events[..|events| - 1]);
      if last.FenceStored? then before + [last.id] else before
  }

  lemma OneMore(events: seq<Event>, e: Event)
    ensures StageAfter(events + [e]) == Advance(StageAfter(events), e)
    ensures FencedIds(events + [e]) == if e.FenceStored? then FencedIds(events) + [e.id] else FencedIds(events)
  {
    assert (events + [e])[..|events|] == events;
  }

  lemma StageAppend(events: seq<Event>, op: Operation, index: nat, r: Round, stored: bool)
    requires StageAfter(events) == Idle
    ensures var more := events + AttemptEvents(CallId(op, index), r.sent, r.status, stored);
            && StageAfter(more) == Idle
            && FencedIds(more) == FencedIds(events) + [CallId(op, index)]
  {
    var id := CallId(op, index);
    var fenced := events + [FenceStored(id)];
    var posted := if r.sent then fenced + [Sent(id)] else fenced;
    SendStage(events, id, r.sent);
    OneMore(posted, SettleTried(id, r.status, stored));
    EventsAssemble(events, id, r.sent, r.status, stored);
  }

  lemma SendStage(events: seq<Event>, id: CallId, sent: bool)
    requires StageAfter(events) == Idle
    ensures var fenced := events + [FenceStored(id)];
            var posted := if sent then fenced + [Sent(id)] else fenced;
            && StageAfter(posted) == (if sent then AfterSend(id) else AfterFence(id))
            && FencedIds(posted) == FencedIds(events) + [id]
  {
    OneMore(events, FenceStored(id));
    if sent { OneMore(events + [FenceStored(id)], Sent(id)); }
  }

  lemma {:induction false} RoundsAreSequential(op: Operation, rounds: seq<Round>)
    ensures StageAfter(Rounds(op, rounds)) == Idle
    ensures FencedIds(Rounds(op, rounds)) == seq(|rounds|, k => CallId(op, k + 1))
  {
    if rounds != [] {
      var n := |rounds| - 1;
      RoundsAreSequential(op, rounds[..n]);
      StageAppend(Rounds(op, rounds[..n]), op, n + 1, rounds[n], true);
    }
  }

  lemma PlaysIsSequential(op: Operation, script: seq<Attempt>, outcome: Outcome, rounds: seq<Round>, ending: Ending)
    requires Plays(op, script, outcome, rounds, ending)
    ensures forall k :: 0 <= k < |rounds| ==> Continues(rounds[k])
    ensures Dispatches(rounds, ending) <= |script| && (ending.Exhausted? <==> |rounds| == |script|)
    ensures outcome.Returned? <==> ending == Final(true, Completed, true)
    ensures outcome.Returned? ==> outcome.id == CallId(op, |rounds| + 1)
    ensures ending.Final? && !ending.stored ==> outcome == Raised(LedgerFailure)
  {
  }

  /**
    Every call the loop makes is accepted by the protocol worker step by step, ends with no fence
    left unsettled, and fences exactly the transport indexes 1..n.
   */
  lemma CallsAreSequential(op: Operation, rounds: seq<Round>, ending: Ending)
    ensures StageAfter(CallEvents(op, rounds, ending)) == Idle
    ensures FencedIds(CallEvents(op, rounds, ending)) == seq(Dispatches(rounds, ending), k => CallId(op, k + 1))
  {
    hide Rounds, AttemptEvents, StageAfter, FencedIds;
    RoundsAreSequential(op, rounds);
    var done := Rounds(op, rounds);
    match ending
    case Final(sent, status, stored) =>
      StageAppend(done, op, |rounds| + 1, Round(sent, status), stored);
    case Refused =>
      var more := done + [FenceLost(CallId(op, |rounds| + 1))];
      OneMore(done, FenceLost(CallId(op, |rounds| + 1)));
      assert CallEvents(op, rounds, ending) == more;
    case _ =>
      assert CallEvents(op, rounds, ending) == done;
  }

  /** A process that dies mid-call leaves a prefix; no prefix is ever out of step. */
  lemma {:induction false} PrefixNeverStuck(events: seq<Event>, n: nat)
    requires StageAfter(events) != Stuck && n <= |events|
    ensures StageAfter(events[..n]) != Stuck
    decreases |events|
  {
    if n == |events| {
      assert events[..n] == events;
    } else {
      var shorter := events[..|events| - 1];
      PrefixNeverStuck(shorter, n);
      assert shorter[..n] == events[..n];
    }
  }

  /** Whatever happened before, a request follows immediately on its own stored fence. */
  lemma SendFollowsItsFence(op: Operation, rounds: seq<Round>, ending: Ending, n: nat)
    requires n < |CallEvents(op, rounds, ending)| && CallEvents(op, rounds, ending)[n].Sent?
    ensures n >= 1
    ensures CallEvents(op, rounds, ending)[n - 1] == FenceStored(CallEvents(op, rounds, ending)[n].id)
  {
    var events := CallEvents(op, rounds, ending);
    CallsAreSequential(op, rounds, ending);
    PrefixNeverStuck(events, n + 1);
    assert events[..n + 1][..n] == events[..n];
    var before := events[..n];
    assert StageAfter(before) == AfterFence(events[n].id);
    assert before != [];
    assert before[|before| - 1] == events[n - 1];
    AfterFenceComesFromFence(before);
  }

  lemma AfterFenceComesFromFence(events: seq<Event>)
    requires events != [] && StageAfter(events).AfterFence?
    ensures events[|events| - 1] == FenceStored(StageAfter(events).id)
  {
  }
}
