/**
  What a sequential client may do next, as one small automaton, and why its histories are exactly the
  beginnings of consecutive retry-loop calls on different operations.
 */
module CallOrder {
  import opened Wrappers
  import opened ReviewItem
  import opened ReviewProtocol
  import opened ProviderClient

  /** Where the client stands in its current attempt, and what its loop remembers. */
  datatype Standing = Standing(stage: Stage, line: Line)

  const AtStart := Standing(Idle, FreshLine)

  function Begun(line: Line, op: Operation): Line {
    Line(line.begun + {op}, None, false)
  }

  function Take(st: Standing, e: Event, maxRetries: nat): Option<Standing> {
    match e
    case FenceStored(id) =>
      if st.stage == Idle && Offers(st.line, id, maxRetries) then Some(Standing(AfterFence(id), Begun(st.line, id.operation)))
      else None
    case FenceLost(id) =>
      if st.stage == Idle && Offers(st.line, id, maxRetries) then Some(Standing(Idle, Begun(st.line, id.operation)))
      else None
    case Sent(id) =>
      if st.stage == AfterFence(id) then Some(Standing(AfterSend(id), st.line.(sent := true))) else None
    case SettleTried(id, status, stored) =>
      if st.stage == AfterFence(id) || st.stage == AfterSend(id)
      then Some(Standing(Idle, if stored then Settled(st.line, id, status) else st.line))
      else None
  }

  function Settled(line: Line, id: CallId, status: CallStatus): Line {
    line.(next := if line.sent && Retried(status) then Some(CallId(id.operation, id.transport + 1)) else None)
  }

  function Accept(events: seq<Event>, maxRetries: nat): Option<Standing> {
    if events == [] then Some(AtStart)
    else
      var before := Accept(events[..|events| - 1], maxRetries);
      if before.None? then None else Take(before.value, events[|events| - 1], maxRetries)
  }

  lemma AcceptMore(events: seq<Event>, e: Event, maxRetries: nat)
    ensures var before := Accept(events, maxRetries);
            Accept(events + [e], maxRetries) == if before.None? then None else Take(before.value, e, maxRetries)
  {
    assert (events + [e])[..|events|] == events;
  }

  lemma {:induction false} PrefixIsAccepted(events: seq<Event>, n: nat, maxRetries: nat)
    requires n <= |events| && Accept(events, maxRetries).Some?
    ensures Accept(events[..n], maxRetries).Some?
    decreases |events|
  {
    if n == |events| {
      assert events[..n] == events;
    } else {
      var shorter := events[..|events| - 1];
      PrefixIsAccepted(shorter, n, maxRetries);
      assert shorter[..n] == events[..n];
    }
  }

  // --------------------------------------------------------------- consecutive calls

  datatype Call = Call(op: Operation, rounds: seq<Round>, ending: Ending)

  /** The shape that the retry loop gives every call. */
  predicate WellFormed(call: Call, maxRetries: nat) {
    && (forall k :: 0 <= k < |call.rounds| ==> Continues(call.rounds[k]))
    && |call.rounds| <= maxRetries
    && (call.ending.Exhausted? <==> |call.rounds| == maxRetries)
  }

  predicate Consecutive(calls: seq<Call>, maxRetries: nat) {
    && (forall k :: 0 <= k < |calls| ==> WellFormed(calls[k], maxRetries))
    && forall j, k :: 0 <= j < k < |calls| ==> calls[j].op != calls[k].op
  }

  function AllEvents(calls: seq<Call>): seq<Event> {
    if calls == [] then []
    else
      var last := calls[|calls| - 1];
      AllEvents(calls[..|calls| - 1]) + CallEvents(last.op, last.rounds, last.ending)
  }

  lemma AllEventsExtend(calls: seq<Call>, call: Call)
    ensures AllEvents(calls + [call]) == AllEvents(calls) + CallEvents(call.op, call.rounds, call.ending)
  {
    assert (calls + [call])[..|calls|] == calls;
  }

  function Ops(calls: seq<Call>): set<Operation> {
    set c | c in calls :: c.op
  }

  // ------------------------------------------------- accepted histories are such calls

  /** The call in progress, after its completed rounds. */
  datatype Open =
    | Nothing
    | Resting(op: Operation, rounds: seq<Round>)
    | InFence(op: Operation, rounds: seq<Round>)
    | InSend(op: Operation, rounds: seq<Round>)

  function OpenEvents(open: Open): seq<Event> {
    match open
    case Nothing => []
    case Resting(op, rounds) => Rounds(op, rounds)
    case InFence(op, rounds) => Rounds(op, rounds) + [FenceStored(CallId(op, |rounds| + 1))]
    case InSend(op, rounds) =>
      Rounds(op, rounds) + [FenceStored(CallId(op, |rounds| + 1))] + [Sent(CallId(op, |rounds| + 1))]
  }

  /** What the automaton knows of the calls so far. */
  predicate Reads(done: seq<Call>, open: Open, st: Standing, maxRetries: nat) {
    && Consecutive(done, maxRetries) && Ops(done) <= st.line.begun
    && (open.Nothing? ==> st.stage == Idle && st.line.next == None)
    && (!open.Nothing? ==>
          && open.op in st.line.begun && open.op !in Ops(done)
          && |open.rounds| <= maxRetries
          && forall k :: 0 <= k < |open.rounds| ==> Continues(open.rounds[k]))
    && (open.Resting? ==> st.stage == Idle && st.line.next == Some(CallId(open.op, |open.rounds| + 1)))
    && (open.InFence? ==>
          && st.stage == AfterFence(CallId(open.op, |open.rounds| + 1)) && |open.rounds| < maxRetries
          && st.line.next == None && !st.line.sent)
    && (open.InSend? ==>
          && st.stage == AfterSend(CallId(open.op, |open.rounds| + 1)) && |open.rounds| < maxRetries
          && st.line.next == None && st.line.sent)
  }

  lemma Append(done: seq<Call>, call: Call, maxRetries: nat)
    requires Consecutive(done, maxRetries) && WellFormed(call, maxRetries) && call.op !in Ops(done)
    ensures Consecutive(done + [call], maxRetries) && Ops(done + [call]) == Ops(done) + {call.op}
    ensures AllEvents(done + [call]) == AllEvents(done) + CallEvents(call.op, call.rounds, call.ending)
  {
    hide AllEvents, CallEvents, WellFormed, Consecutive;
    AllEventsExtend(done, call);
    OpsExtend(done, call);
    assert forall k :: 0 <= k < |done| ==> done[k].op in Ops(done);
    ConsecutiveExtends(done, call, maxRetries);
  }

  lemma OpsExtend(done: seq<Call>, call: Call)
    ensures Ops(done + [call]) == Ops(done) + {call.op}
  {
    var more := done + [call];
    assert forall c :: c in more <==> c in done || c == call;
    assert call in more;
  }

  lemma ConsecutiveExtends(done: seq<Call>, call: Call, maxRetries: nat)
    requires Consecutive(done, maxRetries) && WellFormed(call, maxRetries)
    requires forall k :: 0 <= k < |done| ==> done[k].op != call.op
    ensures Consecutive(done + [call], maxRetries)
  {
    hide WellFormed;
    var more := done + [call];
    assert more[|done|] == call && forall k :: 0 <= k < |done| ==> more[k] == done[k];
  }

  /** A call that rests between two attempts may be all there will be of it. */
  lemma Close(done: seq<Call>, open: Open, st: Standing, maxRetries: nat) returns (closed: seq<Call>)
    requires Reads(done, open, st, maxRetries) && (open.Nothing? || open.Resting?)
    ensures Consecutive(closed, maxRetries) && Ops(closed) <= st.line.begun
    ensures AllEvents(closed) == AllEvents(done) + OpenEvents(open)
  {
    closed := done;
    if open.Resting? {
      var call := Call(open.op, open.rounds, if |open.rounds| == maxRetries then Exhausted else Before);
      Append(done, call, maxRetries);
      closed := done + [call];
    }
  }

  lemma TakeFence(done: seq<Call>, open: Open, st: Standing, id: CallId, maxRetries: nat)
    returns (done2: seq<Call>, open2: Open)
    requires Reads(done, open, st, maxRetries) && st.stage == Idle && Offers(st.line, id, maxRetries)
    ensures Reads(done2, open2, Standing(AfterFence(id), Begun(st.line, id.operation)), maxRetries) && open2.InFence?
    ensures id == CallId(open2.op, |open2.rounds| + 1)
    ensures AllEvents(done2) + Rounds(open2.op, open2.rounds) == AllEvents(done) + OpenEvents(open)
    ensures AllEvents(done2) + OpenEvents(open2) == AllEvents(done) + OpenEvents(open) + [FenceStored(id)]
  {
    hide Consecutive, Ops, AllEvents;
    if st.line.next == Some(id) {
      done2, open2 := done, InFence(open.op, open.rounds);
    } else {
      done2 := Close(done, open, st, maxRetries);
      open2 := InFence(id.operation, []);
      assert Rounds(id.operation, []) == [];
    }
  }

  /** The events of the open attempt, completed by its settlement. */
  lemma OpenSettles(done: seq<Call>, open: Open, e: Event)
    requires (open.InFence? || open.InSend?) && e.SettleTried? && e.id == CallId(open.op, |open.rounds| + 1)
    ensures AllEvents(done) + OpenEvents(open) + [e]
            == AllEvents(done) + (Rounds(open.op, open.rounds) + AttemptEvents(e.id, open.InSend?, e.status, e.stored))
  {
    hide AllEvents, Rounds;
  }

  lemma TakeRetryable(done: seq<Call>, open: Open, st: Standing, e: Event, maxRetries: nat)
    returns (open2: Open)
    requires Reads(done, open, st, maxRetries) && e.SettleTried? && Take(st, e, maxRetries).Some?
    requires e.stored && Continues(Round(open.InSend?, e.status))
    ensures Reads(done, open2, Take(st, e, maxRetries).value, maxRetries)
    ensures AllEvents(done) + OpenEvents(open2) == AllEvents(done) + OpenEvents(open) + [e]
  {
    hide AllEvents, Rounds, AttemptEvents, Consecutive;
    OpenSettles(done, open, e);
    open2 := Resting(open.op, open.rounds + [Round(true, e.status)]);
    RoundsExtend(open.op, open.rounds, Round(true, e.status));
  }

  lemma TakeLast(done: seq<Call>, open: Open, st: Standing, e: Event, maxRetries: nat)
    returns (done2: seq<Call>)
    requires Reads(done, open, st, maxRetries) && e.SettleTried? && Take(st, e, maxRetries).Some?
    requires !e.stored || !Continues(Round(open.InSend?, e.status))
    ensures Reads(done2, Nothing, Take(st, e, maxRetries).value, maxRetries)
    ensures AllEvents(done2) == AllEvents(done) + OpenEvents(open) + [e]
  {
    hide AllEvents, Rounds, AttemptEvents, Consecutive;
    OpenSettles(done, open, e);
    var call := Call(open.op, open.rounds, Final(open.InSend?, e.status, e.stored));
    Append(done, call, maxRetries);
    done2 := done + [call];
  }

  lemma TakeOne(done: seq<Call>, open: Open, st: Standing, e: Event, maxRetries: nat)
    returns (done2: seq<Call>, open2: Open)
    requires Reads(done, open, st, maxRetries) && Take(st, e, maxRetries).Some?
    ensures Reads(done2, open2, Take(st, e, maxRetries).value, maxRetries)
    ensures AllEvents(done2) + OpenEvents(open2) == AllEvents(done) + OpenEvents(open) + [e]
  {
    hide AllEvents, Rounds, Consecutive, AttemptEvents;
    match e
    case FenceStored(id) =>
      done2, open2 := TakeFence(done, open, st, id, maxRetries);
    case FenceLost(id) =>
      var before, opened_ := TakeFence(done, open, st, id, maxRetries);
      var call := Call(opened_.op, opened_.rounds, Ending.Refused);
      Append(before, call, maxRetries);
      done2, open2 := before + [call], Nothing;
    case Sent(id) =>
      done2, open2 := done, InSend(open.op, open.rounds);
    case SettleTried(_, status, stored) =>
      if stored && Continues(Round(open.InSend?, status)) {
        done2 := done;
        open2 := TakeRetryable(done, open, st, e, maxRetries);
      } else {
        done2 := TakeLast(done, open, st, e, maxRetries);
        open2 := Nothing;
      }
  }

  lemma StartIsRead(maxRetries: nat) returns (done: seq<Call>, open: Open)
    ensures Reads(done, open, AtStart, maxRetries) && AllEvents(done) + OpenEvents(open) == []
  {
    done, open := [], Nothing;
  }

  lemma {:induction false} AcceptedIsRead(events: seq<Event>, maxRetries: nat) returns (done: seq<Call>, open: Open)
    requires Accept(events, maxRetries).Some?
    ensures Reads(done, open, Accept(events, maxRetries).value, maxRetries)
    ensures events == AllEvents(done) + OpenEvents(open)
  {
    hide Take, Reads, AllEvents, OpenEvents;
    if events == [] {
      done, open := StartIsRead(maxRetries);
    } else {
      var before, e := events[..|events| - 1], events[|events| - 1];
      done, open := AcceptedIsRead(before, maxRetries);
      done, open := TakeOne(done, open, Accept(before, maxRetries).value, e, maxRetries);
      assert events == before + [e];
    }
  }

  /** Every accepted history is the beginning of consecutive well-formed calls on different operations. */
  lemma AcceptedAreCalls(events: seq<Event>, maxRetries: nat) returns (calls: seq<Call>)
    requires Accept(events, maxRetries).Some?
    ensures Consecutive(calls, maxRetries) && events <= AllEvents(calls)
  {
    hide Accept, AllEvents, OpenEvents, Reads, Consecutive;
    var done, open := AcceptedIsRead(events, maxRetries);
    if open.Nothing? || open.Resting? {
      calls := Close(done, open, Accept(events, maxRetries).value, maxRetries);
    } else {
      calls := Finish(done, open, Accept(events, maxRetries).value, maxRetries);
    }
  }

  /** An interrupted attempt begins a whole one. */
  lemma Finish(done: seq<Call>, open: Open, st: Standing, maxRetries: nat) returns (calls: seq<Call>)
    requires Reads(done, open, st, maxRetries) && (open.InFence? || open.InSend?)
    ensures Consecutive(calls, maxRetries) && AllEvents(done) + OpenEvents(open) <= AllEvents(calls)
  {
    hide AllEvents, Rounds, AttemptEvents, Consecutive;
    var id := CallId(open.op, |open.rounds| + 1);
    OpenSettles(done, open, SettleTried(id, TransportError, true));
    var call := Call(open.op, open.rounds, Final(open.InSend?, TransportError, true));
    Append(done, call, maxRetries);
    calls := done + [call];
  }

  // ------------------------------------------------------ such calls are accepted histories

  lemma AcceptAttempt(events: seq<Event>, id: CallId, r: Round, stored: bool, maxRetries: nat)
    requires Accept(events, maxRetries).Some?
    requires var st := Accept(events, maxRetries).value; st.stage == Idle && Offers(st.line, id, maxRetries)
    ensures var line := Begun(Accept(events, maxRetries).value.line, id.operation).(sent := r.sent);
            Accept(events + AttemptEvents(id, r.sent, r.status, stored), maxRetries)
            == Some(Standing(Idle, if stored then Settled(line, id, r.status) else line))
  {
    var fenced := events + [FenceStored(id)];
    AcceptMore(events, FenceStored(id), maxRetries);
    var posted := if r.sent then fenced + [Sent(id)] else fenced;
    AcceptMore(fenced, Sent(id), maxRetries);
    AcceptMore(posted, SettleTried(id, r.status, stored), maxRetries);
    EventsAssemble(events, id, r.sent, r.status, stored);
  }

  /** The client is between calls, or between two attempts, and has begun exactly these operations. */
  predicate Between(events: seq<Event>, begun: set<Operation>, next: Option<CallId>, maxRetries: nat) {
    var st := Accept(events, maxRetries);
    st.Some? && st.value.stage == Idle && st.value.line.begun == begun && (next.Some? ==> st.value.line.next == next)
  }

  lemma {:induction false} AcceptRounds(events: seq<Event>, begun: set<Operation>, op: Operation, rounds: seq<Round>, maxRetries: nat)
    requires Between(events, begun, None, maxRetries) && op !in begun && 0 < |rounds| <= maxRetries
    requires forall k :: 0 <= k < |rounds| ==> Continues(rounds[k])
    ensures Between(events + Rounds(op, rounds), begun + {op}, Some(CallId(op, |rounds| + 1)), maxRetries)
  {
    var n := |rounds| - 1;
    var front := rounds[..n];
    var before := events + Rounds(op, front);
    if n == 0 {
      assert before == events;
    } else {
      AcceptRounds(events, begun, op, front, maxRetries);
    }
    AcceptAttempt(before, CallId(op, n + 1), rounds[n], true, maxRetries);
    assert events + Rounds(op, rounds) == before + AttemptEvents(CallId(op, n + 1), rounds[n].sent, rounds[n].status, true);
    assert (begun + {op}) + {op} == begun + {op};
  }

  lemma AcceptCall(events: seq<Event>, begun: set<Operation>, call: Call, maxRetries: nat)
    requires Between(events, begun, None, maxRetries) && call.op !in begun && WellFormed(call, maxRetries)
    ensures exists more :: more <= begun + {call.op}
                           && Between(events + CallEvents(call.op, call.rounds, call.ending), more, None, maxRetries)
  {
    var op, n := call.op, |call.rounds|;
    var done := events + Rounds(op, call.rounds);
    var id := CallId(op, n + 1);
    if n == 0 {
      assert done == events;
    } else {
      AcceptRounds(events, begun, op, call.rounds, maxRetries);
    }
    var ends := EndingEvents(op, n + 1, call.ending);
    assert events + CallEvents(op, call.rounds, call.ending) == done + ends;
    match call.ending
    case Final(sent, status, stored) =>
      AcceptAttempt(done, id, Round(sent, status), stored, maxRetries);
      assert Between(done + ends, begun + {op}, None, maxRetries);
    case Refused =>
      AcceptMore(done, FenceLost(id), maxRetries);
      assert Between(done + ends, begun + {op}, None, maxRetries);
    case _ =>
      assert done + ends == done;
      assert Between(done, if n == 0 then begun else begun + {op}, None, maxRetries);
  }

  lemma {:induction false} AcceptCalls(calls: seq<Call>, maxRetries: nat)
    requires Consecutive(calls, maxRetries)
    ensures exists begun :: begun <= Ops(calls) && Between(AllEvents(calls), begun, None, maxRetries)
  {
    if calls == [] {
      assert Between(AllEvents(calls), {}, None, maxRetries);
    } else {
      var front, last := calls[..|calls| - 1], calls[|calls| - 1];
      AcceptCalls(front, maxRetries);
      var begun :| begun <= Ops(front) && Between(AllEvents(front), begun, None, maxRetries);
      assert last.op !in Ops(front);
      assert Ops(front) <= Ops(calls) && last.op in Ops(calls);
      AcceptCall(AllEvents(front), begun, last, maxRetries);
    }
  }

  /**
    A history is one the client can produce exactly when it begins a sequence of retry-loop calls on
    different operations.
   */
  lemma AcceptedExactly(events: seq<Event>, maxRetries: nat)
    ensures Accept(events, maxRetries).Some? <==> exists calls :: Consecutive(calls, maxRetries) && events <= AllEvents(calls)
  {
    if Accept(events, maxRetries).Some? {
      var calls := AcceptedAreCalls(events, maxRetries);
    }
    if exists calls :: Consecutive(calls, maxRetries) && events <= AllEvents(calls) {
      var calls :| Consecutive(calls, maxRetries) && events <= AllEvents(calls);
      AcceptCalls(calls, maxRetries);
      PrefixIsAccepted(AllEvents(calls), |events|, maxRetries);
      assert AllEvents(calls)[..|events|] == events;
    }
  }

  /** Whatever the answers, what the retry loop does on different operations is such a history: nothing stops it. */
  lemma PlayedCallsAreAccepted(calls: seq<Call>, scripts: seq<seq<Attempt>>, outcomes: seq<Outcome>, maxRetries: nat)
    requires |calls| == |scripts| == |outcomes|
    requires forall k :: 0 <= k < |calls| ==>
               && |scripts[k]| == maxRetries
               && Plays(calls[k].op, scripts[k], outcomes[k], calls[k].rounds, calls[k].ending)
    requires forall j, k :: 0 <= j < k < |calls| ==> calls[j].op != calls[k].op
    ensures Accept(AllEvents(calls), maxRetries).Some?
  {
    hide Plays, Accept;
    forall k | 0 <= k < |calls|
      ensures WellFormed(calls[k], maxRetries)
    {
      PlaysIsSequential(calls[k].op, scripts[k], outcomes[k], calls[k].rounds, calls[k].ending);
    }
    AcceptedExactly(AllEvents(calls), maxRetries);
  }
}
