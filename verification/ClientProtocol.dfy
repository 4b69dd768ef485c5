/** The retry loop is the protocol worker: over a run, the steps of one worker are the events of its calls. */
module ClientProtocol {
  import opened Wrappers
  import opened ReviewItem
  import opened ReviewProtocol
  import opened ReviewInvariant
  import opened ReviewTheorems
  import opened CallOrder
  import Client = ProviderClient

  /** The client event that a worker's own step from pc was to pc now amounts to, if any. */
  function EventOf(a: Action, was: Pc, now: Pc): Option<Client.Event> {
    match (a, was)
    case (ReadFence(_, record, _, _, _, _, _), _) => if now.Fencing? then None else Some(Client.FenceLost(record.id))
    case (WriteFence(_), Fencing(r)) => Some(if now.Fenced? then Client.FenceStored(r.id) else Client.FenceLost(r.id))
    case (Post(_), Fenced(r)) => Some(Client.Sent(r.id))
    case (ReadSettlement(_, reported), _) =>
      if now.Settling? then None else Some(Client.SettleTried(reported.id, reported.status, now.Ready?))
    case (WriteSettlement(_), Settling(_, f, _)) => Some(Client.SettleTried(f.id, f.status, now.Ready?))
    case _ => None
  }

  /** Where the client stands when its worker stands at pc with this memory. */
  predicate Matches(pc: Pc, line: Line, st: Standing, maxRetries: nat) {
    match pc
    case Fencing(r) => st.stage == Client.Idle && Offers(st.line, r.id, maxRetries) && line == Begun(st.line, r.id.operation)
    case Fenced(r) => st == Standing(Client.AfterFence(r.id), line) && !line.sent
    case Answered(r) => st == Standing(Client.AfterSend(r.id), line) && line.sent
    case Settling(e, _, _) =>
      st == Standing(if line.sent then Client.AfterSend(e.id) else Client.AfterFence(e.id), line)
    case Crashed => true
    case _ => st == Standing(Client.Idle, line)
  }

  predicate Follows(e: Option<Client.Event>, now: Pc, line: Line, st: Standing, maxRetries: nat) {
    if e.None? then Matches(now, line, st, maxRetries)
    else
      var next := Take(st, e.value, maxRetries);
      next.Some? && Matches(now, line, next.value, maxRetries)
  }

  /** The action is a step of worker i. */
  predicate StepOf(a: Action, i: nat) {
    !a.Insert? && !a.ClaimPhase? && !a.Redeliver? && a.worker == i
  }

  /** The facts of the invariant that concern one worker and its item. */
  ghost predicate LocallyOk(s: Sys, i: nat) {
    && i in s.workers && s.workers[i].key in s.items
    && ItemOk(s.workers[i].key, s.items[s.workers[i].key], s.maxAttempts)
    && WorkerOk(s.items[s.workers[i].key], s.workers[i], s.maxAttempts)
  }

  ghost predicate WorkerFollows(s: Sys, a: Action, t: Sys, i: nat, st: Standing)
    requires i in s.workers
  {
    i in t.workers
    && Follows(EventOf(a, s.workers[i].pc, t.workers[i].pc), t.workers[i].pc, LineOf(t, i), st, s.maxRetries)
  }

  lemma WorkerFollowsClient(s: Sys, a: Action, t: Sys, i: nat, st: Standing)
    requires StepOf(a, i) && LocallyOk(s, i) && Step(s, a) == Some(t)
    requires Matches(s.workers[i].pc, LineOf(s, i), st, s.maxRetries)
    ensures WorkerFollows(s, a, t, i, st)
  {
    hide StepInsert, StepClaim, StepAdmit, StepReadFence, StepWriteFence, StepPost, StepReadSettlement,
         StepWriteSettlement, StepReadSuccessor, StepWriteSuccessor, StepLifecycle, StepRedeliver, WorkerFollows,
         WorkerOk, ItemOk, Matches;
    if a.ReadFence? {
      FenceReadFollows(s, a, t, st);
    } else if a.WriteFence? {
      FenceWriteFollows(s, a, t, st);
    } else if a.Post? {
      PostFollows(s, a, t, st);
    } else if a.ReadSettlement? {
      SettlementReadFollows(s, a, t, st);
    } else if a.WriteSettlement? {
      SettlementWriteFollows(s, a, t, st);
    } else if Lifecycle(a) {
      LifecycleFollows(s, a, t, st);
    } else if a.Crash? {
      CrashFollows(s, a, t, st);
    } else {
      OtherStepFollows(s, a, t, st);
    }
  }

  lemma LifecycleFollows(s: Sys, a: Action, t: Sys, st: Standing)
    requires Lifecycle(a) && a.worker in s.workers && s.workers[a.worker].key in s.items
    requires StepLifecycle(s, a.worker, s.workers[a.worker], a) == Some(t)
    requires Matches(s.workers[a.worker].pc, LineOf(s, a.worker), st, s.maxRetries)
    ensures WorkerFollows(s, a, t, a.worker, st)
  {
    hide LifecycleWrite;
  }

  lemma CrashFollows(s: Sys, a: Action, t: Sys, st: Standing)
    requires a.Crash? && a.worker in s.workers && t == Move(s, a.worker, Crashed)
    ensures WorkerFollows(s, a, t, a.worker, st)
  {
  }

  lemma OtherStepFollows(s: Sys, a: Action, t: Sys, st: Standing)
    requires a.Admit? || a.ReadSuccessor? || a.WriteSuccessor?
    requires a.worker in s.workers && Step(s, a) == Some(t)
    requires Matches(s.workers[a.worker].pc, LineOf(s, a.worker), st, s.maxRetries)
    ensures WorkerFollows(s, a, t, a.worker, st)
  {
    hide ClaimHolds, RequeueEligible, RequeuePlan, Lists, RequeueAccepted, Requeued;
  }

  lemma FenceReadFollows(s: Sys, a: Action, t: Sys, st: Standing)
    requires a.ReadFence? && a.worker in s.workers && s.workers[a.worker].key in s.items
    requires StepReadFence(s, s.workers[a.worker], a) == Some(t)
    requires Matches(s.workers[a.worker].pc, LineOf(s, a.worker), st, s.maxRetries)
    ensures WorkerFollows(s, a, t, a.worker, st)
  {
    hide ValidFence, BeginRead, Offers;
  }

  lemma PostFollows(s: Sys, a: Action, t: Sys, st: Standing)
    requires a.Post? && a.worker in s.workers && s.workers[a.worker].key in s.items
    requires StepPost(s, a.worker, s.workers[a.worker]) == Some(t)
    requires Matches(s.workers[a.worker].pc, LineOf(s, a.worker), st, s.maxRetries)
    ensures WorkerFollows(s, a, t, a.worker, st)
  {
  }

  lemma SettlementReadFollows(s: Sys, a: Action, t: Sys, st: Standing)
    requires a.ReadSettlement? && LocallyOk(s, a.worker)
    requires StepReadSettlement(s, s.workers[a.worker], a) == Some(t)
    requires Matches(s.workers[a.worker].pc, LineOf(s, a.worker), st, s.maxRetries)
    ensures WorkerFollows(s, a, t, a.worker, st)
  {
    hide ItemOk, WorkerOk, AfterSettlementRead;
    var w := s.workers[a.worker];
    OpenFenceRead(s.items[w.key], w, a.reported, s.maxAttempts);
  }

  /** Reading behind an own open fence never finds the call settled already. */
  lemma OpenFenceRead(item: Item, w: Worker, reported: Record, maxAttempts: int)
    requires ItemOk(w.key, item, maxAttempts) && WorkerOk(item, w, maxAttempts)
    requires (w.pc.Fenced? || w.pc.Answered?) && reported.id == w.pc.record.id
    ensures var pc := AfterSettlementRead(item, reported);
            pc == Closing || (pc.Settling? && pc.expected == w.pc.record)
  {
    SettlementReadOk(w.key, item, w, reported, maxAttempts);
    assert RecordOk(item, reported.id, maxAttempts);
  }

  lemma SettlementWriteFollows(s: Sys, a: Action, t: Sys, st: Standing)
    requires a.WriteSettlement? && LocallyOk(s, a.worker)
    requires StepWriteSettlement(s, a.worker, s.workers[a.worker]) == Some(t)
    requires Matches(s.workers[a.worker].pc, LineOf(s, a.worker), st, s.maxRetries)
    ensures WorkerFollows(s, a, t, a.worker, st)
  {
    hide ItemOk, WorkerOk, SettleWrite, Release, Settles;
    var w := s.workers[a.worker];
    SettlingPair(s.items[w.key], w, s.maxAttempts);
  }

  lemma SettlingPair(item: Item, w: Worker, maxAttempts: int)
    requires w.pc.Settling? && WorkerOk(item, w, maxAttempts)
    ensures w.pc.final.id == w.pc.expected.id
  {
  }

  lemma FenceWriteFollows(s: Sys, a: Action, t: Sys, st: Standing)
    requires a.WriteFence? && a.worker in s.workers && s.workers[a.worker].key in s.items
    requires StepWriteFence(s, a.worker, s.workers[a.worker]) == Some(t)
    requires Matches(s.workers[a.worker].pc, LineOf(s, a.worker), st, s.maxRetries)
    ensures WorkerFollows(s, a, t, a.worker, st)
  {
    hide FenceAccepted, Charge, Offers;
  }

  // ------------------------------------------------------------------------- runs

  function StepEvent(s: Sys, a: Action, t: Sys, i: nat): Option<Client.Event> {
    if StepOf(a, i) && i in s.workers && i in t.workers then EventOf(a, s.workers[i].pc, t.workers[i].pc) else None
  }

  /** The events of worker i up to the n-th state of a run. */
  ghost function WorkerEvents(trace: seq<Sys>, actions: seq<Action>, i: nat, n: nat): seq<Client.Event>
    requires |trace| == |actions| + 1 && n < |trace|
  {
    if n == 0 then []
    else
      var e := StepEvent(trace[n - 1], actions[n - 1], trace[n], i);
      WorkerEvents(trace, actions, i, n - 1) + (if e.Some? then [e.value] else [])
  }

  predicate Linked(s: Sys, i: nat, st: Standing) {
    if i in s.workers then Matches(s.workers[i].pc, LineOf(s, i), st, s.maxRetries) else st == AtStart
  }

  /** A step touches the memory of its own worker only; a claim starts a new one. */
  lemma LinesMove(s: Sys, a: Action, t: Sys, i: nat)
    requires Step(s, a) == Some(t)
    ensures t.maxRetries == s.maxRetries
    ensures !StepOf(a, i) && !(a.ClaimPhase? && a.worker == i) ==> LineOf(t, i) == LineOf(s, i)
    ensures a.ClaimPhase? && a.worker == i ==> LineOf(t, i) == FreshLine
  {
    hide SettleRead, RequeueEligible, FenceAccepted, SettleWrite, LifecycleWrite, AfterFenceRead, RequeueAccepted,
         Charge, Release, ClaimHolds, RequeuePlan, Lists, ClaimWrite, Offers, AfterSettled;
  }

  lemma StepIsLinked(s: Sys, a: Action, t: Sys, i: nat, st: Standing)
    requires Inv(s) && Step(s, a) == Some(t) && Linked(s, i, st)
    ensures var e := StepEvent(s, a, t, i);
            if e.None? then Linked(t, i, st)
            else Take(st, e.value, s.maxRetries).Some? && Linked(t, i, Take(st, e.value, s.maxRetries).value)
  {
    hide Step, Take, Matches, EventOf, ItemOk, WorkerOk, Distinct;
    LinesMove(s, a, t, i);
    StepMovesWorkers(s, a, t);
    if StepOf(a, i) {
      assert LocallyOk(s, i);
      WorkerFollowsClient(s, a, t, i, st);
    } else if a.ClaimPhase? && a.worker == i {
      assert Matches(t.workers[i].pc, FreshLine, AtStart, t.maxRetries) by { ClaimedIsAtStart(t.workers[i].pc, t.maxRetries); }
    }
  }

  lemma ClaimedIsAtStart(pc: Pc, maxRetries: nat)
    requires pc.Claimed?
    ensures Matches(pc, FreshLine, AtStart, maxRetries)
  {
  }

  lemma {:induction false} RunIsLinked(trace: seq<Sys>, actions: seq<Action>, i: nat, n: nat)
    requires IsRun(trace, actions) && n < |trace|
    ensures var st := Accept(WorkerEvents(trace, actions, i, n), trace[n].maxRetries);
            st.Some? && Linked(trace[n], i, st.value)
  {
    hide Step, Inv, Linked, StepEvent, Take;
    if n == 0 {
      StartIsLinked(trace[0], i);
    } else {
      RunIsLinked(trace, actions, i, n - 1);
      RunIsSafe(trace, actions, n - 1);
      var s, a, t := trace[n - 1], actions[n - 1], trace[n];
      assert Step(s, a) == Some(t);
      var before := WorkerEvents(trace, actions, i, n - 1);
      LinesMove(s, a, t, i);
      StepIsLinked(s, a, t, i, Accept(before, s.maxRetries).value);
      var e := StepEvent(s, a, t, i);
      if e.Some? {
        AcceptMore(before, e.value, s.maxRetries);
      } else {
        assert WorkerEvents(trace, actions, i, n) == before;
      }
    }
  }

  lemma StartIsLinked(s: Sys, i: nat)
    requires Init(s)
    ensures Linked(s, i, AtStart)
  {
  }

  /**
    In every run, whatever the other workers do: what one worker fenced, sent and settled so far is the
    beginning of a sequence of retry-loop calls, one operation each and none begun twice.
   */
  lemma WorkersMakeCalls(trace: seq<Sys>, actions: seq<Action>, i: nat, n: nat) returns (calls: seq<Call>)
    requires IsRun(trace, actions) && n < |trace|
    ensures Consecutive(calls, trace[n].maxRetries)
    ensures WorkerEvents(trace, actions, i, n) <= AllEvents(calls)
  {
    RunIsLinked(trace, actions, i, n);
    calls := AcceptedAreCalls(WorkerEvents(trace, actions, i, n), trace[n].maxRetries);
  }
}
