/**
  Why a requeue leaves no stale admission: only its own claimant could have written one in the meantime.

  The admission write checks the owner and the event of the lease, not the attempt, so this is the one
  place that needs two claims of a phase never to share both; the last lemma shows what happens if they do.
 */
module RequeueAdmission {
  import opened Wrappers
  import opened ReviewItem
  import opened ReviewProtocol
  import opened ReviewInvariant
  import opened ReviewTheorems

  /** No two claims of one phase of one item were made for the same event under the same owner id. */
  ghost predicate FreshOwners(trace: seq<Sys>, actions: seq<Action>)
    requires |trace| == |actions| + 1
  {
    forall n :: 0 <= n < |actions| && actions[n].ClaimPhase? ==> ClaimantIsNew(trace[n], actions[n])
  }

  ghost predicate ClaimantIsNew(s: Sys, a: Action)
    requires a.ClaimPhase?
  {
    forall i :: i in s.workers ==> !SameClaimant(s.workers[i], a.key, Claim(a.phase, a.owner, a.event, 0))
  }

  predicate SameClaimant(w: Worker, key: Key, claim: Claim) {
    w.key == key && w.claim.phase == claim.phase && w.claim.event == claim.event && w.claim.owner == claim.owner
  }

  ghost predicate OwnersDiffer(s: Sys) {
    forall i, j :: i in s.workers && j in s.workers && i != j ==>
                      !SameClaimant(s.workers[i], s.workers[j].key, s.workers[j].claim)
  }

  lemma StepKeepsOwners(s: Sys, a: Action, t: Sys)
    requires OwnersDiffer(s) && Step(s, a) == Some(t) && (a.ClaimPhase? ==> ClaimantIsNew(s, a))
    ensures OwnersDiffer(t)
  {
    hide Step;
    StepMovesWorkers(s, a, t);
  }

  /** A pending requeue that would still win its write drops the admission, if there is one. */
  ghost predicate Planned(item: Item, w: Worker) {
    w.pc.Requeuing? && RequeueAccepted(item, w.claim, w.pc.plan) && item.admission.Some? ==> w.pc.plan.dropsAdmission
  }

  ghost predicate AllPlanned(s: Sys) {
    forall i :: i in s.workers && s.workers[i].key in s.items ==> Planned(s.items[s.workers[i].key], s.workers[i])
  }

  // ----------------------------------------------------------------- single writes

  lemma ClaimKeepsPlan(item: Item, o: Worker, a: Action, maxAttempts: int)
    requires Planned(item, o) && WorkerOk(item, o, maxAttempts) && a.ClaimPhase?
    requires ClaimWrite(item, a.phase, a.owner, a.event, a.head, a.run, a.now, a.leaseSeconds).Some?
    ensures Planned(ClaimWrite(item, a.phase, a.owner, a.event, a.head, a.run, a.now, a.leaseSeconds).value, o)
  {
  }

  /** Another claimant's lifecycle write either ends the plan or leaves the admission alone. */
  lemma LifecycleKeepsPlan(item: Item, w: Worker, o: Worker, a: Action, maxAttempts: int)
    requires Planned(item, o) && WorkerOk(item, o, maxAttempts) && !SameClaimant(w, w.key, o.claim)
    requires Lifecycle(a) && LifecycleWrite(item, w.claim, a).Some? && (a.Advance? ==> Allowed(w.claim.phase, a.next))
    ensures Planned(LifecycleWrite(item, w.claim, a).value, o)
  {
    hide SuccessorCore;
  }

  lemma FenceKeepsPlan(item: Item, r: Record, o: Worker)
    requires Planned(item, o)
    ensures Planned(WithFence(item, r), o)
  {
  }

  lemma SettlementKeepsPlan(item: Item, e: Record, f: Record, o: Worker)
    requires Planned(item, o) && SettleWrite(item, e, f).Some?
    ensures Planned(SettleWrite(item, e, f).value, o)
  {
  }

  lemma RequeueEndsPlans(item: Item, plan: Requeue, o: Worker)
    ensures Planned(Requeued(item, plan), o)
  {
  }

  // ------------------------------------------------------------------------- steps

  lemma StepKeepsPlans(s: Sys, a: Action, t: Sys)
    requires Inv(s) && OwnersDiffer(s) && AllPlanned(s) && Step(s, a) == Some(t)
    ensures AllPlanned(t)
  {
    hide StepInsert, StepClaim, StepAdmit, StepReadFence, StepWriteFence, StepPost, StepReadSettlement,
         StepWriteSettlement, StepReadSuccessor, StepWriteSuccessor, StepLifecycle, AllPlanned, WorkerOk, ItemOk, Distinct;
    if a.Insert? { InsertKeepsPlans(s, a, t); }
    else if a.ClaimPhase? { ClaimKeepsPlans(s, a, t); }
    else if a.WriteFence? { FenceKeepsPlans(s, a.worker, t); }
    else if a.WriteSettlement? { SettlementKeepsPlans(s, a.worker, t); }
    else if a.ReadSuccessor? { ReadKeepsPlans(s, a, t); }
    else if a.WriteSuccessor? { SuccessorKeepsPlans(s, a.worker, t); }
    else if Lifecycle(a) { LifecycleKeepsPlans(s, a, t); }
    else if !a.Redeliver? { MoveKeepsPlans(s, a, t); }
  }

  lemma InsertKeepsPlans(s: Sys, a: Action, t: Sys)
    requires Inv(s) && AllPlanned(s) && a.Insert? && StepInsert(s, a) == Some(t)
    ensures AllPlanned(t)
  {
    hide Planned, WorkerOk, ItemOk;
    assert forall i :: i in t.workers ==> s.workers[i].key in s.items && t.items[s.workers[i].key] == s.items[s.workers[i].key];
  }

  lemma ClaimKeepsPlans(s: Sys, a: Action, t: Sys)
    requires Inv(s) && AllPlanned(s) && a.ClaimPhase? && StepClaim(s, a) == Some(t)
    ensures AllPlanned(t)
  {
    hide ClaimWrite, WorkerOk, ItemOk, RequeueAccepted;
    forall j | j in s.workers && s.workers[j].key == a.key {
      ClaimKeepsPlan(s.items[a.key], s.workers[j], a, s.maxAttempts);
    }
  }

  lemma FenceKeepsPlans(s: Sys, i: nat, t: Sys)
    requires Inv(s) && AllPlanned(s) && i in s.workers && StepWriteFence(s, i, s.workers[i]) == Some(t)
    ensures AllPlanned(t)
  {
    hide WithFence, WorkerOk, ItemOk, RequeueAccepted, FenceAccepted, Charge;
    var w := s.workers[i];
    forall j | j in s.workers && s.workers[j].key == w.key { FenceKeepsPlan(s.items[w.key], w.pc.record, s.workers[j]); }
  }

  lemma SettlementKeepsPlans(s: Sys, i: nat, t: Sys)
    requires Inv(s) && AllPlanned(s) && i in s.workers && StepWriteSettlement(s, i, s.workers[i]) == Some(t)
    ensures AllPlanned(t)
  {
    hide SettleWrite, WorkerOk, ItemOk, RequeueAccepted, Release, AfterSettled;
    var w := s.workers[i];
    if SettleWrite(s.items[w.key], w.pc.expected, w.pc.final).Some? {
      forall j | j in s.workers && s.workers[j].key == w.key {
        SettlementKeepsPlan(s.items[w.key], w.pc.expected, w.pc.final, s.workers[j]);
      }
    }
  }

  lemma ReadKeepsPlans(s: Sys, a: Action, t: Sys)
    requires Inv(s) && AllPlanned(s) && a.ReadSuccessor? && a.worker in s.workers
    requires StepReadSuccessor(s, s.workers[a.worker], a) == Some(t)
    ensures AllPlanned(t)
  {
    hide WorkerOk, ItemOk, RequeueEligible, RequeueAccepted;
  }

  lemma SuccessorKeepsPlans(s: Sys, i: nat, t: Sys)
    requires Inv(s) && AllPlanned(s) && i in s.workers && StepWriteSuccessor(s, i, s.workers[i]) == Some(t)
    ensures AllPlanned(t)
  {
    hide WorkerOk, ItemOk, RequeueAccepted, Requeued;
    var w := s.workers[i];
    forall j | j in s.workers { RequeueEndsPlans(s.items[w.key], w.pc.plan, s.workers[j]); }
  }

  lemma LifecycleKeepsPlans(s: Sys, a: Action, t: Sys)
    requires Inv(s) && OwnersDiffer(s) && AllPlanned(s) && Lifecycle(a) && a.worker in s.workers
    requires StepLifecycle(s, a.worker, s.workers[a.worker], a) == Some(t)
    ensures AllPlanned(t)
  {
    hide LifecycleWrite, WorkerOk, ItemOk, RequeueAccepted;
    var w := s.workers[a.worker];
    if LifecycleWrite(s.items[w.key], w.claim, a).Some? {
      forall j | j in s.workers && s.workers[j].key == w.key && j != a.worker {
        LifecycleKeepsPlan(s.items[w.key], w, s.workers[j], a, s.maxAttempts);
      }
    }
  }

  lemma MoveKeepsPlans(s: Sys, a: Action, t: Sys)
    requires AllPlanned(s) && Step(s, a) == Some(t)
    requires a.Admit? || a.ReadFence? || a.Post? || a.ReadSettlement? || a.Crash?
    ensures AllPlanned(t)
  {
    hide RequeueAccepted, SettleRead, ClaimHolds, BeginRead, ValidFence;
    var i := a.worker;
    assert t.items == s.items;
    assert t.workers == s.workers[i := s.workers[i].(pc := t.workers[i].pc)] && !t.workers[i].pc.Requeuing?;
  }

  lemma {:induction false} RunIsPlanned(trace: seq<Sys>, actions: seq<Action>, n: nat)
    requires IsRun(trace, actions) && FreshOwners(trace, actions) && n < |trace|
    ensures OwnersDiffer(trace[n]) && AllPlanned(trace[n])
  {
    hide Step, AllPlanned, OwnersDiffer, Inv;
    if n == 0 {
      StartIsPlanned(trace[0]);
    } else {
      RunIsPlanned(trace, actions, n - 1);
      RunIsSafe(trace, actions, n - 1);
      assert Step(trace[n - 1], actions[n - 1]) == Some(trace[n]);
      StepKeepsOwners(trace[n - 1], actions[n - 1], trace[n]);
      StepKeepsPlans(trace[n - 1], actions[n - 1], trace[n]);
    }
  }

  lemma StartIsPlanned(s: Sys)
    requires Init(s)
    ensures OwnersDiffer(s) && AllPlanned(s)
  {
  }

  /** The step that replaces the head leaves no admission behind. */
  lemma RequeueDropsAdmission(s: Sys, i: nat)
    requires AllPlanned(s) && i in s.workers && s.workers[i].key in s.items && s.workers[i].pc.Requeuing?
    requires RequeueAccepted(s.items[s.workers[i].key], s.workers[i].claim, s.workers[i].pc.plan)
    ensures Requeued(s.items[s.workers[i].key], s.workers[i].pc.plan).admission.None?
  {
    assert Planned(s.items[s.workers[i].key], s.workers[i]);
  }

  // ------------------------------------------------------------ one claimant, two claims

  /** Two claims of one item for the same event under the same owner id, as a redelivery to one invocation id makes them. */
  function Seven(key: Key, head: string, run: RunId, owner: string, event: string, newHead: string, stage: string): seq<Action> {
    [Insert(key, head, run),
     ClaimPhase(0, key, Context, owner, event, head, run, 0, 0),
     ClaimPhase(1, key, Context, owner, event, head, run, 0, 0),
     Admit(1),
     ReadSuccessor(1, head, newHead, stage, []),
     RecordAdmission(0, head, run),
     WriteSuccessor(1)]
  }

  /** The first five steps: the second claim reads for its requeue while there is no admission. */
  lemma ReadWithoutAdmission(s: Sys, key: Key, head: string, run: RunId, owner: string, event: string,
                             newHead: string, stage: string) returns (trace: seq<Sys>)
    requires Init(s) && s.maxAttempts >= 3 && key.repo != "" && key.pr >= 1 && head != "" && run.Delivered? && run != NO_RUN
    requires owner != "" && event != "" && newHead != "" && newHead != head
    ensures |trace| == 6 && trace[0] == s
    ensures forall n :: 0 <= n < 5 ==> Step(trace[n], Seven(key, head, run, owner, event, newHead, stage)[n]) == Some(trace[n + 1])
    ensures var t := trace[5];
            && key in t.items && 0 in t.workers && 1 in t.workers
            && t.items[key] == NewItem(key.repo, key.pr, head, run).(attempt := 2, contextAttempt := 2,
                                 contextLease := Some(Lease(owner, event, LEASE_SECONDS)))
            && t.workers[0] == Worker(key, Claim(Context, owner, event, 1), Claimed(head, run))
            && t.workers[1] == Worker(key, Claim(Context, owner, event, 2), Requeuing(RequeuePlan(t.items[key], stage, newHead, [])))
  {
    var actions := Seven(key, head, run, owner, event, newHead, stage);
    var item := NewItem(key.repo, key.pr, head, run);
    var lease := Some(Lease(owner, event, LEASE_SECONDS));
    var once := item.(attempt := 1, contextAttempt := 1, contextLease := lease);
    var twice := item.(attempt := 2, contextAttempt := 2, contextLease := lease);
    var w0 := Worker(key, Claim(Context, owner, event, 1), Claimed(head, run));
    var w1 := Worker(key, Claim(Context, owner, event, 2), Claimed(head, run));
    var s1 := s.(items := s.items[key := item]);
    InsertsOne(s, key, head, run);
    var s2 := s1.(items := s1.items[key := once], workers := s1.workers[0 := w0], lines := s1.lines[0 := FreshLine]);
    ClaimsOne(s1, actions[1], once);
    var s3 := s2.(items := s2.items[key := twice], workers := s2.workers[1 := w1], lines := s2.lines[1 := FreshLine]);
    ClaimsOne(s2, actions[2], twice);
    var s4 := Move(s3, 1, Ready);
    AdmitsOne(s3, 1);
    var s5 := Move(s4, 1, Requeuing(RequeuePlan(twice, stage, newHead, [])));
    ReadsOne(s4, actions[4]);
    trace := [s, s1, s2, s3, s4, s5];
  }

  lemma InsertsOne(s: Sys, key: Key, head: string, run: RunId)
    requires Init(s) && key.repo != "" && key.pr >= 1 && head != "" && run.Delivered? && run != NO_RUN
    ensures Step(s, Insert(key, head, run)) == Some(s.(items := s.items[key := NewItem(key.repo, key.pr, head, run)]))
  {
  }

  lemma ClaimsOne(s: Sys, a: Action, next: Item)
    requires a.ClaimPhase? && a.worker !in s.workers && a.key in s.items && a.owner != ""
    requires ClaimWrite(s.items[a.key], a.phase, a.owner, a.event, a.head, a.run, a.now, a.leaseSeconds) == Some(next)
    ensures Step(s, a) == Some(s.(
              items := s.items[a.key := next],
              workers := s.workers[a.worker := Worker(a.key, Claim(a.phase, a.owner, a.event, next.Attempt(a.phase)), Claimed(a.head, a.run))],
              lines := s.lines[a.worker := FreshLine]))
  {
    hide ClaimWrite;
  }

  lemma AdmitsOne(s: Sys, i: nat)
    requires i in s.workers && s.workers[i].key in s.items && s.workers[i].pc.Claimed? && s.workers[i].claim.attempt <= s.maxAttempts
    requires ClaimHolds(s.items[s.workers[i].key], s.workers[i].claim, s.workers[i].pc.head, s.workers[i].pc.run)
    ensures Step(s, Admit(i)) == Some(Move(s, i, Ready))
  {
    hide ClaimHolds;
  }

  lemma ReadsOne(s: Sys, a: Action)
    requires a.ReadSuccessor? && a.worker in s.workers && s.workers[a.worker].key in s.items && s.workers[a.worker].pc == Ready
    requires var item := s.items[s.workers[a.worker].key];
             && RequeueEligible(item, s.workers[a.worker].claim, a.oldHead, a.newHead, s.maxAttempts)
             && Lists(a.ids, item.RecordIds())
    ensures Step(s, a) == Some(Move(s, a.worker, Requeuing(RequeuePlan(s.items[s.workers[a.worker].key], a.stage, a.newHead, a.ids))))
  {
    hide RequeueEligible, Lists;
  }

  /**
    With one claimant and two claims the promise fails: the first claim, already superseded, writes the
    admission between the read and the write of the second, the requeue still wins, and the stream
    validator turns its image pair away.
   */
  lemma SharedClaimantBreaks(s: Sys, key: Key, head: string, run: RunId, owner: string, event: string,
                             newHead: string, stage: string) returns (trace: seq<Sys>, actions: seq<Action>)
    requires Init(s) && s.maxAttempts >= 3 && key.repo != "" && key.pr >= 1 && head != "" && run.Delivered? && run != NO_RUN
    requires owner != "" && event != "" && newHead != "" && newHead != head
    ensures actions == Seven(key, head, run, owner, event, newHead, stage) && IsRun(trace, actions) && trace[0] == s
    ensures key in trace[6].items && key in trace[7].items
    ensures trace[7].items[key].successors == 1 && trace[7].items[key].head == newHead
    ensures !ValidSuccessor(trace[6].items[key], trace[7].items[key])
  {
    actions := Seven(key, head, run, owner, event, newHead, stage);
    var front := ReadWithoutAdmission(s, key, head, run, owner, event, newHead, stage);
    var s5 := front[5];
    var item, plan := s5.items[key], s5.workers[1].pc.plan;
    var admitted := item.(admission := Some(Admission(head, run)));
    var s6 := Move(s5.(items := s5.items[key := admitted]), 0, s5.workers[0].pc);
    RecordsOne(s5, 0, head, run, admitted);
    var s7 := Move(s6.(items := s6.items[key := Requeued(admitted, plan)]), 1, Closing);
    RequeuesOne(s6, 1);
    trace := front + [s6, s7];
    assert forall n :: 0 <= n < 6 ==> trace[n] == front[n];
  }

  lemma RecordsOne(s: Sys, i: nat, head: string, run: RunId, next: Item)
    requires i in s.workers && s.workers[i].key in s.items && s.workers[i].pc.Claimed?
    requires AdmissionWrite(s.items[s.workers[i].key], s.workers[i].claim, head, run) == Some(next)
    ensures Step(s, RecordAdmission(i, head, run))
            == Some(Move(s.(items := s.items[s.workers[i].key := next]), i, s.workers[i].pc))
  {
    hide AdmissionWrite;
  }

  lemma RequeuesOne(s: Sys, i: nat)
    requires i in s.workers && s.workers[i].key in s.items && s.workers[i].pc.Requeuing?
    requires RequeueAccepted(s.items[s.workers[i].key], s.workers[i].claim, s.workers[i].pc.plan)
    ensures Step(s, WriteSuccessor(i))
            == Some(Move(s.(items := s.items[s.workers[i].key := Requeued(s.items[s.workers[i].key], s.workers[i].pc.plan)]), i, Closing))
  {
    hide RequeueAccepted, Requeued;
  }
}
