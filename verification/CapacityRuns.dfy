/** Interleaved admission calls: every request of every call is a step of its own. */
module CapacityRuns {
  import opened Wrappers
  import opened MapSum
  import opened Capacity

  // ------------------------------------------------------------- interleaved calls

  datatype Pc =
    | Start                      // nothing sent yet
    | Lost                       // the charge lost its condition, reread pending
    | Noticing(used: int)        // blocked by the repository bound, notice claim pending
    | Done(decision: Decision)

  datatype Call = Call(id: AdmissionId, pc: Pc)

  datatype Sys = Sys(policy: Policy, sentinel: Sentinel, calls: map<nat, Call>)

  datatype Action = Begin(call: nat, id: AdmissionId) | Charge(call: nat) | Reread(call: nat) | Notice(call: nat)

  predicate Init(s: Sys) {
    s.policy.Valid() && s.policy.Enabled() && s.sentinel == EmptySentinel && s.calls == map[]
  }

  function Move(s: Sys, c: nat, pc: Pc): Sys
    requires c in s.calls
  {
    s.(calls := s.calls[c := s.calls[c].(pc := pc)])
  }

  function AfterReread(s: Sentinel, id: AdmissionId, policy: Policy): Pc {
    if id in s.ids then Done(AllowedBy(s, id, policy))
    else if policy.repoDaily > 0 && s.RepoCount(id.repo) >= policy.repoDaily then
      if id.isSuccessor then Done(Blocked(RepoDaily, false, s.RepoCount(id.repo), policy.repoDaily))
      else Noticing(s.RepoCount(id.repo))
    else Done(Blocked(GlobalDaily, false, s.globalCount, policy.globalDaily))
  }

  function Step(s: Sys, a: Action): Option<Sys> {
    if a.Begin? then
      if a.call in s.calls then None else Some(s.(calls := s.calls[a.call := Call(a.id, Start)]))
    else if a.call !in s.calls then None
    else
      var c := s.calls[a.call];
      match a
      case Charge(i) =>
        if !c.pc.Start? then None
        else
          var charged := AdmitWrite(s.sentinel, c.id, s.policy);
          if charged.None? then Some(Move(s, i, Lost))
          else Some(Move(s.(sentinel := charged.value), i, Done(AllowedBy(charged.value, c.id, s.policy))))
      case Reread(i) =>
        if !c.pc.Lost? then None else Some(Move(s, i, AfterReread(s.sentinel, c.id, s.policy)))
      case Notice(i) =>
        if !c.pc.Noticing? then None
        else
          var claimed := NoticeWrite(s.sentinel, c.id);
          var decision := Blocked(RepoDaily, claimed.Some?, c.pc.used, s.policy.repoDaily);
          if claimed.None? then Some(Move(s, i, Done(decision)))
          else Some(Move(s.(sentinel := claimed.value), i, Done(decision)))
  }

  ghost predicate IsRun(trace: seq<Sys>, actions: seq<Action>) {
    && |trace| == |actions| + 1
    && Init(trace[0])
    && forall n :: 0 <= n < |actions| ==> Step(trace[n], actions[n]) == Some(trace[n + 1])
  }

  // -------------------------------------------------------------------- invariant

  ghost function OfRepo(ids: set<AdmissionId>, repo: string): set<AdmissionId> {
    set id | id in ids && id.repo == repo
  }

  /** The sentinel counts its own ids, per repository and in all, within both bounds. */
  ghost predicate Counted(s: Sentinel, policy: Policy) {
    && s.globalCount == |s.ids| <= policy.globalDaily
    && (policy.repoDaily > 0 ==>
          && Sum(s.repoCounts) == |s.ids|
          && forall repo :: s.RepoCount(repo) == |OfRepo(s.ids, repo)| <= policy.repoDaily)
  }

  predicate RepoFull(s: Sentinel, id: AdmissionId, policy: Policy) {
    policy.repoDaily > 0 && s.RepoCount(id.repo) >= policy.repoDaily
  }

  /** What each call's position says about the sentinel, now and for the rest of the window. */
  ghost predicate CallOk(s: Sentinel, c: Call, policy: Policy) {
    match c.pc
    case Start => true
    case Lost => c.id in s.ids || !HasRoom(s, c.id, policy)
    case Noticing(used) => c.id !in s.ids && !c.id.isSuccessor && RepoFull(s, c.id, policy) && used >= policy.repoDaily
    case Done(Unbounded) => false
    case Done(Allowed(used, limit)) => c.id in s.ids && 0 <= used <= limit
    case Done(Blocked(reason, notify, used, limit)) =>
      && c.id !in s.ids && used >= limit > 0
      && (reason == RepoDaily ==> RepoFull(s, c.id, policy) && limit == policy.repoDaily)
      && (reason == GlobalDaily ==> s.globalCount >= policy.globalDaily == limit)
      && (notify ==> reason == RepoDaily && !c.id.isSuccessor
                     && c.id.repo in s.noticeOwners && s.noticeOwners[c.id.repo] == c.id)
  }

  ghost predicate Inv(s: Sys) {
    && s.policy.Valid() && s.policy.Enabled()
    && Counted(s.sentinel, s.policy)
    && forall c :: c in s.calls ==> CallOk(s.sentinel, s.calls[c], s.policy)
  }

  /** The sentinel only fills up, and a notice owner never changes. */
  ghost predicate Fuller(s: Sentinel, t: Sentinel) {
    && s.ids <= t.ids && s.globalCount <= t.globalCount
    && (forall repo :: s.RepoCount(repo) <= t.RepoCount(repo))
    && (forall repo :: repo in s.noticeOwners ==> repo in t.noticeOwners && t.noticeOwners[repo] == s.noticeOwners[repo])
  }

  /** A charge is refused to a full bound, so a blocked id is never admitted later. */
  lemma AdmitKeepsOthers(s: Sentinel, id: AdmissionId, c: Call, policy: Policy)
    requires AdmitWrite(s, id, policy).Some? && CallOk(s, c, policy) && policy.Valid() && policy.Enabled()
    ensures CallOk(AdmitWrite(s, id, policy).value, c, policy)
  {
  }

  lemma OfRepoGrows(ids: set<AdmissionId>, id: AdmissionId, repo: string)
    requires id !in ids
    ensures |OfRepo(ids + {id}, repo)| == |OfRepo(ids, repo)| + if id.repo == repo then 1 else 0
  {
    if id.repo == repo {
      assert OfRepo(ids + {id}, repo) == OfRepo(ids, repo) + {id};
    } else {
      assert OfRepo(ids + {id}, repo) == OfRepo(ids, repo);
    }
  }

  lemma AdmitKeepsRepo(s: Sentinel, id: AdmissionId, policy: Policy, repo: string)
    requires policy.repoDaily > 0 && AdmitWrite(s, id, policy).Some?
    requires s.RepoCount(repo) == |OfRepo(s.ids, repo)| <= policy.repoDaily
    ensures var t := AdmitWrite(s, id, policy).value;
            t.RepoCount(repo) == |OfRepo(t.ids, repo)| <= policy.repoDaily
  {
    OfRepoGrows(s.ids, id, repo);
  }

  lemma AdmitKeepsCounts(s: Sentinel, id: AdmissionId, policy: Policy)
    requires Counted(s, policy) && policy.Valid() && policy.Enabled() && AdmitWrite(s, id, policy).Some?
    ensures Counted(AdmitWrite(s, id, policy).value, policy)
  {
    if policy.repoDaily > 0 {
      SumUpdate(s.repoCounts, id.repo, s.RepoCount(id.repo) + 1);
      forall repo {
        AdmitKeepsRepo(s, id, policy, repo);
      }
    }
  }

  lemma NoticeKeepsOthers(s: Sentinel, id: AdmissionId, c: Call, policy: Policy)
    requires NoticeWrite(s, id).Some? && CallOk(s, c, policy)
    ensures CallOk(NoticeWrite(s, id).value, c, policy)
  {
  }

  /** A call keeps its admission id, and a decision once returned stays. */
  predicate CallLater(c: Call, d: Call) {
    d.id == c.id && (c.pc.Done? ==> d == c)
  }

  ghost predicate SysLater(s: Sys, t: Sys) {
    && t.policy == s.policy && Fuller(s.sentinel, t.sentinel)
    && forall c :: c in s.calls ==> c in t.calls && CallLater(s.calls[c], t.calls[c])
  }

  lemma StepIsLater(s: Sys, a: Action, t: Sys)
    requires Step(s, a) == Some(t)
    ensures SysLater(s, t)
  {
  }

  lemma StepKeepsInv(s: Sys, a: Action, t: Sys)
    requires Inv(s) && Step(s, a) == Some(t)
    ensures Inv(t)
  {
    if a.Charge? {
      ChargeKeepsInv(s, a.call, t);
    } else if a.Reread? {
      RereadIsOk(s.sentinel, s.calls[a.call], s.policy);
    } else if a.Notice? {
      NoticeKeepsInv(s, a.call, t);
    }
  }

  lemma ChargeIsOk(s: Sentinel, c: Call, policy: Policy)
    requires policy.Valid() && policy.Enabled() && Counted(s, policy) && AdmitWrite(s, c.id, policy).Some?
    ensures var t := AdmitWrite(s, c.id, policy).value;
            CallOk(t, c.(pc := Done(AllowedBy(t, c.id, policy))), policy)
  {
    assert policy.repoDaily > 0 ==> s.RepoCount(c.id.repo) == |OfRepo(s.ids, c.id.repo)|;
  }

  lemma ChargeKeepsInv(s: Sys, i: nat, t: Sys)
    requires Inv(s) && i in s.calls && Step(s, Charge(i)) == Some(t)
    ensures Inv(t)
  {
    var c := s.calls[i];
    if AdmitWrite(s.sentinel, c.id, s.policy).Some? {
      AdmitKeepsCounts(s.sentinel, c.id, s.policy);
      ChargeIsOk(s.sentinel, c, s.policy);
      forall j | j in s.calls {
        AdmitKeepsOthers(s.sentinel, c.id, s.calls[j], s.policy);
      }
    }
  }

  lemma RereadIsOk(s: Sentinel, c: Call, policy: Policy)
    requires policy.Valid() && policy.Enabled() && Counted(s, policy) && c.pc.Lost? && CallOk(s, c, policy)
    ensures CallOk(s, c.(pc := AfterReread(s, c.id, policy)), policy)
  {
    assert policy.repoDaily > 0 ==> s.RepoCount(c.id.repo) == |OfRepo(s.ids, c.id.repo)| <= policy.repoDaily;
  }

  lemma NoticeKeepsInv(s: Sys, i: nat, t: Sys)
    requires Inv(s) && i in s.calls && Step(s, Notice(i)) == Some(t)
    ensures Inv(t)
  {
    var c := s.calls[i];
    if NoticeWrite(s.sentinel, c.id).Some? {
      forall j | j in s.calls {
        NoticeKeepsOthers(s.sentinel, c.id, s.calls[j], s.policy);
      }
    }
    assert CallOk(s.sentinel, c, s.policy);
    assert t.sentinel.repoCounts == s.sentinel.repoCounts;
    forall repo
      ensures t.sentinel.RepoCount(repo) == s.sentinel.RepoCount(repo)
    {}
  }

  lemma {:induction false} RunIsSafe(trace: seq<Sys>, actions: seq<Action>, n: nat)
    requires IsRun(trace, actions) && n < |trace|
    ensures Inv(trace[n]) && trace[n].policy == trace[0].policy
  {
    if n == 0 {
      assert forall repo :: OfRepo({}, repo) == {};
    } else {
      RunIsSafe(trace, actions, n - 1);
      assert Step(trace[n - 1], actions[n - 1]) == Some(trace[n]);
      StepKeepsInv(trace[n - 1], actions[n - 1], trace[n]);
      StepIsLater(trace[n - 1], actions[n - 1], trace[n]);
    }
  }

  lemma {:induction false} RunOnlyFills(trace: seq<Sys>, actions: seq<Action>, m: nat, n: nat)
    requires IsRun(trace, actions) && m <= n < |trace|
    ensures SysLater(trace[m], trace[n])
    decreases n
  {
    if m < n {
      RunOnlyFills(trace, actions, m, n - 1);
      assert Step(trace[n - 1], actions[n - 1]) == Some(trace[n]);
      StepIsLater(trace[n - 1], actions[n - 1], trace[n]);
    }
  }
}
