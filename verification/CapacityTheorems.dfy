/** What callers of the daily capacity may rely on, over every run. */
module CapacityTheorems {
  import opened MapSum
  import opened Capacity
  import opened CapacityRuns

  /** Charges are conserved: the global count, the ids and the repository counts always agree, within both bounds. */
  lemma ChargesAreConserved(trace: seq<Sys>, actions: seq<Action>, n: nat, repo: string)
    requires IsRun(trace, actions) && n < |trace|
    ensures var s, policy := trace[n].sentinel, trace[0].policy;
            && s.globalCount == |s.ids| <= policy.globalDaily
            && (policy.repoDaily > 0 ==>
                  Sum(s.repoCounts) == |s.ids| && s.RepoCount(repo) == |OfRepo(s.ids, repo)| <= policy.repoDaily)
  {
    RunIsSafe(trace, actions, n);
  }

  /** Every call for one admission id gets the same verdict, whatever is interleaved. */
  lemma VerdictIsStable(trace: seq<Sys>, actions: seq<Action>, n: nat, a: nat, b: nat)
    requires IsRun(trace, actions) && n < |trace| && a in trace[n].calls && b in trace[n].calls
    requires trace[n].calls[a].id == trace[n].calls[b].id
    requires trace[n].calls[a].pc.Done? && trace[n].calls[b].pc.Done?
    ensures trace[n].calls[a].pc.decision.Admits() <==> trace[n].calls[b].pc.decision.Admits()
    ensures trace[n].calls[a].pc.decision.Admits() <==> trace[n].calls[a].id in trace[n].sentinel.ids
  {
    RunIsSafe(trace, actions, n);
    assert CallOk(trace[n].sentinel, trace[n].calls[a], trace[n].policy);
    assert CallOk(trace[n].sentinel, trace[n].calls[b], trace[n].policy);
  }

  /** A reported reason is true, although the sentinel was reread after the failed write. */
  lemma ReasonIsTruthful(trace: seq<Sys>, actions: seq<Action>, n: nat, c: nat)
    requires IsRun(trace, actions) && n < |trace| && c in trace[n].calls
    requires trace[n].calls[c].pc.Done? && trace[n].calls[c].pc.decision.Blocked?
    ensures var d, s := trace[n].calls[c].pc.decision, trace[n].sentinel;
            && d.used >= d.limit
            && (d.reason == RepoDaily ==> s.RepoCount(trace[n].calls[c].id.repo) == trace[0].policy.repoDaily == d.limit)
            && (d.reason == GlobalDaily ==> s.globalCount == trace[0].policy.globalDaily == d.limit)
  {
    RunIsSafe(trace, actions, n);
    var id := trace[n].calls[c].id;
    assert CallOk(trace[n].sentinel, trace[n].calls[c], trace[n].policy);
    assert trace[n].policy.repoDaily > 0 ==> trace[n].sentinel.RepoCount(id.repo) <= trace[n].policy.repoDaily;
  }

  predicate Notifies(s: Sys, c: nat) {
    c in s.calls && s.calls[c].pc.Done? && s.calls[c].pc.decision.Blocked? && s.calls[c].pc.decision.notify
  }

  /** At most one admission id of a repository is ever told to notify, and it is never an admitted one. */
  lemma OneNoticePerRepository(trace: seq<Sys>, actions: seq<Action>, m: nat, n: nat, a: nat, b: nat)
    requires IsRun(trace, actions) && m <= n < |trace| && Notifies(trace[m], a) && Notifies(trace[n], b)
    requires trace[m].calls[a].id.repo == trace[n].calls[b].id.repo
    ensures trace[m].calls[a].id == trace[n].calls[b].id
    ensures trace[m].calls[a].id !in trace[n].sentinel.ids
  {
    RunOnlyFills(trace, actions, m, n);
    RunIsSafe(trace, actions, n);
    assert CallOk(trace[n].sentinel, trace[n].calls[a], trace[n].policy);
    assert CallOk(trace[n].sentinel, trace[n].calls[b], trace[n].policy);
  }
}
