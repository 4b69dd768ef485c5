/**
  Free-review admission: one shared sentinel a day window, two bounds, idempotent by admission id.

  `consume` is at most three requests - a conditional charge, a reread when the charge loses, and a
  conditional notice claim - and other callers act between them. An admission digest is modelled by
  the identity it digests.
 */
module Capacity {
  import opened Wrappers

  const MAX_GLOBAL_DAILY := 512

  datatype Policy = Policy(repoDaily: int, globalDaily: int) {
    /** `CapacityPolicy.__post_init__`. */
    predicate Valid() {
      && 0 <= repoDaily <= MAX_GLOBAL_DAILY && 0 <= globalDaily <= MAX_GLOBAL_DAILY
      && (repoDaily > 0 ==> globalDaily > 0)
    }

    predicate Enabled() {
      repoDaily > 0 || globalDaily > 0
    }
  }

  datatype AdmissionId = AdmissionId(repo: string, pr: int, run: string, head: string, isSuccessor: bool)

  datatype Sentinel = Sentinel(
    ids: set<AdmissionId>, repoCounts: map<string, int>, globalCount: int, noticeOwners: map<string, AdmissionId>)
  {
    function RepoCount(repo: string): int {
      if repo in repoCounts then repoCounts[repo] else 0
    }
  }

  const EmptySentinel := Sentinel({}, map[], 0, map[])

  datatype Reason = RepoDaily | GlobalDaily

  datatype Decision =
    | Unbounded
    | Allowed(used: int, limit: int)
    | Blocked(reason: Reason, notify: bool, used: int, limit: int)
  {
    predicate Admits() {
      !Blocked?
    }
  }

  // ------------------------------------------------------------ single requests

  predicate HasRoom(s: Sentinel, id: AdmissionId, policy: Policy) {
    && (policy.repoDaily > 0 ==> s.RepoCount(id.repo) < policy.repoDaily)
    && (policy.globalDaily > 0 ==> s.globalCount < policy.globalDaily)
  }

  /** The conditional charge of `_admit_once`: both active bounds and the id, or nothing. */
  function AdmitWrite(s: Sentinel, id: AdmissionId, policy: Policy): Option<Sentinel> {
    if id in s.ids || !HasRoom(s, id, policy) then None
    else
      Some(s.(ids := s.ids + {id},
              repoCounts := if policy.repoDaily > 0 then s.repoCounts[id.repo := s.RepoCount(id.repo) + 1] else s.repoCounts,
              globalCount := if policy.globalDaily > 0 then s.globalCount + 1 else s.globalCount))
  }

  /** The notice claim: the first blocked id of a repository keeps it. */
  function NoticeWrite(s: Sentinel, id: AdmissionId): Option<Sentinel> {
    if id.repo !in s.noticeOwners || s.noticeOwners[id.repo] == id
    then Some(s.(noticeOwners := s.noticeOwners[id.repo := id]))
    else None
  }

  function AllowedBy(s: Sentinel, id: AdmissionId, policy: Policy): Decision {
    if policy.repoDaily > 0 then Allowed(s.RepoCount(id.repo), policy.repoDaily)
    else Allowed(s.globalCount, policy.globalDaily)
  }

  // ------------------------------------------------------------------ the service

  /** The sentinel of one window, changed in place. */
  class Service {
    const policy: Policy
    var sentinel: Sentinel

    constructor (policy: Policy)
      ensures this.policy == policy && sentinel == EmptySentinel
    {
      this.policy := policy;
      sentinel := EmptySentinel;
    }

    method AdmitOnce(id: AdmissionId) returns (admitted: bool)
      modifies this`sentinel
      ensures admitted <==> id !in old(sentinel).ids && HasRoom(old(sentinel), id, policy)
      ensures if admitted then AdmitWrite(old(sentinel), id, policy) == Some(sentinel) else sentinel == old(sentinel)
    {
      var charged := AdmitWrite(sentinel, id, policy);
      admitted := charged.Some?;
      if admitted { sentinel := charged.value; }
    }

    method ClaimNotice(id: AdmissionId) returns (owned: bool)
      modifies this`sentinel
      ensures owned <==> id.repo !in old(sentinel).noticeOwners || old(sentinel).noticeOwners[id.repo] == id
      ensures if owned then NoticeWrite(old(sentinel), id) == Some(sentinel) else sentinel == old(sentinel)
    {
      var claimed := NoticeWrite(sentinel, id);
      owned := claimed.Some?;
      if owned { sentinel := claimed.value; }
    }

    /** `consume` with nobody acting in between: the composition the protocol interleaves. */
    method Consume(id: AdmissionId) returns (decision: Decision)
      modifies this`sentinel
      ensures !policy.Enabled() <==> decision == Unbounded
      ensures policy.Enabled() ==>
                (decision.Admits() <==> id in old(sentinel).ids || HasRoom(old(sentinel), id, policy))
      ensures decision.Allowed? ==> id in sentinel.ids
      ensures decision.Blocked? ==>
                && sentinel.ids == old(sentinel).ids && sentinel.repoCounts == old(sentinel).repoCounts
                && sentinel.globalCount == old(sentinel).globalCount
                && (decision.reason == RepoDaily <==>
                      policy.repoDaily > 0 && old(sentinel).RepoCount(id.repo) >= policy.repoDaily)
                && (decision.notify ==> id.repo in sentinel.noticeOwners && sentinel.noticeOwners[id.repo] == id)
    {
      if !policy.Enabled() { return Unbounded; }
      var admitted := AdmitOnce(id);
      var state := sentinel;
      if admitted || id in state.ids { return AllowedBy(state, id, policy); }
      var repoUsed := state.RepoCount(id.repo);
      if policy.repoDaily > 0 && repoUsed >= policy.repoDaily {
        var notify := false;
        if !id.isSuccessor { notify := ClaimNotice(id); }
        return Blocked(RepoDaily, notify, repoUsed, policy.repoDaily);
      }
      return Blocked(GlobalDaily, false, state.globalCount, policy.globalDaily);
    }
  }
}
