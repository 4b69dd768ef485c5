/** What accounting and its independent check promise together. */
module LedgerTheorems {
  import opened Wrappers
  import opened Strings
  import opened UsageTree
  import opened Accounting
  import opened Reconciliation
  import Ordering

  // ----------------------------------------------------------------- leaf by leaf

  /** The amount at one path summed over the rows of a ledger. */
  function RowSum(rows: seq<Call>, path: seq<string>): int {
    if rows == [] then 0
    else RowSum(rows[..|rows| - 1], path) + LeafAt(Contribution(rows[|rows| - 1].usage, false), path)
  }

  lemma {:induction false} RowSumIsLeafSum(rows: seq<Call>, path: seq<string>)
    ensures LeafSum(Contributions(Usages(rows), false), path) == RowSum(rows, path)
  {
    hide Contribution, LeafAt;
    if rows != [] {
      var front := rows[..|rows| - 1];
      RowSumIsLeafSum(front, path);
      assert Usages(rows)[..|front|] == Usages(front);
      var all := Contributions(Usages(rows), false);
      assert all[..|all| - 1] == Contributions(Usages(front), false);
    }
  }

  lemma {:induction false} RowSumAppend(a: seq<Call>, b: seq<Call>, path: seq<string>)
    ensures RowSum(a + b, path) == RowSum(a, path) + RowSum(b, path)
  {
    hide Contribution, LeafAt;
    if b == [] {
      assert a + b == a;
    } else {
      RowSumAppend(a, b[..|b| - 1], path);
      assert (a + b)[..|a + b| - 1] == a + b[..|b| - 1];
    }
  }

  lemma RowSumWithout(rows: seq<Call>, i: nat, path: seq<string>)
    requires i < |rows|
    ensures RowSum(rows, path) == RowSum(rows[..i] + rows[i + 1..], path) + RowSum([rows[i]], path)
    ensures multiset(rows[..i] + rows[i + 1..]) == multiset(rows) - multiset{rows[i]}
  {
    hide RowSum;
    RowSumAppend(rows[..i], [rows[i]] + rows[i + 1..], path);
    RowSumAppend([rows[i]], rows[i + 1..], path);
    RowSumAppend(rows[..i], rows[i + 1..], path);
    assert rows == rows[..i] + ([rows[i]] + rows[i + 1..]);
  }

  /** The sum depends on the rows only, not on their order. */
  lemma {:induction false} RowSumIgnoresOrder(a: seq<Call>, b: seq<Call>, path: seq<string>)
    requires multiset(a) == multiset(b)
    ensures RowSum(a, path) == RowSum(b, path)
    decreases |a|
  {
    hide RowSum;
    if a == [] {
      assert |multiset(b)| == 0;
      assert b == [];
    } else {
      assert a[0] in multiset(b);
      var i :| 0 <= i < |b| && b[i] == a[0];
      RowSumWithout(a, 0, path);
      RowSumWithout(b, i, path);
      RowSumIgnoresOrder(a[..0] + a[1..], b[..i] + b[i + 1..], path);
    }
  }

  lemma PartitionAddsRows(all: seq<Call>, winning: seq<Call>, discarded: seq<Call>, path: seq<string>)
    requires multiset(all) == multiset(winning) + multiset(discarded)
    ensures RowSum(all, path) == RowSum(winning, path) + RowSum(discarded, path)
  {
    RowSumIgnoresOrder(all, winning + discarded, path);
    RowSumAppend(winning, discarded, path);
  }

  lemma TotalIsRowSum(rows: seq<Call>, declared: Value, path: seq<string>)
    requires TotalsHold(rows, declared)
    ensures LeafAt(declared, path) == RowSum(rows, path)
  {
    TotalAddsLeaves(Contributions(Usages(rows), false), path);
    RowSumIsLeafSum(rows, path);
  }

  /** A valid verdict: at every leaf, total usage is winning plus discarded usage, row for row. */
  lemma ValidTotalsAdd(a: Artifact, allowZero: bool, contract: Option<string>, path: seq<string>)
    requires Reconciles(a, allowZero, contract)
    ensures LeafAt(a.total, path) == LeafAt(a.winningTotal, path) + LeafAt(a.discardedTotal, path)
    ensures LeafAt(a.total, path) == RowSum(a.all, path)
  {
    hide TotalsHold;
    TotalIsRowSum(a.all, a.total, path);
    TotalIsRowSum(a.winning, a.winningTotal, path);
    TotalIsRowSum(a.discarded, a.discardedTotal, path);
    PartitionAddsRows(a.all, a.winning, a.discarded, path);
  }

  // ---------------------------------------------------------------------- projection

  lemma {:induction false} SelectedMembers(rows: seq<Call>, winning: bool, ctx: int, rev: Option<int>, c: Call)
    ensures c in Selected(rows, winning, ctx, rev) <==> c in rows && Wins(c, ctx, rev) == winning
  {
    hide Wins;
    if rows != [] {
      SelectedMembers(rows[..|rows| - 1], winning, ctx, rev, c);
    }
  }

  /** Splitting loses no row and repeats none. */
  lemma {:induction false} SelectedPartition(rows: seq<Call>, ctx: int, rev: Option<int>)
    ensures var w, d := Selected(rows, true, ctx, rev), Selected(rows, false, ctx, rev);
            multiset(NormalizeAll(rows)) == multiset(NormalizeAll(w)) + multiset(NormalizeAll(d))
  {
    hide Wins, Normalize;
    if rows != [] {
      var front, last := rows[..|rows| - 1], rows[|rows| - 1];
      SelectedPartition(front, ctx, rev);
      NormalizeAppend(front, last);
      assert rows == front + [last];
      NormalizeAppend(Selected(front, Wins(last, ctx, rev), ctx, rev), last);
    }
  }

  lemma NormalizeAppend(rows: seq<Call>, c: Call)
    ensures NormalizeAll(rows + [c]) == NormalizeAll(rows) + [Normalize(c)]
  {
    hide Normalize;
  }

  lemma NormalizedMembers(rows: seq<Call>)
    ensures forall c :: c in rows ==> Normalize(c) in NormalizeAll(rows)
    ensures forall n :: n in NormalizeAll(rows) ==> exists c :: c in rows && n == Normalize(c)
  {
    hide Normalize;
    forall c | c in rows
      ensures Normalize(c) in NormalizeAll(rows)
    {
      var i :| 0 <= i < |rows| && rows[i] == c;
      assert NormalizeAll(rows)[i] == Normalize(c);
    }
    forall n | n in NormalizeAll(rows)
      ensures exists c :: c in rows && n == Normalize(c)
    {
      var i :| 0 <= i < |rows| && NormalizeAll(rows)[i] == n;
      assert rows[i] in rows && n == Normalize(rows[i]);
    }
  }

  lemma CleanTotalsHold(rows: seq<Call>)
    requires Trees(Usages(rows))
    ensures TotalsHold(rows, MergeAll(Usages(rows))) <==> Family(Usages(rows))
    ensures AllConflicts(Usages(rows)) == {} <==> Family(Usages(rows))
  {
    CleanRowsAreKept(Usages(rows), false);
    ConflictFreeIsFamily(Usages(rows));
  }

  /**
    Whatever the calls and fallback phases were, the projection splits its own rows exactly by the
    winning attempts, and unless it reports conflicts its totals add up at every leaf.
   */
  lemma ProjectionPartitions(rows: seq<Call>, ctx: int, rev: Option<int>, path: seq<string>, c: Call)
    ensures var a := Project(rows, ctx, rev);
            && multiset(a.all) == multiset(a.winning) + multiset(a.discarded)
            && (c in a.winning <==> c in a.all && Wins(c, ctx, rev))
            && (c in a.discarded <==> c in a.all && !Wins(c, ctx, rev))
            && (a.tally.conflicts == {} ==>
                  LeafAt(a.total, path) == LeafAt(a.winningTotal, path) + LeafAt(a.discardedTotal, path))
  {
    hide Wins, Trees, Family, TotalsHold, LeafAt, MergeAll, AllConflicts, Usages;
    var a := Project(rows, ctx, rev);
    SelectedPartition(rows, ctx, rev);
    NormalizedSplit(rows, true, ctx, rev, c);
    NormalizedSplit(rows, false, ctx, rev, c);
    if a.tally.conflicts == {} {
      NormalizedTrees(rows);
      NormalizedTrees(Selected(rows, true, ctx, rev));
      NormalizedTrees(Selected(rows, false, ctx, rev));
      CleanTotalsHold(a.all);
      CleanTotalsHold(a.winning);
      CleanTotalsHold(a.discarded);
      TotalIsRowSum(a.all, a.total, path);
      TotalIsRowSum(a.winning, a.winningTotal, path);
      TotalIsRowSum(a.discarded, a.discardedTotal, path);
      PartitionAddsRows(a.all, a.winning, a.discarded, path);
    }
  }

  lemma WinsIsUnchanged(c: Call, ctx: int, rev: Option<int>)
    ensures Wins(Normalize(c), ctx, rev) == Wins(c, ctx, rev)
  {
  }

  lemma NormalizedSplit(rows: seq<Call>, winning: bool, ctx: int, rev: Option<int>, n: Call)
    ensures n in NormalizeAll(Selected(rows, winning, ctx, rev))
            <==> n in NormalizeAll(rows) && Wins(n, ctx, rev) == winning
  {
    hide Wins, Normalize;
    var part := Selected(rows, winning, ctx, rev);
    NormalizedMembers(rows);
    NormalizedMembers(part);
    forall c
      ensures c in part <==> c in rows && Wins(c, ctx, rev) == winning
    {
      SelectedMembers(rows, winning, ctx, rev, c);
    }
    forall c { WinsIsUnchanged(c, ctx, rev); }
  }

  /** A fallback phase that names no attempt counts as winning, unless it belongs to a review that never ran. */
  lemma UnplacedFallbackWins(raw: Call, ctx: int, rev: Option<int>)
    requires raw.pipelinePhase == "" && raw.pipelineAttempt <= 0
    ensures Wins(Placed(raw, ctx, rev), ctx, rev) <==> !ReviewPhase(CanonicalPhase(raw.phase)) || rev.Some?
  {
  }

  // -------------------------------------------------- when the projection reconciles

  predicate Declared(c: Call) {
    Lower(Strip(c.usageState)) == "" || Lower(Strip(c.usageState)) == "reported"
  }

  /** One finished, fully reported, self-consistent dispatch. */
  predicate CompleteCall(c: Call, contract: Option<string>) {
    Dispatched(c) && c.status == "completed" && ContractMet(c, contract)
    && ValidateTokenUsage(c.usage).1 == {} && Declared(c)
  }

  ghost predicate SameShapes(rows: seq<Call>) {
    forall c, d :: c in rows && d in rows ==> Compatible(ValidateTokenUsage(c.usage).0, ValidateTokenUsage(d.usage).0)
  }

  /** What a caller can read off the ledger before any accounting. */
  ghost predicate Reconcilable(rows: seq<Call>, contract: Option<string>) {
    && rows != [] && ContractReadable(contract)
    && (forall c :: c in rows ==> CompleteCall(c, contract))
    && NoGaps(rows) && SameShapes(rows)
  }

  lemma NormalizeSettles(c: Call, contract: Option<string>)
    ensures Settled(Normalize(c), contract) <==> CompleteCall(c, contract)
    ensures Normalize(c).usage == ValidateTokenUsage(c.usage).0
  {
  }

  lemma NormalizeKeepsIds(c: Call)
    ensures Normalize(c).operationId == c.operationId && Normalize(c).transportIndex == c.transportIndex
    ensures Key(Normalize(c)) == Key(c)
  {
    hide ValidateTokenUsage;
  }

  /** Two ledgers with the same rows, one in another order and normalized. */
  ghost predicate Mirrors(rows: seq<Call>, all: seq<Call>) {
    && (forall c :: c in rows ==> Normalize(c) in all)
    && forall n :: n in all ==> exists c :: c in rows && n == Normalize(c)
  }

  lemma SortedMirrors(rows: seq<Call>, written: Written)
    ensures Mirrors(rows, NormalizeAll(SortPhases(rows, written)))
    ensures multiset(SortPhases(rows, written)) == multiset(rows)
  {
    hide Normalize, Ordering.Sort, NormalizeAll;
    var sorted := SortPhases(rows, written);
    Ordering.SortSorts(rows, c => PhaseKey(c, written));
    assert multiset(sorted) == multiset(rows);
    forall c
      ensures c in sorted <==> c in rows
    {
      assert c in multiset(sorted) <==> c in multiset(rows);
    }
    NormalizedMembers(sorted);
  }

  lemma MirrorsSettle(rows: seq<Call>, all: seq<Call>, contract: Option<string>)
    requires Mirrors(rows, all)
    ensures (forall n :: n in all ==> Settled(n, contract)) <==> forall c :: c in rows ==> CompleteCall(c, contract)
  {
    hide Normalize, Settled, CompleteCall;
    forall c { NormalizeSettles(c, contract); }
  }

  lemma MirrorsIndex(rows: seq<Call>, all: seq<Call>, operation: Id, x: int)
    requires Mirrors(rows, all)
    ensures HasIndex(all, operation, x) <==> HasIndex(rows, operation, x)
  {
    hide Normalize;
    forall c { NormalizeKeepsIds(c); }
    if HasIndex(rows, operation, x) {
      var c :| c in rows && c.operationId == operation && c.transportIndex == x;
      assert Normalize(c) in all;
    }
  }

  lemma MirrorsGaps(rows: seq<Call>, all: seq<Call>)
    requires Mirrors(rows, all)
    ensures NoGaps(all) <==> NoGaps(rows)
  {
    hide Normalize, HasIndex;
    forall c { NormalizeKeepsIds(c); }
    forall operation, x { MirrorsIndex(rows, all, operation, x); }
  }

  lemma MirrorsShapes(rows: seq<Call>, all: seq<Call>)
    requires Mirrors(rows, all)
    ensures Family(Usages(all)) <==> SameShapes(rows)
  {
    hide Normalize, Compatible, ValidateTokenUsage;
    forall c { NormalizeSettles(c, None); }
    UsageMembers(all);
    if Family(Usages(all)) {
      forall c, d | c in rows && d in rows
        ensures Compatible(ValidateTokenUsage(c.usage).0, ValidateTokenUsage(d.usage).0)
      {
        assert Normalize(c) in all && Normalize(d) in all;
        assert Normalize(c).usage in Usages(all) && Normalize(d).usage in Usages(all);
      }
    }
  }

  lemma UsageMembers(rows: seq<Call>)
    ensures forall c :: c in rows ==> c.usage in Usages(rows)
    ensures forall v :: v in Usages(rows) ==> exists c :: c in rows && c.usage == v
  {
    forall c | c in rows
      ensures c.usage in Usages(rows)
    {
      var i :| 0 <= i < |rows| && rows[i] == c;
      assert Usages(rows)[i] == c.usage;
    }
    forall v | v in Usages(rows)
      ensures exists c :: c in rows && c.usage == v
    {
      var i :| 0 <= i < |rows| && Usages(rows)[i] == v;
      assert rows[i] in rows;
    }
  }

  /** Deduplicated dispatched rows are keyed, and stay so in any order and after normalization. */
  lemma DistinctIsKeyed(rows: seq<Call>, sorted: seq<Call>)
    requires Distinct(rows) && forall c :: c in rows ==> Dispatched(c)
    requires multiset(sorted) == multiset(rows)
    ensures Keyed(NormalizeAll(sorted))
  {
    hide Normalize;
    assert DistinctKeys(rows) by {
      forall i, j | 0 <= i < j < |rows|
        ensures Key(rows[i]) != Key(rows[j])
      {
        assert rows[i] in rows && rows[j] in rows;
        assert IdentityOf(rows[i]) != IdentityOf(rows[j]);
      }
    }
    KeySetSize(rows);
    KeyedIsCounted(rows);
    KeyedMoves(rows, sorted);
    KeyedIsCounted(sorted);
    NormalizedKeys(sorted);
    KeyedIsCounted(NormalizeAll(sorted));
  }

  lemma KeyedMoves(rows: seq<Call>, sorted: seq<Call>)
    requires Keyed(rows) && multiset(sorted) == multiset(rows)
    ensures Keyed(sorted)
  {
    hide Key;
    forall c
      ensures c in sorted <==> c in rows
    {
      assert c in multiset(sorted) <==> c in multiset(rows);
    }
  }

  lemma NormalizedKeys(rows: seq<Call>)
    ensures KeySet(NormalizeAll(rows)) == KeySet(rows) && |NormalizeAll(rows)| == |rows|
  {
    hide Normalize, Key;
    NormalizedMembers(rows);
    forall c { NormalizeKeepsIds(c); }
    forall k | k in KeySet(rows)
      ensures k in KeySet(NormalizeAll(rows))
    {
      var c :| c in rows && Key(c) == k;
      assert Normalize(c) in NormalizeAll(rows);
    }
  }

  lemma SettledTally(rows: seq<Call>, contract: Option<string>)
    requires forall c :: c in rows ==> Settled(c, contract)
    ensures UnreportedRows(rows) == [] && OperationIds(rows) == NamedOperations(rows)
  {
    NoneUnreported(rows);
    assert forall c :: c in rows ==> c.operationId != NO_ID;
  }

  lemma {:induction false} NoneUnreported(rows: seq<Call>)
    requires forall c :: c in rows ==> c.usageState == "reported"
    ensures UnreportedRows(rows) == []
  {
    if rows != [] { NoneUnreported(rows[..|rows| - 1]); }
  }

  lemma SubFamily(rows: seq<Call>, part: seq<Call>)
    requires Family(Usages(rows)) && forall c :: c in part ==> c in rows
    ensures Family(Usages(part))
  {
    UsageMembers(rows);
    UsageMembers(part);
  }

  lemma SettledIsWellFormed(c: Call, contract: Option<string>)
    requires Settled(c, contract)
    ensures WellFormed(Key(c)) && Dispatched(c)
  {
  }

  /**
    A ledger of distinct rows projects to an artifact that reconciles exactly when it is a nonempty
    ledger of complete calls without a missing attempt and without conflicting usage shapes.
   */
  lemma ProjectionReconciles(rows: seq<Call>, ctx: int, rev: Option<int>, written: Written, contract: Option<string>)
    requires Distinct(rows)
    ensures Reconciles(Project(SortPhases(rows, written), ctx, rev), false, contract) <==> Reconcilable(rows, contract)
  {
    hide Normalize, NormalizeAll, Settled, CompleteCall, NoGaps, TotalsHold, Distinct, SortPhases, Selected, Mirrors,
         Family, SameShapes, ExactPartition;
    var sorted := SortPhases(rows, written);
    var a := Project(sorted, ctx, rev);
    SortedMirrors(rows, written);
    MirrorsSettle(rows, a.all, contract);
    MirrorsGaps(rows, a.all);
    MirrorsShapes(rows, a.all);
    NormalizedTrees(sorted);
    CleanTotalsHold(a.all);
    NormalizedSize(rows, sorted);
    if Reconcilable(rows, contract) {
      PartsReconcile(rows, sorted, a, ctx, rev, contract);
    }
  }

  lemma NormalizedSize(rows: seq<Call>, sorted: seq<Call>)
    requires multiset(sorted) == multiset(rows)
    ensures NormalizeAll(sorted) == [] <==> rows == []
  {
    assert |multiset(sorted)| == |sorted| && |multiset(rows)| == |rows|;
  }

  lemma PartsReconcile(rows: seq<Call>, sorted: seq<Call>, a: Artifact, ctx: int, rev: Option<int>, contract: Option<string>)
    requires Distinct(rows) && multiset(sorted) == multiset(rows) && a == Project(sorted, ctx, rev)
    requires (forall c :: c in rows ==> CompleteCall(c, contract)) && (forall c :: c in a.all ==> Settled(c, contract))
    requires Family(Usages(a.all))
    ensures ExactPartition(a.all, a.winning, a.discarded)
    ensures TotalsHold(a.winning, a.winningTotal) && TotalsHold(a.discarded, a.discardedTotal)
    ensures TallyHolds(a)
  {
    hide Normalize, NormalizeAll, Settled, NoGaps, TotalsHold, Distinct, Selected, Family, Trees, Wins, Dispatched,
         WellFormed, Key, MergeAll, AllConflicts;
    var w, d := Selected(sorted, true, ctx, rev), Selected(sorted, false, ctx, rev);
    DistinctIsKeyed(rows, sorted);
    forall c | c in a.all { SettledIsWellFormed(c, contract); }
    SelectedPartition(sorted, ctx, rev);
    forall c { NormalizedSplit(sorted, true, ctx, rev, c); }
    forall c { NormalizedSplit(sorted, false, ctx, rev, c); }
    SubFamily(a.all, a.winning);
    SubFamily(a.all, a.discarded);
    NormalizedTrees(sorted);
    NormalizedTrees(w);
    NormalizedTrees(d);
    CleanTotalsHold(a.all);
    CleanTotalsHold(a.winning);
    CleanTotalsHold(a.discarded);
    SettledTally(a.all, contract);
  }

  // ------------------------------------------------------------------- end to end

  lemma {:induction false} UniqueComesFrom(rows: seq<Call>, c: Call)
    requires c in Unique(rows)
    ensures c in rows
  {
    UniqueKeepsStanding(rows, c);
  }

  /** Deduplicating a deduplicated ledger changes nothing. */
  lemma DedupeIsStable(calls: seq<Call>)
    ensures Dedupe(Dedupe(calls)) == Dedupe(calls)
  {
    hide Unique, Distinct, CanonicalPhase;
    var rows := CanonicalAll(calls);
    forall c | c in Unique(rows)
      ensures Canonical(c) == c
    {
      UniqueComesFrom(rows, c);
      var i :| 0 <= i < |calls| && c == Canonical(calls[i]);
      CanonicalIsStable(calls[i].phase);
    }
    assert CanonicalAll(Unique(rows)) == Unique(rows);
    UniqueIsDistinct(rows);
    UniqueIsStable(Unique(rows));
  }

  /**
    The pipeline's own accounting of durable calls alone always passes the independent check when the
    calls are complete, gapless and of one shape - and never otherwise.
   */
  lemma LedgerReconciles(calls: seq<Call>, ctx: int, rev: Option<int>, written: Written, contract: Option<string>)
    ensures Reconciles(Project(SortPhases(Dedupe(Dedupe(calls) + []), written), ctx, rev), false, contract)
            <==> Reconcilable(Dedupe(calls), contract)
  {
    hide Reconciles, Reconcilable, Project, SortPhases;
    assert Dedupe(calls) + [] == Dedupe(calls);
    DedupeIsStable(calls);
    UniqueIsDistinct(CanonicalAll(calls));
    ProjectionReconciles(Dedupe(calls), ctx, rev, written, contract);
  }
}
