/**
  The independent check of a ledger artifact: exact partition, dispatch identities, retry sequences and
  usage totals, recomputed from the rows.
 */
module Reconciliation {
  import opened Wrappers
  import opened Strings
  import opened UsageTree
  import opened Accounting
  import Ordering

  datatype Part = All | Winning | Discarded

  datatype Error =
    | ContractInvalid | LedgerMissing
    | CallIdInvalid(part: Part) | CallIdDuplicate(part: Part) | Overlap | NotExactPartition | RecordMismatch(part: Part)
    | SchemaRequired | LogicalModelInvalid | BilledModelInvalid | OperationMismatch | DispatchMismatch | TransportInvalid
    | NotCompleted | UsageUnknown | UsageInvalid | BilledContractMismatch
    | SequenceInvalid
    | UsageMismatch(part: Part) | MergeConflicts(part: Part)
    | TallySchema | TallyConflicts | TallyCount(part: Part) | TallyOperations | TallyUnreported | TallyIncomplete

  // ------------------------------------------------------------ rows and identities

  predicate HexDigit(c: char) {
    '0' <= c <= '9' || 'a' <= c <= 'f'
  }

  /** A call id as compared: stripped and in lower case. A digest already is. */
  function IdKey(id: Id): Id {
    match id
    case Text(s) => Text(Lower(Strip(s)))
    case _ => id
  }

  predicate WellFormed(key: Id) {
    match key
    case Text(s) => |s| == 64 && forall i :: 0 <= i < |s| ==> HexDigit(s[i])
    case OperationOf(_) => true
    case CallOf(_, _) => true
  }

  function Key(c: Call): Id {
    IdKey(c.callId)
  }

  function Keys(rows: seq<Call>): seq<Id> {
    seq(|rows|, i requires 0 <= i < |rows| => Key(rows[i]))
  }

  function KeySet(rows: seq<Call>): set<Id> {
    set c | c in rows :: Key(c)
  }

  /** Every row occurs once and its key names no other row. */
  ghost predicate Keyed(rows: seq<Call>) {
    && (forall c :: c in multiset(rows) ==> multiset(rows)[c] == 1)
    && forall c, d :: c in rows && d in rows && Key(c) == Key(d) ==> c == d
  }

  /** Winning and discarded rows are the rows of the whole ledger, each exactly once. */
  ghost predicate ExactPartition(all: seq<Call>, winning: seq<Call>, discarded: seq<Call>) {
    && Keyed(all) && (forall c :: c in all ==> WellFormed(Key(c)))
    && multiset(all) == multiset(winning) + multiset(discarded)
  }

  // ----------------------------------------------------------------- distinct keys

  ghost predicate DistinctKeys(rows: seq<Call>) {
    forall i, j :: 0 <= i < j < |rows| ==> Key(rows[i]) != Key(rows[j])
  }

  lemma InKeySet(rows: seq<Call>, c: Call)
    requires c in rows
    ensures Key(c) in KeySet(rows)
  {
  }

  lemma DistinctKeysStep(rows: seq<Call>)
    requires rows != []
    ensures var front, last := rows[..|rows| - 1], rows[|rows| - 1];
            && KeySet(rows) == KeySet(front) + {Key(last)}
            && (DistinctKeys(rows) <==> DistinctKeys(front) && Key(last) !in KeySet(front))
  {
    hide Key;
    var front, last := rows[..|rows| - 1], rows[|rows| - 1];
    assert forall c :: c in rows <==> c in front || c == last;
    assert forall i :: 0 <= i < |front| ==> rows[i] == front[i] && Key(front[i]) in KeySet(front);
  }

  lemma {:induction false} KeySetSize(rows: seq<Call>)
    ensures |KeySet(rows)| <= |rows|
    ensures |KeySet(rows)| == |rows| <==> DistinctKeys(rows)
  {
    hide Key, KeySet, DistinctKeys;
    if rows == [] {
      NoKeys();
    } else {
      KeySetSize(rows[..|rows| - 1]);
      DistinctKeysStep(rows);
    }
  }

  lemma NoKeys()
    ensures KeySet([]) == {} && DistinctKeys([])
  {
  }

  /** With pairwise different keys a row occurs as often as it is a member: once or never. */
  lemma {:induction false} DistinctOccursOnce(rows: seq<Call>, c: Call)
    requires DistinctKeys(rows)
    ensures multiset(rows)[c] == if c in rows then 1 else 0
  {
    hide Key, KeySet, DistinctKeys;
    if rows != [] {
      var front, last := rows[..|rows| - 1], rows[|rows| - 1];
      assert rows == front + [last];
      DistinctKeysStep(rows);
      DistinctOccursOnce(front, c);
      if c in front { InKeySet(front, c); }
    }
  }

  /** Two rows with one key are either one row twice or two rows that share a key. */
  lemma RepeatIsNotKeyed(rows: seq<Call>, i: nat, j: nat)
    requires i < j < |rows| && Key(rows[i]) == Key(rows[j])
    ensures !Keyed(rows)
  {
    hide Key;
    if rows[i] == rows[j] {
      assert rows == rows[..j] + [rows[j]] + rows[j + 1..];
      assert rows[..j][i] in multiset(rows[..j]);
      assert rows[i] in multiset(rows) && multiset(rows)[rows[i]] >= 2;
    } else {
      assert rows[i] in rows && rows[j] in rows;
    }
  }

  /** The length check on ids is the statement that the rows are keyed. */
  lemma KeyedIsCounted(rows: seq<Call>)
    ensures Keyed(rows) <==> |KeySet(rows)| == |rows|
  {
    hide Key, KeySet;
    KeySetSize(rows);
    if |KeySet(rows)| == |rows| {
      forall c | c in multiset(rows) { DistinctOccursOnce(rows, c); }
    } else {
      var i, j :| 0 <= i < j < |rows| && Key(rows[i]) == Key(rows[j]);
      RepeatIsNotKeyed(rows, i, j);
    }
  }

  lemma KeyedOccurs(rows: seq<Call>, c: Call)
    requires Keyed(rows)
    ensures multiset(rows)[c] == if c in rows then 1 else 0
  {
    assert c in rows <==> c in multiset(rows);
  }

  /** What the checker compares: id sets, and each partition row with the ledger row of the same id. */
  ghost predicate PartitionChecks(all: seq<Call>, winning: seq<Call>, discarded: seq<Call>) {
    && Keyed(all) && Keyed(winning) && Keyed(discarded)
    && (forall c :: c in all ==> WellFormed(Key(c)))
    && (forall c :: c in winning ==> WellFormed(Key(c)))
    && (forall c :: c in discarded ==> WellFormed(Key(c)))
    && KeySet(winning) * KeySet(discarded) == {}
    && KeySet(winning) + KeySet(discarded) == KeySet(all)
    && (forall c, d :: c in winning && d in all && Key(c) == Key(d) ==> c == d)
    && (forall c, d :: c in discarded && d in all && Key(c) == Key(d) ==> c == d)
  }

  /** Comparing ids and rows is exactly comparing the ledgers as multisets of rows. */
  lemma ChecksMeanPartition(all: seq<Call>, winning: seq<Call>, discarded: seq<Call>)
    ensures PartitionChecks(all, winning, discarded) <==> ExactPartition(all, winning, discarded)
  {
    if PartitionChecks(all, winning, discarded) {
      ChecksGivePartition(all, winning, discarded);
    }
    if ExactPartition(all, winning, discarded) {
      PartitionGivesChecks(all, winning, discarded);
    }
  }

  lemma ChecksGivePartition(all: seq<Call>, winning: seq<Call>, discarded: seq<Call>)
    requires PartitionChecks(all, winning, discarded)
    ensures ExactPartition(all, winning, discarded)
  {
    hide Key, WellFormed, PartitionChecks;
    forall c
      ensures multiset(all)[c] == (multiset(winning) + multiset(discarded))[c]
    {
      InOneLedger(all, winning, discarded, c);
    }
    KeyedAll(all, winning, discarded);
  }

  lemma KeyedAll(all: seq<Call>, winning: seq<Call>, discarded: seq<Call>)
    requires PartitionChecks(all, winning, discarded)
    ensures Keyed(all) && forall c :: c in all ==> WellFormed(Key(c))
  {
  }

  lemma InOneLedger(all: seq<Call>, winning: seq<Call>, discarded: seq<Call>, c: Call)
    requires PartitionChecks(all, winning, discarded)
    ensures multiset(all)[c] == multiset(winning)[c] + multiset(discarded)[c]
  {
    hide Key, WellFormed, Keyed;
    KeyedOccurs(all, c);
    KeyedOccurs(winning, c);
    KeyedOccurs(discarded, c);
    assert Key(c) !in KeySet(winning) * KeySet(discarded);
    if c in winning { InKeySet(winning, c); FoundByKey(all, Key(c)); }
    if c in discarded { InKeySet(discarded, c); FoundByKey(all, Key(c)); }
    if c in all {
      InKeySet(all, c);
      if Key(c) in KeySet(winning) {
        var d :| d in winning && Key(d) == Key(c);
        assert d == c;
      } else {
        var d :| d in discarded && Key(d) == Key(c);
        assert d == c;
      }
    }
  }

  lemma FoundByKey(rows: seq<Call>, key: Id)
    requires key in KeySet(rows)
    ensures exists c :: c in rows && Key(c) == key
  {
  }

  lemma PartitionGivesChecks(all: seq<Call>, winning: seq<Call>, discarded: seq<Call>)
    requires ExactPartition(all, winning, discarded)
    ensures PartitionChecks(all, winning, discarded)
  {
    hide Key, WellFormed;
    var w, d, a := multiset(winning), multiset(discarded), multiset(all);
    forall c
      ensures c in winning <==> c in w
      ensures c in discarded <==> c in d
      ensures c in all <==> c in a
      ensures a[c] == w[c] + d[c] <= 1
      ensures c in all <==> c in winning || c in discarded
      ensures !(c in winning && c in discarded)
    {
      KeyedOccurs(all, c);
    }
    forall c, e | c in winning && e in discarded
      ensures Key(c) != Key(e)
    {
      assert c in all && e in all;
    }
    assert forall k :: k in KeySet(all) <==> k in KeySet(winning) || k in KeySet(discarded);
  }

  method CheckPartition(all: seq<Call>, winning: seq<Call>, discarded: seq<Call>) returns (errors: set<Error>)
    ensures errors == {} <==> ExactPartition(all, winning, discarded)
  {
    hide Key, WellFormed;
    var formatted := CheckIds(All, all);
    errors := formatted;
    var more := CheckIds(Winning, winning);
    errors := errors + more;
    more := CheckIds(Discarded, discarded);
    errors := errors + more;
    if KeySet(winning) * KeySet(discarded) != {} { errors := errors + {Overlap}; }
    if KeySet(winning) + KeySet(discarded) != KeySet(all) { errors := errors + {NotExactPartition}; }
    var canonical: map<Id, Call> := map[];
    for n := 0 to |all|
      invariant forall k :: k in canonical ==> canonical[k] in all[..n] && Key(canonical[k]) == k
      invariant forall i :: 0 <= i < n && WellFormed(Key(all[i])) ==> Key(all[i]) in canonical
    {
      var key := Key(all[n]);
      if WellFormed(key) && key !in canonical { canonical := canonical[key := all[n]]; }
    }
    if formatted == {} { CanonicalRows(all, canonical); }
    var mismatch := CheckRecords(Winning, winning, canonical);
    errors := errors + mismatch;
    mismatch := CheckRecords(Discarded, discarded, canonical);
    errors := errors + mismatch;
    ChecksMeanPartition(all, winning, discarded);
  }

  method CheckIds(part: Part, rows: seq<Call>) returns (errors: set<Error>)
    ensures errors == {} <==> Keyed(rows) && forall c :: c in rows ==> WellFormed(Key(c))
  {
    hide Key, WellFormed;
    errors := {};
    if exists c :: c in rows && !WellFormed(Key(c)) { errors := errors + {CallIdInvalid(part)}; }
    KeyedIsCounted(rows);
    if |rows| != |KeySet(rows)| { errors := errors + {CallIdDuplicate(part)}; }
  }

  lemma CanonicalRows(all: seq<Call>, canonical: map<Id, Call>)
    requires Keyed(all) && forall c :: c in all ==> WellFormed(Key(c))
    requires forall k :: k in canonical ==> canonical[k] in all && Key(canonical[k]) == k
    requires forall i :: 0 <= i < |all| && WellFormed(Key(all[i])) ==> Key(all[i]) in canonical
    ensures forall d :: d in all ==> Key(d) in canonical && canonical[Key(d)] == d
  {
    hide Key, WellFormed;
  }

  method CheckRecords(part: Part, rows: seq<Call>, canonical: map<Id, Call>) returns (errors: set<Error>)
    ensures errors == {} <==> forall c :: c in rows && Key(c) in canonical ==> canonical[Key(c)] == c
  {
    hide Key;
    errors := {};
    for n := 0 to |rows|
      invariant errors == {} <==> forall i :: 0 <= i < n && Key(rows[i]) in canonical ==> canonical[Key(rows[i])] == rows[i]
    {
      var key := Key(rows[n]);
      if key in canonical && canonical[key] != rows[n] { errors := errors + {RecordMismatch(part)}; }
    }
  }

  // ------------------------------------------------------------------- single rows

  /** `billed_model_matches_transport_contract`; no contract means an offline reader. */
  predicate ContractMet(c: Call, contract: Option<string>) {
    contract.None?
    || (Strip(contract.value) == contract.value
        && var expected := if contract.value != "" then contract.value else c.logicalModel;
           expected != "" && c.billedModel == expected)
  }

  /** The identity and dispatch facts of one row; an old schema stops the check at once. */
  function DispatchErrors(c: Call): (errors: set<Error>)
    ensures errors == {} <==> Dispatched(c)
  {
    if c.schema != 2 then {SchemaRequired}
    else
      (if c.model == "" || c.model != c.logicalModel then {LogicalModelInvalid} else {})
      + (if c.billedModel == "" then {BilledModelInvalid} else {})
      + (if c.operationId != OperationOf(c.Where()) then {OperationMismatch} else {})
      + (if c.callId != CallOf(c.operationId, c.transportIndex) then {DispatchMismatch} else {})
      + (if c.transportIndex < 1 || c.dispatchCount != 1 || c.attemptCount != 1 then {TransportInvalid} else {})
  }

  /** A paid dispatch whose ids are the digests of its own coordinates. */
  predicate Dispatched(c: Call) {
    && c.schema == 2
    && c.model == c.logicalModel != "" && c.billedModel != ""
    && c.operationId == OperationOf(c.Where()) && c.callId == CallOf(c.operationId, c.transportIndex)
    && c.transportIndex >= 1 && c.dispatchCount == 1 && c.attemptCount == 1
  }

  predicate Settled(c: Call, contract: Option<string>) {
    Dispatched(c) && c.status == "completed" && c.usageState == "reported" && c.usage.Node? && ContractMet(c, contract)
  }

  method CheckRows(rows: seq<Call>, contract: Option<string>) returns (errors: set<Error>)
    ensures errors == {} <==> forall c :: c in rows ==> Settled(c, contract)
  {
    hide Dispatched, ContractMet, DispatchErrors;
    errors := {};
    for n := 0 to |rows|
      invariant errors == {} <==> forall i :: 0 <= i < n ==> Settled(rows[i], contract)
    {
      var c := rows[n];
      errors := errors + DispatchErrors(c);
      if c.status != "completed" { errors := errors + {NotCompleted}; }
      if c.usageState != "reported" { errors := errors + {UsageUnknown}; }
      if !c.usage.Node? { errors := errors + {UsageInvalid}; }
      if !ContractMet(c, contract) { errors := errors + {BilledContractMismatch}; }
    }
  }

  // --------------------------------------------------------------- retry sequences

  ghost predicate HasIndex(rows: seq<Call>, operation: Id, x: int) {
    exists c :: c in rows && c.operationId == operation && c.transportIndex == x
  }

  /** A later transport attempt cannot exist without the one before it. */
  ghost predicate NoGaps(rows: seq<Call>) {
    forall c :: c in rows ==>
      && c.transportIndex >= 1
      && (c.transportIndex > 1 ==> HasIndex(rows, c.operationId, c.transportIndex - 1))
  }

  /** The transport indexes of one operation, in ledger order. */
  function Indexes(rows: seq<Call>, operation: Id): seq<int> {
    if rows == [] then []
    else
      var front, last := Indexes(rows[..|rows| - 1], operation), rows[|rows| - 1];
      if last.operationId == operation then front + [last.transportIndex] else front
  }

  function Range(n: nat): seq<int> {
    seq(n, i => i + 1)
  }

  function Plain(i: int): Ordering.SortKey {
    [Ordering.Num(i)]
  }

  predicate IsOneToN(indexes: seq<int>) {
    Ordering.Sort(indexes, Plain) == Range(|indexes|)
  }

  method CheckSequences(rows: seq<Call>) returns (errors: set<Error>)
    ensures errors == {} <==> forall c :: c in rows && c.operationId != NO_ID ==> IsOneToN(Indexes(rows, c.operationId))
  {
    hide IsOneToN;
    var indexes: map<Id, seq<int>> := map[];
    for n := 0 to |rows|
      invariant forall id :: id in indexes ==> indexes[id] == Indexes(rows[..n], id)
      invariant forall id :: id !in indexes && id != NO_ID ==> Indexes(rows[..n], id) == []
      invariant forall id :: id in indexes <==> id != NO_ID && exists i :: 0 <= i < n && rows[i].operationId == id
    {
      assert rows[..n + 1][..n] == rows[..n];
      var id := rows[n].operationId;
      if id != NO_ID {
        var known := if id in indexes then indexes[id] else [];
        indexes := indexes[id := known + [rows[n].transportIndex]];
      }
    }
    assert rows[..|rows|] == rows;
    errors := if exists id :: id in indexes && !IsOneToN(indexes[id]) then {SequenceInvalid} else {};
    forall c | c in rows && c.operationId != NO_ID
      ensures c.operationId in indexes
    {
      var i :| 0 <= i < |rows| && rows[i] == c;
    }
  }

  lemma RangeIsSorted(n: nat)
    ensures Ordering.Ascending(Range(n), Plain)
  {
  }

  /** Sorting to 1..n is holding the numbers 1..n, each once. */
  lemma OneToNCounts(indexes: seq<int>)
    ensures IsOneToN(indexes) <==> multiset(indexes) == multiset(Range(|indexes|))
  {
    hide Ordering.Sort, Ordering.CompareKey;
    Ordering.SortSorts(indexes, Plain);
    if multiset(indexes) == multiset(Range(|indexes|)) {
      RangeIsSorted(|indexes|);
      Ordering.OneOrder(Ordering.Sort(indexes, Plain), Range(|indexes|), Plain);
    }
  }

  lemma {:induction false} IndexMembers(rows: seq<Call>, operation: Id, x: int)
    ensures x in Indexes(rows, operation) <==> HasIndex(rows, operation, x)
  {
    if rows != [] {
      var front, last := rows[..|rows| - 1], rows[|rows| - 1];
      IndexMembers(front, operation, x);
      assert forall c :: c in rows <==> c in front || c == last;
    }
  }

  ghost predicate Once(xs: seq<int>) {
    forall i, j :: 0 <= i < j < |xs| ==> xs[i] != xs[j]
  }

  /** Dispatched rows with different ids never repeat a transport index of one operation. */
  lemma {:induction false} IndexesOccurOnce(rows: seq<Call>, operation: Id)
    requires DistinctKeys(rows) && forall c :: c in rows ==> Dispatched(c)
    ensures Once(Indexes(rows, operation))
  {
    hide KeySet;
    if rows != [] {
      var front, last := rows[..|rows| - 1], rows[|rows| - 1];
      IndexesOccurOnce(front, operation);
      if last.operationId == operation {
        IndexMembers(front, operation, last.transportIndex);
        forall c | c in front && c.operationId == operation
          ensures c.transportIndex != last.transportIndex
        {
          var i :| 0 <= i < |front| && front[i] == c;
          assert Key(rows[i]) != Key(rows[|rows| - 1]);
          assert c in rows && last in rows;
        }
      }
    }
  }

  ghost predicate DownClosed(xs: seq<int>) {
    forall x :: x in xs ==> x >= 1 && (x > 1 ==> x - 1 in xs)
  }

  lemma {:induction false} OnceOccurs(xs: seq<int>, x: int)
    requires Once(xs)
    ensures multiset(xs)[x] == if x in xs then 1 else 0
    ensures |set y | y in xs| == |xs|
  {
    if xs != [] {
      var front, last := xs[..|xs| - 1], xs[|xs| - 1];
      assert xs == front + [last];
      OnceOccurs(front, x);
      assert (set y | y in xs) == (set y | y in front) + {last};
    }
  }

  lemma {:induction false} DownTo(xs: seq<int>, x: int, y: int)
    requires DownClosed(xs) && x in xs && 1 <= y <= x
    ensures y in xs
    decreases x
  {
    if y < x { DownTo(xs, x - 1, y); }
  }

  function FirstPositives(n: nat): (r: set<int>)
    ensures |r| == n && forall i :: i in r <==> 1 <= i <= n
  {
    if n == 0 then {} else FirstPositives(n - 1) + {n}
  }

  lemma SubsetSize(small: set<int>, large: set<int>)
    requires small <= large
    ensures |small| <= |large| && (|small| == |large| ==> small == large)
  {
    assert |large - small| == |large| - |small|;
  }

  /** Distinct positive numbers without a gap below any of them are exactly 1..n. */
  lemma DownClosedIsRange(xs: seq<int>)
    requires Once(xs)
    ensures DownClosed(xs) <==> multiset(xs) == multiset(Range(|xs|))
  {
    var n := |xs|;
    var members := set y | y in xs;
    OnceOccurs(xs, 0);
    if DownClosed(xs) {
      forall x | x in xs
        ensures 1 <= x <= n
      {
        forall y | 1 <= y <= x { DownTo(xs, x, y); }
        SubsetSize(FirstPositives(x), members);
      }
      SubsetSize(members, FirstPositives(n));
      forall x
        ensures multiset(xs)[x] == multiset(Range(n))[x]
      {
        OnceOccurs(xs, x);
        RangeOccurs(n, x);
        assert x in xs <==> x in members;
      }
    } else if multiset(xs) == multiset(Range(n)) {
      RangeIsDownClosed(xs, Range(n));
    }
  }

  lemma RangeOccurs(n: nat, x: int)
    ensures multiset(Range(n))[x] == if 1 <= x <= n then 1 else 0
  {
    OnceOccurs(Range(n), x);
    if 1 <= x <= n { assert Range(n)[x - 1] == x; }
  }

  lemma RangeIsDownClosed(xs: seq<int>, ys: seq<int>)
    requires multiset(xs) == multiset(ys) && ys == Range(|ys|)
    ensures DownClosed(xs)
  {
    forall x
      ensures x in xs <==> 1 <= x <= |ys|
    {
      RangeOccurs(|ys|, x);
      assert x in xs <==> x in multiset(xs);
    }
  }

  /** For dispatched rows with different ids, sorted indexes equal to 1..n mean that no attempt is missing. */
  lemma SequencesMeanNoGaps(rows: seq<Call>)
    requires Keyed(rows) && forall c :: c in rows ==> Dispatched(c)
    ensures NoGaps(rows) <==> forall c :: c in rows && c.operationId != NO_ID ==> IsOneToN(Indexes(rows, c.operationId))
  {
    hide IsOneToN, Once, DownClosed, Dispatched;
    KeyedIsCounted(rows);
    KeySetSize(rows);
    forall c | c in rows
      ensures c.operationId != NO_ID
      ensures IsOneToN(Indexes(rows, c.operationId)) <==> DownClosed(Indexes(rows, c.operationId))
    {
      HasOperation(c);
      IndexesOccurOnce(rows, c.operationId);
      OneToNCounts(Indexes(rows, c.operationId));
      DownClosedIsRange(Indexes(rows, c.operationId));
    }
    NoGapsIsDownClosed(rows);
  }

  lemma HasOperation(c: Call)
    requires Dispatched(c)
    ensures c.operationId != NO_ID
  {
  }

  lemma NoGapsIsDownClosed(rows: seq<Call>)
    ensures NoGaps(rows) <==> forall c :: c in rows ==> DownClosed(Indexes(rows, c.operationId))
  {
    hide Indexes;
    if NoGaps(rows) {
      forall c, x | c in rows && x in Indexes(rows, c.operationId)
        ensures x >= 1 && (x > 1 ==> x - 1 in Indexes(rows, c.operationId))
      {
        IndexMembers(rows, c.operationId, x);
        IndexMembers(rows, c.operationId, x - 1);
      }
    } else {
      var c :| c in rows && !(c.transportIndex >= 1
                              && (c.transportIndex > 1 ==> HasIndex(rows, c.operationId, c.transportIndex - 1)));
      assert HasIndex(rows, c.operationId, c.transportIndex);
      IndexMembers(rows, c.operationId, c.transportIndex);
      IndexMembers(rows, c.operationId, c.transportIndex - 1);
      assert !DownClosed(Indexes(rows, c.operationId));
    }
  }

  // ------------------------------------------------------------------ whole verdict

  ghost predicate TotalsHold(rows: seq<Call>, declared: Value) {
    && declared == MergeAll(Contributions(Usages(rows), false))
    && AllConflicts(Contributions(Usages(rows), false)) == {}
  }

  function NamedOperations(rows: seq<Call>): set<Id> {
    set c | c in rows :: c.operationId
  }

  predicate TallyHolds(a: Artifact) {
    && a.tally.allCount == |a.all| && a.tally.winningCount == |a.winning| && a.tally.discardedCount == |a.discarded|
    && a.tally.unreported == 0 && a.tally.complete
    && (a.all != [] ==>
          && a.tally.schema == 2 && a.tally.conflicts == {}
          && a.tally.operationCount == |NamedOperations(a.all)|)
  }

  predicate ContractReadable(contract: Option<string>) {
    contract.Some? ==> Strip(contract.value) == contract.value
  }

  /** What a valid verdict means. */
  ghost predicate Reconciles(a: Artifact, allowZero: bool, contract: Option<string>) {
    && ContractReadable(contract)
    && (a.all != [] || allowZero)
    && ExactPartition(a.all, a.winning, a.discarded)
    && (forall c :: c in a.all ==> Settled(c, contract))
    && NoGaps(a.all)
    && TotalsHold(a.all, a.total) && TotalsHold(a.winning, a.winningTotal) && TotalsHold(a.discarded, a.discardedTotal)
    && TallyHolds(a)
  }

  method CheckTotal(part: Part, rows: seq<Call>, declared: Value) returns (errors: set<Error>)
    ensures errors == {} <==> TotalsHold(rows, declared)
  {
    var usage, conflicts := MergedUsage(Usages(rows), false);
    errors := if declared != usage then {UsageMismatch(part)} else {};
    if conflicts != {} { errors := errors + {MergeConflicts(part)}; }
  }

  method CheckTally(a: Artifact) returns (errors: set<Error>)
    ensures errors == {} <==> TallyHolds(a)
  {
    errors := {};
    if a.all != [] && a.tally.schema != 2 { errors := errors + {TallySchema}; }
    if a.all != [] && a.tally.conflicts != {} { errors := errors + {TallyConflicts}; }
    if a.all != [] && a.tally.operationCount != |NamedOperations(a.all)| { errors := errors + {TallyOperations}; }
    if a.tally.allCount != |a.all| { errors := errors + {TallyCount(All)}; }
    if a.tally.winningCount != |a.winning| { errors := errors + {TallyCount(Winning)}; }
    if a.tally.discardedCount != |a.discarded| { errors := errors + {TallyCount(Discarded)}; }
    if a.tally.unreported != 0 { errors := errors + {TallyUnreported}; }
    if !a.tally.complete { errors := errors + {TallyIncomplete}; }
  }

  /** `reconcile_provider_accounting` for schema 2: no error is left exactly when the artifact reconciles. */
  method ReconcileProviderAccounting(a: Artifact, allowZero: bool, contract: Option<string>)
    returns (errors: set<Error>)
    ensures errors == {} <==> Reconciles(a, allowZero, contract)
  {
    hide ExactPartition, Settled, NoGaps, TotalsHold, TallyHolds, IsOneToN;
    errors := {};
    if !ContractReadable(contract) { errors := errors + {ContractInvalid}; }
    if a.all == [] && !allowZero { errors := errors + {LedgerMissing}; }
    var partition := CheckPartition(a.all, a.winning, a.discarded);
    var rows := CheckRows(a.all, contract);
    var sequences := CheckSequences(a.all);
    var total := CheckTotal(All, a.all, a.total);
    var winning := CheckTotal(Winning, a.winning, a.winningTotal);
    var discarded := CheckTotal(Discarded, a.discarded, a.discardedTotal);
    var tally := CheckTally(a);
    errors := errors + partition + rows + sequences + total + winning + discarded + tally;
    if partition == {} && rows == {} { SettledSequences(a, contract); }
  }

  lemma SettledSequences(a: Artifact, contract: Option<string>)
    requires ExactPartition(a.all, a.winning, a.discarded) && forall c :: c in a.all ==> Settled(c, contract)
    ensures NoGaps(a.all) <==>
            forall c :: c in a.all && c.operationId != NO_ID ==> IsOneToN(Indexes(a.all, c.operationId))
  {
    SequencesMeanNoGaps(a.all);
  }
}
