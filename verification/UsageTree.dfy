/**
  Provider usage: nested token counts, filtered to numeric leaves and summed shape by shape.

  A JSON object is a map, so the order of its keys is not represented. Amounts are exact integers.
 */
module UsageTree {
  import opened Wrappers

  datatype Value =
    | Number(n: int)
    | Node(fields: map<string, Value>)
    | Other                              // booleans, strings, lists and null

  const EMPTY := Node(map[])

  predicate Letter(c: char) {
    'a' <= c <= 'z' || 'A' <= c <= 'Z'
  }

  predicate KeyChar(c: char) {
    Letter(c) || '0' <= c <= '9' || c == '_' || c == '.' || c == '-'
  }

  /** The key patterns of the two filters; the pipeline's is the stricter one. */
  predicate KeyAllowed(key: string, strict: bool) {
    && key != ""
    && (strict ==> Letter(key[0]) && |key| <= 96)
    && forall i :: 0 <= i < |key| ==> KeyChar(key[i])
  }

  /** Non-negative numeric leaves under well-formed keys; everything else is dropped. */
  function Numeric(v: Value, strict: bool): (r: Option<Value>)
    ensures v.Node? ==> r.Some? && r.value.Node?
    decreases v
  {
    match v
    case Number(n) => if n < 0 then None else Some(v)
    case Other => None
    case Node(fields) =>
      Some(Node(map k | k in fields && KeyAllowed(k, strict) && Worth(Numeric(fields[k], strict))
                  :: Numeric(fields[k], strict).value))
  }

  predicate Worth(child: Option<Value>) {
    child.Some? && child.value != EMPTY
  }

  /** A tree that every filter keeps as it is. */
  predicate Clean(v: Value) {
    match v
    case Number(n) => n >= 0
    case Other => false
    case Node(fields) => forall k :: k in fields ==> KeyAllowed(k, true) && fields[k] != EMPTY && Clean(fields[k])
  }

  lemma {:induction false} FilterIsClean(v: Value)
    ensures Numeric(v, true).Some? ==> Clean(Numeric(v, true).value)
  {
    if v.Node? {
      forall k | k in v.fields { FilterIsClean(v.fields[k]); }
    }
  }

  /** Filtering again, with either key pattern, changes nothing. */
  lemma {:induction false} CleanIsKept(v: Value, strict: bool)
    requires Clean(v)
    ensures Numeric(v, strict) == Some(v)
  {
    if v.Node? {
      forall k | k in v.fields { CleanIsKept(v.fields[k], strict); }
      assert Numeric(v, strict).value.fields == v.fields;
    }
  }

  // ---------------------------------------------------------------------- merging

  /** The merge of one record into a running total; a shape conflict keeps the total's value. */
  function Join(x: Value, y: Value): Value {
    if x.Node? && y.Node? then
      Node(map k | k in x.fields.Keys + y.fields.Keys ::
             if k !in x.fields then y.fields[k]
             else if k !in y.fields then x.fields[k]
             else Join(x.fields[k], y.fields[k]))
    else if x.Number? && y.Number? then Number(x.n + y.n)
    else x
  }

  /** The paths at which the shapes of two trees disagree. */
  function Conflicts(x: Value, y: Value): set<seq<string>> {
    if x.Node? && y.Node? then
      set k, p | k in x.fields.Keys * y.fields.Keys && p in Conflicts(x.fields[k], y.fields[k]) :: [k] + p
    else if x.Number? && y.Number? then {}
    else {[]}
  }

  /** Two trees with the same shape wherever they overlap. */
  predicate Compatible(x: Value, y: Value) {
    || (x.Number? && y.Number?)
    || (x.Node? && y.Node? && forall k :: k in x.fields && k in y.fields ==> Compatible(x.fields[k], y.fields[k]))
  }

  lemma {:induction false} NoConflictMeansCompatible(x: Value, y: Value)
    ensures Conflicts(x, y) == {} <==> Compatible(x, y)
  {
    if x.Node? && y.Node? {
      forall k | k in x.fields && k in y.fields
        ensures Conflicts(x.fields[k], y.fields[k]) == {} <==> Compatible(x.fields[k], y.fields[k])
      {
        NoConflictMeansCompatible(x.fields[k], y.fields[k]);
      }
      if Conflicts(x, y) == {} {
        forall k | k in x.fields && k in y.fields
          ensures Conflicts(x.fields[k], y.fields[k]) == {}
        {
          if p :| p in Conflicts(x.fields[k], y.fields[k]) { assert [k] + p in Conflicts(x, y); }
        }
      }
    }
  }

  /** One path of a conflict, read from its first key. */
  predicate ConflictAt(x: Value, y: Value, path: seq<string>)
    requires x.Node? && y.Node?
  {
    && path != [] && path[0] in x.fields && path[0] in y.fields
    && path[1..] in Conflicts(x.fields[path[0]], y.fields[path[0]])
  }

  lemma ConflictPaths(x: Value, y: Value, path: seq<string>)
    requires x.Node? && y.Node?
    ensures path in Conflicts(x, y) <==> ConflictAt(x, y, path)
  {
    if ConflictAt(x, y, path) { assert path == [path[0]] + path[1..]; }
  }

  /** The merge as far as the keys in done are concerned. */
  ghost predicate MergedOn(x: Value, y: Value, done: set<string>, fields: map<string, Value>, conflicts: set<seq<string>>)
    requires x.Node? && y.Node?
  {
    && fields.Keys == x.fields.Keys + done
    && (forall k :: k in x.fields && k !in done ==> fields[k] == x.fields[k])
    && (forall k :: k in y.fields && k in done ==>
          fields[k] == if k in x.fields then Join(x.fields[k], y.fields[k]) else y.fields[k])
    && forall p :: p in conflicts <==> ConflictAt(x, y, p) && p[0] in done
  }

  lemma MergedOnAll(x: Value, y: Value, fields: map<string, Value>, conflicts: set<seq<string>>)
    requires x.Node? && y.Node? && MergedOn(x, y, y.fields.Keys, fields, conflicts)
    ensures Node(fields) == Join(x, y) && conflicts == Conflicts(x, y)
  {
    assert fields == Join(x, y).fields;
    forall p { ConflictPaths(x, y, p); }
  }

  lemma MergedOnMore(x: Value, y: Value, done: set<string>, fields: map<string, Value>, conflicts: set<seq<string>>,
                     key: string, value: Value, more: set<seq<string>>)
    requires x.Node? && y.Node? && key in y.fields && key !in done && done <= y.fields.Keys
    requires MergedOn(x, y, done, fields, conflicts)
    requires if key in x.fields then value == Join(x.fields[key], y.fields[key]) else value == y.fields[key]
    requires more == if key in x.fields then Prefixed(key, Conflicts(x.fields[key], y.fields[key])) else {}
    ensures MergedOn(x, y, done + {key}, fields[key := value], conflicts + more)
  {
    hide Join, Conflicts;
  }

  /** `merge_numeric_tree`: walks the incoming keys and changes the target key by key. */
  method MergeNumericTree(target: Value, incoming: Value) returns (merged: Value, conflicts: set<seq<string>>)
    requires target.Node? && incoming.Node?
    ensures merged == Join(target, incoming)
    ensures conflicts == Conflicts(target, incoming)
    decreases incoming, 0
  {
    hide Join, Conflicts;
    var fields := target.fields;
    conflicts := {};
    var todo := incoming.fields.Keys;
    while todo != {}
      invariant todo <= incoming.fields.Keys
      invariant MergedOn(target, incoming, incoming.fields.Keys - todo, fields, conflicts)
      decreases |todo|
    {
      var key :| key in todo;
      var value := incoming.fields[key];
      var more := {};
      if key in fields {
        var paths;
        value, paths := MergeNumericValue(fields[key], value);
        more := Prefixed(key, paths);
      }
      MergedOnMore(target, incoming, incoming.fields.Keys - todo, fields, conflicts, key, value, more);
      assert incoming.fields.Keys - (todo - {key}) == (incoming.fields.Keys - todo) + {key};
      fields, conflicts := fields[key := value], conflicts + more;
      todo := todo - {key};
    }
    merged := Node(fields);
    assert incoming.fields.Keys - todo == incoming.fields.Keys;
    MergedOnAll(target, incoming, fields, conflicts);
  }

  /** The branch taken for a key that both trees have. */
  method MergeNumericValue(current: Value, value: Value) returns (merged: Value, conflicts: set<seq<string>>)
    ensures merged == Join(current, value) && conflicts == Conflicts(current, value)
    decreases value, 1
  {
    merged, conflicts := current, {};
    if current.Node? && value.Node? {
      merged, conflicts := MergeNumericTree(current, value);
    } else if current.Number? && value.Number? {
      merged := Number(current.n + value.n);
    } else {
      conflicts := {[]};
    }
  }

  function Prefixed(key: string, paths: set<seq<string>>): (r: set<seq<string>>)
    ensures forall p :: p in r <==> p != [] && p[0] == key && p[1..] in paths
  {
    var r := set p | p in paths :: [key] + p;
    assert forall p :: p != [] && p[0] == key && p[1..] in paths ==> p == [key] + p[1..];
    r
  }

  // ------------------------------------------------------------------ leaf amounts

  /** The amount a tree holds at a path; zero when there is no leaf there. */
  function LeafAt(v: Value, path: seq<string>): int {
    match v
    case Number(n) => if path == [] then n else 0
    case Node(fields) => if path != [] && path[0] in fields then LeafAt(fields[path[0]], path[1..]) else 0
    case Other => 0
  }

  lemma {:induction false} JoinAddsLeaves(x: Value, y: Value, path: seq<string>)
    requires Compatible(x, y)
    ensures LeafAt(Join(x, y), path) == LeafAt(x, path) + LeafAt(y, path)
    decreases |path|
  {
    if x.Node? && path != [] && path[0] in x.fields && path[0] in y.fields {
      JoinAddsLeaves(x.fields[path[0]], y.fields[path[0]], path[1..]);
    }
  }

  lemma {:induction false} CompatibleWithJoin(x: Value, y: Value, z: Value)
    requires Compatible(x, y)
    ensures Compatible(Join(x, y), z) <==> Compatible(x, z) && Compatible(y, z)
  {
    if x.Node? && z.Node? {
      var joined := Join(x, y).fields;
      forall k | k in x.fields && k in y.fields && k in z.fields
        ensures Compatible(joined[k], z.fields[k])
                <==> Compatible(x.fields[k], z.fields[k]) && Compatible(y.fields[k], z.fields[k])
      {
        CompatibleWithJoin(x.fields[k], y.fields[k], z.fields[k]);
      }
      assert forall k :: k in x.fields && k !in y.fields ==> joined[k] == x.fields[k];
      assert forall k :: k in y.fields && k !in x.fields ==> joined[k] == y.fields[k];
    }
  }

  lemma {:induction false} CompatibleIsSymmetric(x: Value, y: Value)
    requires Compatible(x, y)
    ensures Compatible(y, x)
  {
    if x.Node? {
      forall k | k in x.fields && k in y.fields { CompatibleIsSymmetric(x.fields[k], y.fields[k]); }
    }
  }

  lemma {:induction false} CleanIsSelfCompatible(v: Value)
    requires Clean(v)
    ensures Compatible(v, v)
  {
    if v.Node? {
      forall k | k in v.fields { CleanIsSelfCompatible(v.fields[k]); }
    }
  }

  // ----------------------------------------------------------------------- families

  /** The running total over a sequence of records. */
  function MergeAll(rows: seq<Value>): Value {
    if rows == [] then EMPTY else Join(MergeAll(rows[..|rows| - 1]), rows[|rows| - 1])
  }

  /** Every conflict met while the total was built. */
  function AllConflicts(rows: seq<Value>): set<seq<string>> {
    if rows == [] then {}
    else AllConflicts(rows[..|rows| - 1]) + Conflicts(MergeAll(rows[..|rows| - 1]), rows[|rows| - 1])
  }

  function LeafSum(rows: seq<Value>, path: seq<string>): int {
    if rows == [] then 0 else LeafSum(rows[..|rows| - 1], path) + LeafAt(rows[|rows| - 1], path)
  }

  predicate Trees(rows: seq<Value>) {
    forall v :: v in rows ==> v.Node? && Clean(v)
  }

  predicate Family(rows: seq<Value>) {
    forall a, b :: a in rows && b in rows ==> Compatible(a, b)
  }

  /** Compatibility with the total is compatibility with each record in it. */
  lemma {:induction false} CompatibleWithTotal(rows: seq<Value>, z: Value)
    requires Trees(rows) && z.Node? && AllConflicts(rows) == {}
    ensures Compatible(MergeAll(rows), z) <==> forall a :: a in rows ==> Compatible(a, z)
  {
    if rows != [] {
      var front, last := rows[..|rows| - 1], rows[|rows| - 1];
      CompatibleWithTotal(front, z);
      NoConflictMeansCompatible(MergeAll(front), last);
      CompatibleWithJoin(MergeAll(front), last, z);
      assert forall a :: a in rows <==> a in front || a == last;
    }
  }

  /** A conflict-free merge is exactly a family of pairwise compatible records: the order does not matter. */
  lemma {:induction false} ConflictFreeIsFamily(rows: seq<Value>)
    requires Trees(rows)
    ensures AllConflicts(rows) == {} <==> Family(rows)
  {
    if rows != [] {
      var front, last := rows[..|rows| - 1], rows[|rows| - 1];
      ConflictFreeIsFamily(front);
      NoConflictMeansCompatible(MergeAll(front), last);
      assert forall a :: a in rows <==> a in front || a == last;
      CleanIsSelfCompatible(last);
      if AllConflicts(front) == {} {
        CompatibleWithTotal(front, last);
        forall a | a in front && Compatible(a, last) { CompatibleIsSymmetric(a, last); }
      }
    }
  }

  /** Without conflicts, every leaf of the total is the sum of that leaf over the records. */
  lemma {:induction false} TotalAddsLeaves(rows: seq<Value>, path: seq<string>)
    requires AllConflicts(rows) == {}
    ensures LeafAt(MergeAll(rows), path) == LeafSum(rows, path)
  {
    if rows != [] {
      var front, last := rows[..|rows| - 1], rows[|rows| - 1];
      TotalAddsLeaves(front, path);
      NoConflictMeansCompatible(MergeAll(front), last);
      JoinAddsLeaves(MergeAll(front), last, path);
    }
  }

  /** What one record contributes: its filtered tree, or nothing when it is no mapping at all. */
  function Contribution(usage: Value, strict: bool): Value {
    if usage.Node? then Numeric(usage, strict).value else EMPTY
  }

  function Contributions(rows: seq<Value>, strict: bool): seq<Value> {
    if rows == [] then []
    else Contributions(rows[..|rows| - 1], strict) + [Contribution(rows[|rows| - 1], strict)]
  }

  lemma {:induction false} CleanRowsAreKept(rows: seq<Value>, strict: bool)
    requires Trees(rows)
    ensures Contributions(rows, strict) == rows
  {
    if rows != [] {
      CleanRowsAreKept(rows[..|rows| - 1], strict);
      CleanIsKept(rows[|rows| - 1], strict);
    }
  }

  /** `merged_usage` and `merge_numeric_usage_with_diagnostics`: the loop that builds total and conflicts. */
  method MergedUsage(rows: seq<Value>, strict: bool) returns (total: Value, conflicts: set<seq<string>>)
    ensures total == MergeAll(Contributions(rows, strict))
    ensures conflicts == AllConflicts(Contributions(rows, strict))
  {
    hide Join, Conflicts;
    total, conflicts := EMPTY, {};
    var i := 0;
    while i < |rows|
      invariant 0 <= i <= |rows|
      invariant total.Node?
      invariant total == MergeAll(Contributions(rows[..i], strict))
      invariant conflicts == AllConflicts(Contributions(rows[..i], strict))
    {
      var usage := rows[i];
      ghost var merged := Contributions(rows[..i], strict);
      MergeOneMore(merged, Contribution(usage, strict));
      assert rows[..i + 1][..i] == rows[..i];
      if usage.Node? {
        var found;
        JoinIsNode(total, Numeric(usage, strict).value);
        total, found := MergeNumericTree(total, Numeric(usage, strict).value);
        conflicts := conflicts + found;
      }
      i := i + 1;
    }
    assert rows[..i] == rows;
  }

  lemma JoinIsNode(x: Value, y: Value)
    requires x.Node?
    ensures Join(x, y).Node?
  {
  }

  lemma MergeOneMore(rows: seq<Value>, v: Value)
    ensures MergeAll(rows + [v]) == Join(MergeAll(rows), v)
    ensures AllConflicts(rows + [v]) == AllConflicts(rows) + Conflicts(MergeAll(rows), v)
    ensures MergeAll(rows).Node? && v == EMPTY ==>
              Join(MergeAll(rows), v) == MergeAll(rows) && Conflicts(MergeAll(rows), v) == {}
  {
    assert (rows + [v])[..|rows|] == rows;
    if MergeAll(rows).Node? && v == EMPTY {
      assert Join(MergeAll(rows), v).fields == MergeAll(rows).fields;
    }
  }

  // ----------------------------------------------------------------- token classes

  datatype UsageError = PromptMissing | CompletionMissing | TotalMissing | TotalMismatch

  predicate HasCount(v: Value, key: string) {
    v.Node? && key in v.fields && v.fields[key].Number?
  }

  /** `validate_complete_token_usage`: the retained tree and what it lacks; an absent usage is the empty tree. */
  function ValidateTokenUsage(usage: Value): (r: (Value, set<UsageError>))
    ensures r.0.Node? && Clean(r.0)
    ensures r.1 == {} <==>
            && HasCount(r.0, "prompt_tokens") && HasCount(r.0, "completion_tokens") && HasCount(r.0, "total_tokens")
            && LeafAt(r.0, ["total_tokens"]) == LeafAt(r.0, ["prompt_tokens"]) + LeafAt(r.0, ["completion_tokens"])
  {
    var retained := if usage.Node? then Numeric(usage, true).value else EMPTY;
    FilterIsClean(usage);
    var missing :=
      (if HasCount(retained, "prompt_tokens") then {} else {PromptMissing})
      + (if HasCount(retained, "completion_tokens") then {} else {CompletionMissing})
      + (if HasCount(retained, "total_tokens") then {} else {TotalMissing});
    var mismatch :=
      if missing == {}
         && retained.fields["total_tokens"].n
            != retained.fields["prompt_tokens"].n + retained.fields["completion_tokens"].n
      then {TotalMismatch} else {};
    (retained, missing + mismatch)
  }
}
