/**
  The bounded repair continuation: which validator issues are put to the model again, and the counts
  that describe the choice.
 */
module RepairSelection {
  import opened Wrappers
  import opened Strings
  import opened Ordering

  const MAX_SELECTED_ISSUES := 20
  const MAX_TELEMETRY_ISSUES := 80
  const MAX_LOCATION := 180
  const MAX_MESSAGE := 500
  const MARKER := "...[truncated]"

  datatype Issue = Issue(code: string, location: string, message: string, action: string, priority: int) {
    predicate Repairable() {
      action != "ineligible"
    }

    function Pair(): (string, string) {
      (code, action)
    }

    function Slot(): (string, string, string) {
      (code, action, location)
    }
  }

  /** `_bounded_text`: stripped, never empty, cut to the limit. */
  function Bounded(value: string, limit: nat): Option<string>
    requires limit >= |MARKER|
  {
    var normalized := Strip(value);
    if normalized == "" then None
    else if |normalized| <= limit then Some(normalized)
    else Some(normalized[..limit - |MARKER|] + MARKER)
  }

  /** The issue constructor; identifiers are taken as already checked. */
  function MakeIssue(code: string, location: string, message: string, action: string, priority: int): Option<Issue> {
    var l, m := Bounded(location, MAX_LOCATION), Bounded(message, MAX_MESSAGE);
    if l.None? || m.None? || !(0 <= priority <= 999) then None
    else Some(Issue(code, l.value, m.value, action, priority))
  }

  /** An issue that the constructor would build again unchanged. */
  predicate Built(i: Issue) {
    MakeIssue(i.code, i.location, i.message, i.action, i.priority) == Some(i)
  }

  // ----------------------------------------------------------- canonical locations

  function DigitRun(s: string): (n: nat)
    ensures n <= |s|
  {
    if s != [] && '0' <= s[0] <= '9' then 1 + DigitRun(s[1..]) else 0
  }

  /** `[12]` becomes `[*]`, everywhere. */
  function CanonicalLocation(s: string): string {
    if s == [] then []
    else
      var run := DigitRun(s[1..]);
      if s[0] == '[' && run > 0 && run + 1 < |s| && s[run + 1] == ']'
      then "[*]" + CanonicalLocation(s[run + 2..])
      else [s[0]] + CanonicalLocation(s[1..])
  }

  /** Canonical locations never grow and keep both end characters. */
  lemma {:induction false} CanonicalEnds(s: string)
    ensures |CanonicalLocation(s)| <= |s|
    ensures s != [] ==>
              var c := CanonicalLocation(s);
              c != [] && c[0] == s[0] && c[|c| - 1] == s[|s| - 1]
  {
    if s != [] {
      var run := DigitRun(s[1..]);
      if s[0] == '[' && run > 0 && run + 1 < |s| && s[run + 1] == ']' {
        CanonicalEnds(s[run + 2..]);
      } else {
        CanonicalEnds(s[1..]);
      }
    }
  }

  lemma StripKeeps(s: string)
    ensures Strip(s) == s <==> s == [] || (!Space(s[0]) && !Space(s[|s| - 1]))
  {
    StripLeftEnds(s);
    StripRightEnds(StripLeft(s));
    if s != [] && Space(s[0]) { StripLeftShrinks(s); }
  }

  lemma {:induction false} StripLeftShrinks(s: string)
    ensures |StripLeft(s)| <= |s|
  {
    if s != [] { StripLeftShrinks(s[1..]); }
  }

  function Canonical(i: Issue): Issue {
    i.(location := CanonicalLocation(i.location))
  }

  /** Rebuilding an issue at its canonical location neither cuts nor refuses anything. */
  lemma CanonicalIsBuilt(i: Issue)
    requires Built(i)
    ensures MakeIssue(i.code, CanonicalLocation(i.location), i.message, i.action, i.priority) == Some(Canonical(i))
    ensures Built(Canonical(i))
  {
    var l := i.location;
    BuiltIsTrimmed(i);
    CanonicalEnds(l);
    StripKeeps(l);
    StripKeeps(CanonicalLocation(l));
  }

  lemma BoundedIsStable(value: string, limit: nat)
    requires limit >= |MARKER|
    ensures Bounded(value, limit).Some? ==> Bounded(Bounded(value, limit).value, limit) == Bounded(value, limit)
  {
    var n := Strip(value);
    StripIsStable(value);
    if |n| > limit {
      var cut := n[..limit - |MARKER|] + MARKER;
      StripLeftShrinks(value);
      StripLeftEnds(value);
      StripRightEnds(StripLeft(value));
      assert n[0] == StripLeft(value)[0];
      StripKeeps(cut);
    }
  }

  /** What the constructor makes, it would make again unchanged. */
  lemma MadeIsBuilt(code: string, location: string, message: string, action: string, priority: int)
    ensures var made := MakeIssue(code, location, message, action, priority);
            made.Some? ==> Built(made.value)
  {
    BoundedIsStable(location, MAX_LOCATION);
    BoundedIsStable(message, MAX_MESSAGE);
  }

  lemma BuiltIsTrimmed(i: Issue)
    requires Built(i)
    ensures Strip(i.location) == i.location != "" && |i.location| <= MAX_LOCATION
  {
    StripIsStable(i.location);
    var n := Strip(i.location);
    if |n| > MAX_LOCATION {
      assert i.location == n[..MAX_LOCATION - |MARKER|] + MARKER;
      StripLeftShrinks(i.location);
      StripRightEnds(StripLeft(i.location));
    }
  }

  // ------------------------------------------------------------------------- order

  function Rank(i: Issue): int {
    if !i.Repairable() then 2 else if i.action == "repair_contract" then 1 else 0
  }

  function IssueKey(i: Issue): SortKey {
    [Num(i.priority), Num(Rank(i)), Text(i.code), Text(i.action), Text(i.location), Text(i.message)]
  }

  lemma IssueKeyDecides(i: Issue, j: Issue)
    requires IssueKey(i) == IssueKey(j)
    ensures i == j
  {
    assert IssueKey(i)[0] == IssueKey(j)[0] && IssueKey(i)[2] == IssueKey(j)[2] && IssueKey(i)[3] == IssueKey(j)[3];
    assert IssueKey(i)[4] == IssueKey(j)[4] && IssueKey(i)[5] == IssueKey(j)[5];
  }

  predicate NotAfter(i: Issue, j: Issue) {
    Le(IssueKey(i), IssueKey(j))
  }

  lemma NotAfterIsTotal(i: Issue, j: Issue)
    ensures NotAfter(i, j) || NotAfter(j, i)
    ensures NotAfter(i, j) && NotAfter(j, i) ==> i == j
    ensures CompareKey(IssueKey(i), IssueKey(j)) < 0 <==> !NotAfter(j, i)
  {
    KeyOrder(IssueKey(i), IssueKey(j));
    if NotAfter(i, j) && NotAfter(j, i) { IssueKeyDecides(i, j); }
  }

  // -------------------------------------------------------------------- candidates

  /** A wrong type or enum at a place where the required field itself is missing says nothing new. */
  ghost predicate Suppressed(raw: seq<Issue>, i: Issue) {
    && (i.code == "field_type_invalid" || i.code == "enum_invalid")
    && (Missing(raw, CanonicalLocation(i.location), i.location)
        || Missing(raw, CanonicalLocation(i.location), CanonicalLocation(i.location)))
  }

  ghost predicate Missing(raw: seq<Issue>, canonical: string, location: string) {
    exists m :: m in raw && m.code == "required_field_missing"
                && CanonicalLocation(m.location) == canonical && m.location == location
  }


  /** The least canonical form among the rows that share a slot. */
  ghost predicate Least(rows: seq<Issue>, c: Issue) {
    && (exists i :: i in rows && c == Canonical(i))
    && forall j :: j in rows && Canonical(j).Slot() == c.Slot() ==> NotAfter(c, Canonical(j))
  }

  ghost predicate Relevant(raw: seq<Issue>, filtered: seq<Issue>) {
    forall i :: i in filtered <==> i in raw && !Suppressed(raw, i)
  }

  /** The ranked candidates: one least issue a slot, in ascending order, without repetition. */
  ghost predicate RankedCandidates(filtered: seq<Issue>, candidates: seq<Issue>) {
    && Ascending(candidates, IssueKey)
    && (forall i, j :: 0 <= i < j < |candidates| ==> candidates[i].Slot() != candidates[j].Slot())
    && forall c :: c in candidates <==> Least(filtered, c)
  }

  // ------------------------------------------------------------------------ choice

  function Eligible(candidates: seq<Issue>): seq<Issue> {
    if candidates == [] then []
    else
      var front, last := Eligible(candidates[..|candidates| - 1]), candidates[|candidates| - 1];
      if last.Repairable() then front + [last] else front
  }

  ghost function Pairs(issues: seq<Issue>): set<(string, string)> {
    set i | i in issues :: i.Pair()
  }

  /** The first issue of every (code, action) pair, in order. */
  ghost function Firsts(issues: seq<Issue>): seq<Issue> {
    if issues == [] then []
    else
      var front, last := issues[..|issues| - 1], issues[|issues| - 1];
      if last.Pair() in Pairs(front) then Firsts(front) else Firsts(front) + [last]
  }

  /** All the others, in order. */
  ghost function Rest(issues: seq<Issue>): seq<Issue> {
    if issues == [] then []
    else
      var front, last := issues[..|issues| - 1], issues[|issues| - 1];
      if last.Pair() in Pairs(front) then Rest(front) + [last] else Rest(front)
  }

  function Min(a: nat, b: nat): nat {
    if a <= b then a else b
  }

  /** Breadth over the pairs first, then the remaining ranked locations. */
  ghost function Chosen(eligible: seq<Issue>, max: nat): seq<Issue> {
    var order := Firsts(eligible) + Rest(eligible);
    order[..Min(max, |order|)]
  }

  lemma {:induction false} FirstsAndRest(issues: seq<Issue>)
    ensures multiset(Firsts(issues)) + multiset(Rest(issues)) == multiset(issues)
    ensures |Firsts(issues)| + |Rest(issues)| == |issues|
  {
    if issues != [] {
      var front, last := issues[..|issues| - 1], issues[|issues| - 1];
      FirstsAndRest(front);
      assert issues == front + [last];
    }
  }

  lemma {:induction false} FirstsCoverPairs(issues: seq<Issue>)
    ensures Pairs(Firsts(issues)) == Pairs(issues)
    ensures forall i, j :: 0 <= i < j < |Firsts(issues)| ==> Firsts(issues)[i].Pair() != Firsts(issues)[j].Pair()
  {
    if issues != [] {
      var front, last := issues[..|issues| - 1], issues[|issues| - 1];
      FirstsCoverPairs(front);
      assert forall i :: i in issues <==> i in front || i == last;
      assert Pairs(issues) == Pairs(front) + {last.Pair()};
      if last.Pair() !in Pairs(front) {
        forall i | 0 <= i < |Firsts(front)|
          ensures Firsts(front)[i].Pair() in Pairs(front)
        {
          assert Firsts(front)[i] in Firsts(front);
        }
        assert forall i :: i in Firsts(issues) <==> i in Firsts(front) || i == last;
      }
    }
  }

  /** Choosing from a longer list only appends to the firsts. */
  lemma {:induction false} FirstsGrow(issues: seq<Issue>, n: nat)
    requires n <= |issues|
    ensures Firsts(issues[..n]) <= Firsts(issues)
    decreases |issues|
  {
    if n == |issues| {
      assert issues[..n] == issues;
    } else {
      FirstsGrow(issues[..|issues| - 1], n);
      assert issues[..|issues| - 1][..n] == issues[..n];
    }
  }

  lemma {:induction false} RestGrows(issues: seq<Issue>, n: nat)
    requires n <= |issues|
    ensures Rest(issues[..n]) <= Rest(issues)
    decreases |issues|
  {
    if n == |issues| {
      assert issues[..n] == issues;
    } else {
      RestGrows(issues[..|issues| - 1], n);
      assert issues[..|issues| - 1][..n] == issues[..n];
    }
  }

  lemma MembersSplit(issues: seq<Issue>, i: Issue)
    ensures i in issues <==> i in Firsts(issues) || i in Rest(issues)
  {
    FirstsAndRest(issues);
    assert i in issues <==> i in multiset(issues);
    assert i in Firsts(issues) <==> i in multiset(Firsts(issues));
    assert i in Rest(issues) <==> i in multiset(Rest(issues));
  }

  // ------------------------------------------------------------------ the selection

  type Slot = (string, string, string)

  datatype Selection = Selection(
    selected: seq<Issue>, rawCount: int, candidateCount: int, omittedCount: int, mergedCount: int,
    ineligibleCount: int, omittedCodes: seq<string>, occurrences: seq<seq<string>>)

  ghost function Occurrences(filtered: seq<Issue>, slot: Slot): set<string> {
    set i | i in filtered && Canonical(i).Slot() == slot :: i.location
  }

  function Without(candidates: seq<Issue>, selected: seq<Issue>): seq<Issue> {
    if candidates == [] then []
    else
      var front, last := Without(candidates[..|candidates| - 1], selected), candidates[|candidates| - 1];
      if last in selected then front else front + [last]
  }

  function CodesOf(issues: seq<Issue>): seq<string> {
    if issues == [] then []
    else
      var front, code := CodesOf(issues[..|issues| - 1]), issues[|issues| - 1].code;
      if code in front then front else front + [code]
  }

  function TextKey(s: string): SortKey {
    [Text(s)]
  }

  ghost predicate SortedSet(s: seq<string>, members: set<string>) {
    && Ascending(s, TextKey)
    && (forall i, j :: 0 <= i < j < |s| ==> s[i] != s[j])
    && forall x :: x in s <==> x in members
  }

  /** The selection that the ranked candidates of a ledger determine. */
  ghost predicate Selects(raw: seq<Issue>, filtered: seq<Issue>, candidates: seq<Issue>, max: nat, s: Selection) {
    && Relevant(raw, filtered) && |filtered| <= |raw| && RankedCandidates(filtered, candidates)
    && s.selected == Chosen(Eligible(candidates), max)
    && s.rawCount == |raw| && s.candidateCount == |candidates|
    && s.omittedCount == |Without(candidates, s.selected)|
    && s.mergedCount == |raw| - |candidates|
    && s.ineligibleCount == |candidates| - |Eligible(candidates)|
    && s.omittedCodes == CodesOf(Without(candidates, s.selected))
    && |s.occurrences| == |s.selected|
    && forall i :: 0 <= i < |s.selected| ==> SortedSet(s.occurrences[i], Occurrences(filtered, s.selected[i].Slot()))
  }

  // ------------------------------------------------------------------- its loops

  ghost predicate Tracks(required: map<string, set<string>>, rows: seq<Issue>) {
    forall c, l :: Missing(rows, c, l) <==> c in required && l in required[c]
  }

  function WithMissing(required: map<string, set<string>>, issue: Issue): map<string, set<string>> {
    if issue.code != "required_field_missing" then required
    else
      var k := CanonicalLocation(issue.location);
      required[k := (if k in required then required[k] else {}) + {issue.location}]
  }

  lemma TracksStep(required: map<string, set<string>>, rows: seq<Issue>, issue: Issue)
    requires Tracks(required, rows)
    ensures Tracks(WithMissing(required, issue), rows + [issue])
  {
    hide CanonicalLocation, Missing;
    var more := WithMissing(required, issue);
    forall c, l
      ensures Missing(rows + [issue], c, l) <==> c in more && l in more[c]
    {
      MissingStep(rows, issue, c, l);
    }
  }

  method RequiredOccurrences(raw: seq<Issue>) returns (required: map<string, set<string>>)
    ensures Tracks(required, raw)
  {
    hide CanonicalLocation, Missing, Tracks;
    required := map[];
    TracksNothing();
    for n := 0 to |raw|
      invariant Tracks(required, raw[..n])
    {
      var issue := raw[n];
      assert raw[..n + 1] == raw[..n] + [issue];
      TracksStep(required, raw[..n], issue);
      required := WithMissing(required, issue);
    }
    assert raw[..|raw|] == raw;
  }

  lemma TracksNothing()
    ensures Tracks(map[], [])
  {
  }

  lemma MissingStep(rows: seq<Issue>, issue: Issue, canonical: string, location: string)
    ensures Missing(rows + [issue], canonical, location)
            <==> Missing(rows, canonical, location)
                 || (issue.code == "required_field_missing"
                     && CanonicalLocation(issue.location) == canonical && issue.location == location)
  {
    hide CanonicalLocation;
    assert forall m :: m in rows + [issue] <==> m in rows || m == issue;
  }

  method FilterIssues(raw: seq<Issue>) returns (filtered: seq<Issue>)
    ensures Relevant(raw, filtered) && |filtered| <= |raw|
  {
    hide CanonicalLocation, Missing;
    var required := RequiredOccurrences(raw);
    filtered := [];
    for n := 0 to |raw|
      invariant |filtered| <= n
      invariant forall i :: i in filtered <==> i in raw[..n] && !Suppressed(raw, i)
    {
      var issue := raw[n];
      var canonical := CanonicalLocation(issue.location);
      var missing := if canonical in required then required[canonical] else {};
      if !((issue.code == "field_type_invalid" || issue.code == "enum_invalid")
           && (issue.location in missing || canonical in missing)) {
        filtered := filtered + [issue];
      }
      assert forall i :: i in raw[..n + 1] <==> i in raw[..n] || i == issue;
    }
    assert raw[..|raw|] == raw;
  }

  lemma LeastStep(rows: seq<Issue>, i: Issue, v: Issue)
    requires Least(rows, v) && v.Slot() == Canonical(i).Slot()
    ensures Least(rows + [i], if NotAfter(v, Canonical(i)) then v else Canonical(i))
  {
    hide CanonicalLocation, CompareKey;
    var c := Canonical(i);
    NotAfterIsTotal(v, c);
    var w := if NotAfter(v, c) then v else c;
    forall j | j in rows + [i] && Canonical(j).Slot() == w.Slot()
      ensures NotAfter(w, Canonical(j))
    {
      NotAfterIsTotal(w, w);
      if j in rows && w == c { KeyTransitive(IssueKey(c), IssueKey(v), IssueKey(Canonical(j))); }
    }
    var k :| k in rows && v == Canonical(k);
    assert k in rows + [i] && i in rows + [i];
  }

  lemma LeastFirst(rows: seq<Issue>, i: Issue)
    requires forall j :: j in rows ==> Canonical(j).Slot() != Canonical(i).Slot()
    ensures Least(rows + [i], Canonical(i))
  {
    hide CanonicalLocation, CompareKey;
    NotAfterIsTotal(Canonical(i), Canonical(i));
    assert i in rows + [i];
  }

  lemma LeastElsewhere(rows: seq<Issue>, i: Issue, v: Issue)
    requires Least(rows, v) && v.Slot() != Canonical(i).Slot()
    ensures Least(rows + [i], v)
  {
    hide CanonicalLocation, CompareKey;
    var k :| k in rows && v == Canonical(k);
    assert k in rows + [i];
  }

  ghost predicate Merged(rows: seq<Issue>, bySlot: map<Slot, Issue>, occurrences: map<Slot, set<string>>) {
    && occurrences.Keys == bySlot.Keys
    && (forall i :: i in rows ==> Canonical(i).Slot() in bySlot)
    && (forall slot :: slot in bySlot ==> bySlot[slot].Slot() == slot && Least(rows, bySlot[slot]))
    && forall slot :: slot in bySlot ==> occurrences[slot] == Occurrences(rows, slot)
  }

  lemma OccurrencesStep(rows: seq<Issue>, i: Issue, slot: Slot)
    ensures Occurrences(rows + [i], slot)
            == Occurrences(rows, slot) + if Canonical(i).Slot() == slot then {i.location} else {}
  {
    hide CanonicalLocation;
    assert forall j :: j in rows + [i] <==> j in rows || j == i;
  }

  lemma MergedStep(rows: seq<Issue>, bySlot: map<Slot, Issue>, occurrences: map<Slot, set<string>>, i: Issue)
    requires Merged(rows, bySlot, occurrences)
    ensures var c := Canonical(i);
            var known := if c.Slot() in bySlot then occurrences[c.Slot()] else {};
            var kept := if c.Slot() in bySlot && NotAfter(bySlot[c.Slot()], c) then bySlot[c.Slot()] else c;
            Merged(rows + [i], bySlot[c.Slot() := kept], occurrences[c.Slot() := known + {i.location}])
  {
    hide CanonicalLocation, CompareKey, Least, Occurrences, NotAfter;
    var c := Canonical(i);
    if c.Slot() in bySlot {
      LeastStep(rows, i, bySlot[c.Slot()]);
    } else {
      LeastFirst(rows, i);
      NoOccurrences(rows, c.Slot());
    }
    forall slot | slot in bySlot && slot != c.Slot() { LeastElsewhere(rows, i, bySlot[slot]); }
    forall slot { OccurrencesStep(rows, i, slot); }
    assert forall j :: j in rows + [i] <==> j in rows || j == i;
  }

  lemma NoOccurrences(rows: seq<Issue>, slot: Slot)
    requires forall i :: i in rows ==> Canonical(i).Slot() != slot
    ensures Occurrences(rows, slot) == {}
  {
  }

  /** The dictionary of least issues and original locations, one entry a slot. */
  method MergeBySlot(filtered: seq<Issue>) returns (bySlot: map<Slot, Issue>, occurrences: map<Slot, set<string>>)
    requires forall i :: i in filtered ==> Built(i)
    ensures Merged(filtered, bySlot, occurrences)
  {
    hide CanonicalLocation, Built, Merged, MakeIssue, CompareKey;
    bySlot, occurrences := map[], map[];
    NothingMerged();
    for n := 0 to |filtered|
      invariant Merged(filtered[..n], bySlot, occurrences) && occurrences.Keys == bySlot.Keys
    {
      var issue := filtered[n];
      assert filtered[..n + 1] == filtered[..n] + [issue];
      MergedStep(filtered[..n], bySlot, occurrences, issue);
      CanonicalIsBuilt(issue);
      var location := CanonicalLocation(issue.location);
      var canonical := if location == issue.location then issue
                       else MakeIssue(issue.code, location, issue.message, issue.action, issue.priority).value;
      var slot := canonical.Slot();
      occurrences := occurrences[slot := (if slot in occurrences then occurrences[slot] else {}) + {issue.location}];
      if slot in bySlot { NotAfterIsTotal(canonical, bySlot[slot]); }
      if slot !in bySlot || CompareKey(IssueKey(canonical), IssueKey(bySlot[slot])) < 0 {
        bySlot := bySlot[slot := canonical];
      } else {
        assert bySlot == bySlot[slot := bySlot[slot]];
      }
      MergedKeys(filtered[..n + 1], bySlot, occurrences);
    }
    assert filtered[..|filtered|] == filtered;
  }

  lemma NothingMerged()
    ensures Merged([], map[], map[])
  {
  }

  lemma MergedKeys(rows: seq<Issue>, bySlot: map<Slot, Issue>, occurrences: map<Slot, set<string>>)
    requires Merged(rows, bySlot, occurrences)
    ensures occurrences.Keys == bySlot.Keys
  {
  }

  /** `sorted(canonical_by_key.values())`: one value a slot, ranked. */
  method RankValues(filtered: seq<Issue>, bySlot: map<Slot, Issue>, occurrences: map<Slot, set<string>>)
    returns (candidates: seq<Issue>)
    requires Merged(filtered, bySlot, occurrences)
    ensures RankedCandidates(filtered, candidates) && |candidates| == |bySlot|
  {
    hide Merged, RankedCandidates, SlotsDiffer, Sort, Values;
    var values: seq<Issue> := [];
    var todo := bySlot.Keys;
    NoValues(bySlot);
    while todo != {}
      invariant todo <= bySlot.Keys && |values| + |todo| == |bySlot|
      invariant Values(bySlot, bySlot.Keys - todo, values)
      decreases |todo|
    {
      var slot :| slot in todo;
      MergedSlot(filtered, bySlot, occurrences, slot);
      SlotAppended(bySlot, bySlot.Keys - todo, values, slot);
      assert bySlot.Keys - (todo - {slot}) == (bySlot.Keys - todo) + {slot};
      values := values + [bySlot[slot]];
      todo := todo - {slot};
    }
    assert bySlot.Keys - todo == bySlot.Keys;
    candidates := Sort(values, IssueKey);
    RankedValues(filtered, bySlot, occurrences, values);
  }

  /** The values of the slots in done, one each. */
  ghost predicate Values(bySlot: map<Slot, Issue>, done: set<Slot>, values: seq<Issue>) {
    && SlotsDiffer(values)
    && forall v :: v in values <==> v.Slot() in done && v.Slot() in bySlot && v == bySlot[v.Slot()]
  }

  lemma NoValues(bySlot: map<Slot, Issue>)
    ensures Values(bySlot, bySlot.Keys - bySlot.Keys, [])
  {
  }

  lemma MergedSlot(filtered: seq<Issue>, bySlot: map<Slot, Issue>, occurrences: map<Slot, set<string>>, slot: Slot)
    requires Merged(filtered, bySlot, occurrences) && slot in bySlot
    ensures bySlot[slot].Slot() == slot
  {
  }

  lemma SlotAppended(bySlot: map<Slot, Issue>, done: set<Slot>, values: seq<Issue>, slot: Slot)
    requires Values(bySlot, done, values) && slot in bySlot && slot !in done && bySlot[slot].Slot() == slot
    ensures Values(bySlot, done + {slot}, values + [bySlot[slot]])
  {
    assert forall x :: x in values + [bySlot[slot]] <==> x in values || x == bySlot[slot];
    assert forall i :: 0 <= i < |values| ==> values[i] in values;
  }

  lemma RankedValues(filtered: seq<Issue>, bySlot: map<Slot, Issue>, occurrences: map<Slot, set<string>>,
                     values: seq<Issue>)
    requires Merged(filtered, bySlot, occurrences) && Values(bySlot, bySlot.Keys, values)
    ensures RankedCandidates(filtered, Sort(values, IssueKey)) && |Sort(values, IssueKey)| == |values|
  {
    hide Least, CanonicalLocation, CompareKey, Sort, Occurrences;
    var candidates := Sort(values, IssueKey);
    SortSorts(values, IssueKey);
    SortedSlots(values, candidates);
    forall v
      ensures v in candidates <==> Least(filtered, v)
    {
      SameMembers(values, candidates, v);
      if Least(filtered, v) { LeastIsUnique(filtered, bySlot, occurrences, v); }
    }
    assert |multiset(candidates)| == |multiset(values)|;
  }

  ghost predicate SlotsDiffer(s: seq<Issue>) {
    forall i, j :: 0 <= i < j < |s| ==> s[i].Slot() != s[j].Slot()
  }

  /** A permutation of rows with different slots has different slots. */
  lemma SortedSlots(a: seq<Issue>, b: seq<Issue>)
    requires SlotsDiffer(a) && multiset(a) == multiset(b)
    ensures SlotsDiffer(b)
  {
    forall i, j | 0 <= i < j < |b|
      ensures b[i].Slot() != b[j].Slot()
    {
      SameMembers(a, b, b[i]);
      SameMembers(a, b, b[j]);
      if b[i] == b[j] {
        OccursTwice(b, i, j);
        OccursOnce(a, b[i]);
      }
    }
  }

  lemma {:induction false} OccursOnce(s: seq<Issue>, x: Issue)
    requires SlotsDiffer(s)
    ensures multiset(s)[x] == if x in s then 1 else 0
  {
    if s != [] {
      var front, last := s[..|s| - 1], s[|s| - 1];
      OccursOnce(front, x);
      assert s == front + [last];
      assert forall k :: 0 <= k < |front| ==> s[k] == front[k];
    }
  }

  lemma LeastIsUnique(rows: seq<Issue>, bySlot: map<Slot, Issue>, occurrences: map<Slot, set<string>>, v: Issue)
    requires Merged(rows, bySlot, occurrences) && Least(rows, v)
    ensures v.Slot() in bySlot && bySlot[v.Slot()] == v
  {
    hide CanonicalLocation, CompareKey, Occurrences;
    var i :| i in rows && v == Canonical(i);
    var w := bySlot[v.Slot()];
    var j :| j in rows && w == Canonical(j);
    NotAfterIsTotal(v, w);
  }

  method EligibleIssues(candidates: seq<Issue>) returns (eligible: seq<Issue>)
    ensures eligible == Eligible(candidates)
  {
    eligible := [];
    for n := 0 to |candidates|
      invariant eligible == Eligible(candidates[..n])
    {
      assert candidates[..n + 1][..n] == candidates[..n];
      if candidates[n].Repairable() { eligible := eligible + [candidates[n]]; }
    }
    assert candidates[..|candidates|] == candidates;
  }

  /** The two selection loops. */
  method ChooseIssues(eligible: seq<Issue>, max: nat) returns (selected: seq<Issue>)
    requires max >= 1 && SlotsDiffer(eligible)
    ensures selected == Chosen(eligible, max)
  {
    selected := ChooseFirsts(eligible, max);
    if |selected| < max { selected := ChooseRest(eligible, max, selected); }
    FirstsAndRest(eligible);
    assert |selected| == max ==> selected == Chosen(eligible, max);
  }

  method ChooseFirsts(eligible: seq<Issue>, max: nat) returns (selected: seq<Issue>)
    requires max >= 1
    ensures selected == Firsts(eligible)[..Min(max, |Firsts(eligible)|)]
  {
    selected := [];
    var pairs: set<(string, string)> := {};
    for n := 0 to |eligible|
      invariant selected == Firsts(eligible[..n]) && |selected| < max
      invariant pairs == Pairs(eligible[..n])
    {
      assert eligible[..n + 1][..n] == eligible[..n];
      var issue := eligible[n];
      PairsStep(eligible, n);
      FirstsGrow(eligible, n + 1);
      if issue.Pair() !in pairs {
        selected := selected + [issue];
        pairs := pairs + {issue.Pair()};
        if |selected| == max { return; }
      }
    }
    assert eligible[..|eligible|] == eligible;
  }

  lemma PairsStep(issues: seq<Issue>, n: nat)
    requires n < |issues|
    ensures Pairs(issues[..n + 1]) == Pairs(issues[..n]) + {issues[n].Pair()}
  {
    assert forall i :: i in issues[..n + 1] <==> i in issues[..n] || i == issues[n];
  }

  method ChooseRest(eligible: seq<Issue>, max: nat, firsts: seq<Issue>) returns (selected: seq<Issue>)
    requires firsts == Firsts(eligible) && |firsts| < max && SlotsDiffer(eligible)
    ensures selected == Chosen(eligible, max)
  {
    hide Firsts, Rest, Pairs, Chosen;
    selected := firsts;
    NothingRests(eligible);
    for n := 0 to |eligible|
      invariant selected == Firsts(eligible) + Rest(eligible[..n]) && |selected| < max
    {
      var issue := eligible[n];
      NotYetInRest(eligible, n);
      if issue !in selected {
        assert selected + [issue] == Firsts(eligible) + Rest(eligible[..n + 1]);
        selected := selected + [issue];
        if |selected| == max {
          ChosenAtMax(eligible, n + 1, max);
          return;
        }
      }
    }
    assert eligible[..|eligible|] == eligible;
    ChosenBelowMax(eligible, max);
  }

  lemma NothingRests(issues: seq<Issue>)
    ensures Rest(issues[..0]) == []
  {
  }

  lemma ChosenAtMax(issues: seq<Issue>, n: nat, max: nat)
    requires n <= |issues| && |Firsts(issues) + Rest(issues[..n])| == max
    ensures Firsts(issues) + Rest(issues[..n]) == Chosen(issues, max)
  {
    hide Firsts, Rest;
    RestGrows(issues, n);
    FirstsAndRest(issues);
  }

  lemma ChosenBelowMax(issues: seq<Issue>, max: nat)
    requires |Firsts(issues) + Rest(issues)| < max
    ensures Firsts(issues) + Rest(issues) == Chosen(issues, max)
  {
    hide Firsts, Rest;
  }

  /** Among distinct issues, the n-th is already chosen exactly when it is the first of its pair. */
  lemma NotYetInRest(issues: seq<Issue>, n: nat)
    requires n < |issues| && SlotsDiffer(issues)
    ensures issues[n] !in Rest(issues[..n])
    ensures issues[n] in Firsts(issues) <==> issues[n].Pair() !in Pairs(issues[..n])
    ensures Rest(issues[..n + 1]) == Rest(issues[..n]) + if issues[n].Pair() in Pairs(issues[..n]) then [issues[n]] else []
  {
    var x, front := issues[n], issues[..n];
    assert issues[..n + 1][..n] == front;
    assert forall k :: 0 <= k < n ==> front[k] == issues[k];
    assert x !in front;
    MembersSplit(front, x);
    if x.Pair() !in Pairs(front) {
      FirstsGrow(issues, n + 1);
      assert Firsts(issues[..n + 1]) == Firsts(front) + [x];
      assert Firsts(issues)[|Firsts(front)|] == x;
    } else {
      OccursOnce(issues, x);
      FirstsAndRest(issues);
      RestGrows(issues, n + 1);
      assert Rest(issues[..n + 1]) == Rest(front) + [x];
      assert Rest(issues)[|Rest(front)|] == x;
      assert x in multiset(Rest(issues));
      assert x in Firsts(issues) ==> x in multiset(Firsts(issues));
    }
  }

  method SortLocations(members: set<string>) returns (s: seq<string>)
    ensures SortedSet(s, members)
  {
    hide CompareKey, Sort;
    var values: seq<string> := [];
    var todo := members;
    while todo != {}
      invariant todo <= members
      invariant forall x :: x in values <==> x in members - todo
      invariant forall i, j :: 0 <= i < j < |values| ==> values[i] != values[j]
      decreases |todo|
    {
      var x :| x in todo;
      assert forall i :: 0 <= i < |values| ==> values[i] in values;
      values := values + [x];
      todo := todo - {x};
    }
    s := Sort(values, TextKey);
    SortSorts(values, TextKey);
    TextsStayDistinct(values, s);
    forall x { SameMembers(values, s, x); }
  }

  lemma {:induction false} TextOccursOnce(s: seq<string>, x: string)
    ensures (forall i, j :: 0 <= i < j < |s| ==> s[i] != s[j]) ==> multiset(s)[x] <= 1
    ensures (exists i, j :: 0 <= i < j < |s| && s[i] == s[j] == x) ==> multiset(s)[x] >= 2
  {
    if s != [] {
      var front, last := s[..|s| - 1], s[|s| - 1];
      TextOccursOnce(front, x);
      assert s == front + [last];
      assert forall k :: 0 <= k < |front| ==> s[k] == front[k];
      if i, j :| 0 <= i < j < |s| && s[i] == s[j] == x {
        assert front[i] == x && x in multiset(front);
      }
    }
  }

  lemma TextsStayDistinct(a: seq<string>, b: seq<string>)
    requires multiset(a) == multiset(b) && forall i, j :: 0 <= i < j < |a| ==> a[i] != a[j]
    ensures forall i, j :: 0 <= i < j < |b| ==> b[i] != b[j]
  {
    forall i, j | 0 <= i < j < |b|
      ensures b[i] != b[j]
    {
      TextOccursOnce(a, b[i]);
      TextOccursOnce(b, b[i]);
    }
  }

  method OmittedIssues(candidates: seq<Issue>, selected: seq<Issue>) returns (omitted: seq<Issue>, codes: seq<string>)
    ensures omitted == Without(candidates, selected) && codes == CodesOf(omitted)
  {
    omitted, codes := [], [];
    for n := 0 to |candidates|
      invariant omitted == Without(candidates[..n], selected) && codes == CodesOf(omitted)
    {
      assert candidates[..n + 1][..n] == candidates[..n];
      if candidates[n] !in selected {
        assert (omitted + [candidates[n]])[..|omitted|] == omitted;
        omitted := omitted + [candidates[n]];
        if candidates[n].code !in codes { codes := codes + [candidates[n].code]; }
      }
    }
    assert candidates[..|candidates|] == candidates;
  }

  /** `select_repair_issues`; refused only for a limit outside 1..20. */
  method SelectRepairIssues(raw: seq<Issue>, maxIssues: int) returns (r: Option<Selection>)
    requires forall i :: i in raw ==> Built(i)
    ensures r.None? <==> !(1 <= maxIssues <= MAX_SELECTED_ISSUES)
    ensures r.Some? ==> exists filtered, candidates :: Selects(raw, filtered, candidates, maxIssues, r.value)
  {
    hide Built, Relevant, RankedCandidates, Chosen, Merged, SortedSet, Occurrences, Least;
    if !(1 <= maxIssues <= MAX_SELECTED_ISSUES) { return None; }
    var filtered := FilterIssues(raw);
    FilteredIsBuilt(raw, filtered);
    var bySlot, occurrences := MergeBySlot(filtered);
    var candidates := RankValues(filtered, bySlot, occurrences);
    var eligible := EligibleIssues(candidates);
    CandidateSlots(filtered, bySlot, occurrences, candidates);
    EligibleMembers(candidates);
    var selected := ChooseIssues(eligible, maxIssues);
    ChosenComeFrom(eligible, maxIssues);
    var omitted, codes := OmittedIssues(candidates, selected);
    var groups: seq<seq<string>> := [];
    for n := 0 to |selected|
      invariant |groups| == n
      invariant forall i :: 0 <= i < n ==> SortedSet(groups[i], Occurrences(filtered, selected[i].Slot()))
    {
      assert selected[n] in candidates;
      var group := SortLocations(occurrences[selected[n].Slot()]);
      groups := groups + [group];
    }
    var s := Selection(selected, |raw|, |candidates|, |omitted|, |raw| - |candidates|,
                       |candidates| - |eligible|, codes, groups);
    assert Selects(raw, filtered, candidates, maxIssues, s);
    r := Some(s);
  }

  lemma FilteredIsBuilt(raw: seq<Issue>, filtered: seq<Issue>)
    requires Relevant(raw, filtered) && forall i :: i in raw ==> Built(i)
    ensures forall i :: i in filtered ==> Built(i)
  {
  }

  lemma CandidateSlots(filtered: seq<Issue>, bySlot: map<Slot, Issue>, occurrences: map<Slot, set<string>>,
                       candidates: seq<Issue>)
    requires Merged(filtered, bySlot, occurrences) && RankedCandidates(filtered, candidates)
    ensures SlotsDiffer(candidates)
    ensures forall c :: c in candidates ==>
                          c.Slot() in occurrences && occurrences[c.Slot()] == Occurrences(filtered, c.Slot())
  {
    hide CanonicalLocation, NotAfter, Occurrences;
    forall c | c in candidates { LeastIsUnique(filtered, bySlot, occurrences, c); }
  }

  // ---------------------------------------------------------------------- results

  lemma {:induction false} EligibleMembers(candidates: seq<Issue>)
    ensures forall i :: i in Eligible(candidates) <==> i in candidates && i.Repairable()
    ensures SlotsDiffer(candidates) ==> SlotsDiffer(Eligible(candidates))
    ensures |Eligible(candidates)| <= |candidates|
  {
    if candidates != [] {
      var front, last := candidates[..|candidates| - 1], candidates[|candidates| - 1];
      EligibleMembers(front);
      assert forall i :: i in candidates <==> i in front || i == last;
      assert forall k :: 0 <= k < |front| ==> candidates[k] == front[k];
      if SlotsDiffer(candidates) {
        forall k | 0 <= k < |Eligible(front)|
          ensures Eligible(front)[k].Slot() != last.Slot()
        {
          assert Eligible(front)[k] in front;
        }
      }
    }
  }

  lemma ChosenComeFrom(eligible: seq<Issue>, max: nat)
    ensures forall i :: i in Chosen(eligible, max) ==> i in eligible
    ensures |Chosen(eligible, max)| == Min(max, |eligible|)
  {
    FirstsAndRest(eligible);
    forall i | i in Chosen(eligible, max)
      ensures i in eligible
    {
      MembersSplit(eligible, i);
    }
  }

  /** The selection is as large as it may be, and never holds an ineligible issue. */
  lemma SelectionSize(raw: seq<Issue>, filtered: seq<Issue>, candidates: seq<Issue>, max: nat, s: Selection)
    requires Selects(raw, filtered, candidates, max, s)
    ensures |s.selected| == Min(max, |Eligible(candidates)|)
    ensures forall i :: i in s.selected ==> i.Repairable() && i in candidates
  {
    ChosenComeFrom(Eligible(candidates), max);
    EligibleMembers(candidates);
  }

  /** No pair gets a second issue before every eligible pair has its first. */
  lemma BreadthBeforeDepth(eligible: seq<Issue>, max: nat, i: nat, j: nat, other: Issue)
    requires i < j < |Chosen(eligible, max)|
    requires Chosen(eligible, max)[i].Pair() == Chosen(eligible, max)[j].Pair()
    requires other in eligible
    ensures other.Pair() in Pairs(Chosen(eligible, max))
  {
    var firsts := Firsts(eligible);
    FirstsCoverPairs(eligible);
    assert j >= |firsts|;
    assert firsts <= Chosen(eligible, max);
    assert other.Pair() in Pairs(firsts);
    var f :| f in firsts && f.Pair() == other.Pair();
    assert f in Chosen(eligible, max);
  }

  /** Every relevant issue has a candidate in its slot that ranks no later. */
  lemma {:induction false} LeastExists(rows: seq<Issue>, i: Issue)
    requires i in rows
    ensures exists c :: Least(rows, c) && c.Slot() == Canonical(i).Slot() && NotAfter(c, Canonical(i))
  {
    hide CanonicalLocation, CompareKey;
    var front, last := rows[..|rows| - 1], rows[|rows| - 1];
    assert rows == front + [last];
    var c := Canonical(last);
    NotAfterIsTotal(c, c);
    if j :| j in front && Canonical(j).Slot() == Canonical(i).Slot() {
      LeastExists(front, j);
      var v :| Least(front, v) && v.Slot() == Canonical(j).Slot() && NotAfter(v, Canonical(j));
      if v.Slot() == c.Slot() {
        LeastStep(front, last, v);
        assert Least(rows, if NotAfter(v, c) then v else c);
      } else {
        LeastElsewhere(front, last, v);
      }
    } else {
      assert i == last;
      LeastFirst(front, last);
    }
  }

  lemma NothingIsForgotten(raw: seq<Issue>, filtered: seq<Issue>, candidates: seq<Issue>, max: nat, s: Selection, i: Issue)
    requires Selects(raw, filtered, candidates, max, s)
    requires i in raw && !Suppressed(raw, i)
    ensures exists c :: c in candidates && c.Slot() == Canonical(i).Slot() && NotAfter(c, Canonical(i))
  {
    LeastExists(filtered, i);
  }

  // ---------------------------------------------------------- independence of order

  lemma SameCandidates(f: seq<Issue>, g: seq<Issue>, a: seq<Issue>, b: seq<Issue>)
    requires RankedCandidates(f, a) && RankedCandidates(g, b) && forall i :: i in f <==> i in g
    ensures a == b
  {
    hide CanonicalLocation, CompareKey, IssueKey;
    forall c
      ensures Least(f, c) <==> Least(g, c)
    {
    }
    forall c
      ensures multiset(a)[c] == multiset(b)[c]
    {
      OccursOnce(a, c);
      OccursOnce(b, c);
    }
    assert multiset(a) == multiset(b);
    forall c, d | c in a && d in a && IssueKey(c) == IssueKey(d) { IssueKeyDecides(c, d); }
    OneOrder(a, b, IssueKey);
  }

  lemma SortedSetIsUnique(a: seq<string>, b: seq<string>, members: set<string>)
    requires SortedSet(a, members) && SortedSet(b, members)
    ensures a == b
  {
    hide CompareKey;
    forall x
      ensures multiset(a)[x] == multiset(b)[x]
    {
      TextOccursOnce(a, x);
      TextOccursOnce(b, x);
      assert x in a <==> x in multiset(a);
      assert x in b <==> x in multiset(b);
    }
    assert multiset(a) == multiset(b);
    forall x, y | x in a && y in a && TextKey(x) == TextKey(y)
      ensures x == y
    {
      assert TextKey(x)[0] == TextKey(y)[0];
    }
    OneOrder(a, b, TextKey);
  }

  lemma SameRelevant(raw: seq<Issue>, other: seq<Issue>, f: seq<Issue>, g: seq<Issue>, i: Issue)
    requires multiset(raw) == multiset(other) && Relevant(raw, f) && Relevant(other, g)
    ensures i in f <==> i in g
  {
    hide CanonicalLocation;
    forall x { SameMembers(raw, other, x); }
    forall c, l
      ensures Missing(raw, c, l) <==> Missing(other, c, l)
    {
    }
  }

  /** The whole selection depends on which issues were reported, never on their order. */
  lemma SelectionIgnoresOrder(raw: seq<Issue>, other: seq<Issue>, f: seq<Issue>, g: seq<Issue>, a: seq<Issue>,
                              b: seq<Issue>, max: nat, s: Selection, t: Selection)
    requires multiset(raw) == multiset(other)
    requires Selects(raw, f, a, max, s) && Selects(other, g, b, max, t)
    ensures s == t
  {
    hide Relevant, RankedCandidates, Chosen, SortedSet, Without, CodesOf, Eligible;
    forall i { SameRelevant(raw, other, f, g, i); }
    SameCandidates(f, g, a, b);
    assert |multiset(raw)| == |raw| && |multiset(other)| == |other|;
    forall i | 0 <= i < |s.selected|
      ensures s.occurrences[i] == t.occurrences[i]
    {
      assert Occurrences(f, s.selected[i].Slot()) == Occurrences(g, s.selected[i].Slot());
      SortedSetIsUnique(s.occurrences[i], t.occurrences[i], Occurrences(f, s.selected[i].Slot()));
    }
    assert s.occurrences == t.occurrences;
  }

  // -------------------------------------------------------------------- telemetry

  lemma {:induction false} SlotCount(s: seq<Issue>)
    requires SlotsDiffer(s)
    ensures |set i | i in s| == |s|
  {
    if s != [] {
      var front, last := s[..|s| - 1], s[|s| - 1];
      assert forall k :: 0 <= k < |front| ==> s[k] == front[k];
      SlotCount(front);
      assert (set i | i in s) == (set i | i in front) + {last};
    }
  }

  lemma {:induction false} WithoutMembers(candidates: seq<Issue>, selected: seq<Issue>)
    ensures forall i :: i in Without(candidates, selected) <==> i in candidates && i !in selected
    ensures SlotsDiffer(candidates) ==> SlotsDiffer(Without(candidates, selected))
  {
    if candidates != [] {
      var front, last := candidates[..|candidates| - 1], candidates[|candidates| - 1];
      WithoutMembers(front, selected);
      assert forall i :: i in candidates <==> i in front || i == last;
      assert forall k :: 0 <= k < |front| ==> candidates[k] == front[k];
      if SlotsDiffer(candidates) {
        forall k | 0 <= k < |Without(front, selected)|
          ensures Without(front, selected)[k].Slot() != last.Slot()
        {
          assert Without(front, selected)[k] in front;
        }
      }
    }
  }

  lemma ChosenDiffer(eligible: seq<Issue>, max: nat)
    requires SlotsDiffer(eligible)
    ensures SlotsDiffer(Chosen(eligible, max))
  {
    var order := Firsts(eligible) + Rest(eligible);
    FirstsAndRest(eligible);
    assert multiset(order) == multiset(eligible);
    SortedSlots(eligible, order);
  }

  lemma {:induction false} SlotsBound(rows: seq<Issue>)
    ensures |set i | i in rows :: Canonical(i).Slot()| <= |rows|
  {
    hide Canonical;
    if rows != [] {
      var front, last := rows[..|rows| - 1], rows[|rows| - 1];
      SlotsBound(front);
      assert (set i | i in rows :: Canonical(i).Slot())
             == (set i | i in front :: Canonical(i).Slot()) + {Canonical(last).Slot()};
    }
  }

  lemma {:induction false} SlotSetSize(s: seq<Issue>)
    requires SlotsDiffer(s)
    ensures |set i | i in s :: i.Slot()| == |s|
  {
    if s != [] {
      var front, last := s[..|s| - 1], s[|s| - 1];
      assert forall k :: 0 <= k < |front| ==> s[k] == front[k];
      SlotSetSize(front);
      assert (set i | i in s :: i.Slot()) == (set i | i in front :: i.Slot()) + {last.Slot()};
    }
  }

  lemma SubsetSize<T>(small: set<T>, large: set<T>)
    requires small <= large
    ensures |small| <= |large| && |large - small| == |large| - |small|
  {
    assert |large - small| == |large| - |small|;
  }

  lemma CandidatesAreFewer(filtered: seq<Issue>, candidates: seq<Issue>)
    requires RankedCandidates(filtered, candidates)
    ensures |candidates| <= |filtered|
  {
    hide Canonical, NotAfter;
    SlotSetSize(candidates);
    SlotsBound(filtered);
    SubsetSize(set i | i in candidates :: i.Slot(), set i | i in filtered :: Canonical(i).Slot());
  }

  /** The counts of every selection add up: raw, merged, selected, omitted and ineligible. */
  lemma CountsAddUp(raw: seq<Issue>, filtered: seq<Issue>, candidates: seq<Issue>, max: nat, s: Selection)
    requires Selects(raw, filtered, candidates, max, s)
    ensures s.rawCount == s.candidateCount + s.mergedCount && s.mergedCount >= 0
    ensures s.candidateCount == |s.selected| + s.omittedCount
    ensures 0 <= s.ineligibleCount <= s.omittedCount
  {
    hide Ascending, Least, Firsts, Rest, CanonicalLocation, CompareKey;
    CandidatesAreFewer(filtered, candidates);
    EligibleMembers(candidates);
    SelectionSize(raw, filtered, candidates, max, s);
    ChosenDiffer(Eligible(candidates), max);
    WithoutMembers(candidates, s.selected);
    SlotCount(candidates);
    SlotCount(s.selected);
    SlotCount(Without(candidates, s.selected));
    var all, chosen := set i | i in candidates, set i | i in s.selected;
    SubsetSize(chosen, all);
    assert (set i | i in Without(candidates, s.selected)) == all - chosen;
  }

  datatype Counts = Counts(raw: int, candidate: int, selected: int, omitted: int, merged: int, ineligible: int)

  /** The checks of the telemetry constructor; the optional counts come from a selection. */
  predicate TelemetryAccepts(attempted: bool, recovered: bool, codes: seq<string>, counts: Option<Counts>,
                             omittedCodes: seq<string>)
  {
    && |codes| <= MAX_TELEMETRY_ISSUES
    && (recovered ==> attempted)
    && (counts.None? ==> omittedCodes == [])
    && (counts.Some? ==>
          var c := counts.value;
          && 0 <= c.raw && 0 <= c.candidate && 0 <= c.selected && 0 <= c.omitted && 0 <= c.merged && 0 <= c.ineligible
          && c.candidate == c.selected + c.omitted
          && c.raw == c.candidate + c.merged
          && c.selected == |codes|
          && c.ineligible <= c.omitted)
  }

  /** `build_repair_telemetry` with a selection: the issue ledger, the trigger and the constructor. */
  predicate TelemetryBuilds(attempted: bool, recovered: bool, trigger: Option<string>, supplied: seq<Issue>, s: Selection) {
    && (supplied == [] || supplied == s.selected)
    && (attempted ==> s.selected != [] && trigger.Some?)
    && |s.selected| <= MAX_TELEMETRY_ISSUES
    && TelemetryAccepts(
         attempted, recovered, seq(|s.selected|, i requires 0 <= i < |s.selected| => s.selected[i].code),
         Some(Counts(s.rawCount, s.candidateCount, |s.selected|, s.omittedCount, s.mergedCount, s.ineligibleCount)),
         s.omittedCodes)
  }

  /** A selection never makes its own telemetry fail: only the caller's own flags and issue list can. */
  lemma SelectionAlwaysReports(raw: seq<Issue>, filtered: seq<Issue>, candidates: seq<Issue>, max: nat, s: Selection,
                               attempted: bool, recovered: bool, trigger: Option<string>, supplied: seq<Issue>)
    requires Selects(raw, filtered, candidates, max, s) && max <= MAX_SELECTED_ISSUES
    ensures TelemetryBuilds(attempted, recovered, trigger, supplied, s)
            <==> && (supplied == [] || supplied == s.selected)
                 && (attempted ==> s.selected != [] && trigger.Some?)
                 && (recovered ==> attempted)
  {
    hide Ascending, Least, Firsts, Rest, CanonicalLocation, CompareKey;
    CountsAddUp(raw, filtered, candidates, max, s);
    SelectionSize(raw, filtered, candidates, max, s);
  }
}
