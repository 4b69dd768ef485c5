/** Section-aware packing of model context under one hard character bound. */
module Packing {
  import opened Wrappers
  import opened Numbers
  import opened Strings
  import opened Ordering

  const TRUNCATION_MARKER := "\n[section truncated]"
  const SEPARATOR := "\n\n"
  const CI_START := "<CURRENT_HEAD_CI_SNAPSHOT>"
  const CI_END := "</CURRENT_HEAD_CI_SNAPSHOT>"

  datatype Section = Section(name: string, text: string, priority: int, required: bool, minChars: int)

  /** `_truncate_section`: the text, or a marked prefix of it, never longer than the limit. */
  function TruncateSection(text: string, limit: int): (r: string)
    ensures |r| <= MaxInt(limit, 0)
    ensures |text| <= limit ==> r == text
    ensures r <= text || exists n :: 0 <= n <= |text| && r == text[..n] + TRUNCATION_MARKER
  {
    if limit <= 0 then ""
    else if |text| <= limit then text
    else if limit <= |TRUNCATION_MARKER| then text[..limit]
    else
      var kept := StripRight(text[..limit - |TRUNCATION_MARKER|]);
      StripRightEnds(text[..limit - |TRUNCATION_MARKER|]);
      assert kept == text[..|kept|];
      kept + TRUNCATION_MARKER
  }

  // ------------------------------------------------------------------------- sums

  function Total(amounts: seq<int>): int {
    if amounts == [] then 0 else Total(amounts[..|amounts| - 1]) + amounts[|amounts| - 1]
  }

  lemma {:induction false} TotalUpdate(amounts: seq<int>, i: nat, x: int)
    requires i < |amounts|
    ensures Total(amounts[i := x]) == Total(amounts) - amounts[i] + x
  {
    var n := |amounts| - 1;
    if i == n {
      assert amounts[i := x][..n] == amounts[..n];
    } else {
      TotalUpdate(amounts[..n], i, x);
      assert amounts[i := x][..n] == amounts[..n][i := x];
    }
  }

  lemma {:induction false} TotalMonotone(a: seq<int>, b: seq<int>)
    requires |a| == |b| && forall i :: 0 <= i < |a| ==> a[i] <= b[i]
    ensures Total(a) <= Total(b)
    ensures Total(a) == Total(b) ==> a == b
  {
    if a != [] {
      TotalMonotone(a[..|a| - 1], b[..|b| - 1]);
      assert a == a[..|a| - 1] + [a[|a| - 1]] && b == b[..|b| - 1] + [b[|b| - 1]];
    }
  }

  // ------------------------------------------------------------------ reservations

  function Requested(s: Section): nat {
    MinNat(|s.text|, MaxInt(32, s.minChars))
  }

  /** The positions of the required sections before n, in order. */
  function RequiredIndexes(sections: seq<Section>, n: nat): (r: seq<nat>)
    requires n <= |sections|
    ensures |r| <= n
    ensures forall i :: i in r <==> 0 <= i < n && sections[i].required
  {
    if n == 0 then []
    else if sections[n - 1].required then RequiredIndexes(sections, n - 1) + [n - 1]
    else RequiredIndexes(sections, n - 1)
  }

  /** The sum of the reservations of the required sections before n. */
  function RequestedTotal(sections: seq<Section>, n: nat): nat
    requires n <= |sections|
  {
    if n == 0 then 0
    else RequestedTotal(sections, n - 1) + if sections[n - 1].required then Requested(sections[n - 1]) else 0
  }

  /** What section i is given before priorities are looked at. */
  function Reservation(sections: seq<Section>, budget: nat, i: nat): nat
    requires i < |sections|
  {
    var count := |RequiredIndexes(sections, |sections|)|;
    if !sections[i].required then 0
    else if RequestedTotal(sections, |sections|) <= budget then Requested(sections[i])
    else if count == 0 then 0
    else
      var position := |RequiredIndexes(sections, i)|;
      MinNat(|sections[i].text|, budget / count + if position < budget % count then 1 else 0)
  }

  function Reservations(sections: seq<Section>, budget: nat, n: nat): seq<int>
    requires n <= |sections|
  {
    seq(n, i requires 0 <= i < n => Reservation(sections, budget, i))
  }

  lemma {:induction false} FullReservationsTotal(sections: seq<Section>, budget: nat, n: nat)
    requires n <= |sections| && RequestedTotal(sections, |sections|) <= budget
    ensures Total(Reservations(sections, budget, n)) == RequestedTotal(sections, n)
  {
    if n > 0 {
      FullReservationsTotal(sections, budget, n - 1);
      assert Reservations(sections, budget, n)[..n - 1] == Reservations(sections, budget, n - 1);
    }
  }

  /** With too little room, the first positions share the remainder and nobody gets more than a share. */
  lemma {:induction false} SharedReservationsTotal(sections: seq<Section>, budget: nat, n: nat, base: nat, extra: nat)
    requires n <= |sections| && RequestedTotal(sections, |sections|) > budget
    requires var count := |RequiredIndexes(sections, |sections|)|;
             count > 0 && base == budget / count && extra == budget % count
    ensures var p := |RequiredIndexes(sections, n)|;
            Total(Reservations(sections, budget, n)) <= Share(p, base) + MinNat(p, extra)
  {
    hide Requested, RequestedTotal;
    if n > 0 {
      SharedReservationsTotal(sections, budget, n - 1, base, extra);
      assert Reservations(sections, budget, n)[..n - 1] == Reservations(sections, budget, n - 1);
    }
  }

  function Share(p: nat, base: nat): nat {
    if p == 0 then 0 else Share(p - 1, base) + base
  }

  lemma {:induction false} ShareIsProduct(p: nat, base: nat)
    ensures Share(p, base) == p * base
  {
    if p > 0 { ShareIsProduct(p - 1, base); }
  }

  /** The reservations never overspend the budget. */
  lemma ReservationsFit(sections: seq<Section>, budget: nat)
    ensures Total(Reservations(sections, budget, |sections|)) <= budget
  {
    hide Reservations, RequestedTotal, RequiredIndexes, Total, Share;
    var n := |sections|;
    if RequestedTotal(sections, n) <= budget {
      FullReservationsTotal(sections, budget, n);
    } else if |RequiredIndexes(sections, n)| == 0 {
      NothingRequested(sections, n);
    } else {
      var count := |RequiredIndexes(sections, n)|;
      SharedReservationsTotal(sections, budget, n, budget / count, budget % count);
      ShareIsProduct(count, budget / count);
      DivisionShares(budget, count);
    }
  }

  lemma DivisionShares(budget: nat, count: nat)
    requires count > 0
    ensures count * (budget / count) + MinNat(count, budget % count) == budget
  {
  }

  lemma {:induction false} NothingRequested(sections: seq<Section>, n: nat)
    requires n <= |sections| && |RequiredIndexes(sections, n)| == 0
    ensures RequestedTotal(sections, n) == 0
  {
    if n > 0 { NothingRequested(sections, n - 1); }
  }

  // -------------------------------------------------------------------- allocation

  /** Section i is served before section j. */
  predicate Before(sections: seq<Section>, i: nat, j: nat)
    requires i < |sections| && j < |sections|
  {
    sections[i].priority < sections[j].priority || (sections[i].priority == sections[j].priority && i < j)
  }

  predicate Complete(sections: seq<Section>, amounts: seq<int>, i: nat)
    requires i < |sections| && |amounts| == |sections|
  {
    amounts[i] == |sections[i].text|
  }

  /**
    The allocation: reservations first; the budget is spent whole unless every section is complete; and
    a section grows only when every section served before it is complete.
   */
  ghost predicate Allocated(sections: seq<Section>, budget: nat, amounts: seq<int>) {
    && |amounts| == |sections|
    && (forall i :: 0 <= i < |sections| ==> Reservation(sections, budget, i) <= amounts[i] <= |sections[i].text|)
    && Total(amounts) <= budget
    && (Total(amounts) == budget || forall i :: 0 <= i < |sections| ==> Complete(sections, amounts, i))
    && forall i, j :: (0 <= i < |sections| && 0 <= j < |sections| && Before(sections, i, j)
                       && amounts[j] > Reservation(sections, budget, j)) ==> Complete(sections, amounts, i)
  }

  /** These properties leave no choice: they determine every section's allowance. */
  lemma AllocationIsDetermined(sections: seq<Section>, budget: nat, a: seq<int>, b: seq<int>)
    requires Allocated(sections, budget, a) && Allocated(sections, budget, b)
    ensures a == b
  {
    if a != b {
      var k := FirstDifference(sections, a, b, |sections|);
      if a[k] < b[k] {
        SmallerEverywhere(sections, budget, a, b, k);
      } else {
        SmallerEverywhere(sections, budget, b, a, k);
      }
    }
  }

  /** The first differing section in serving order among the first n. */
  lemma {:induction false} FirstDifference(sections: seq<Section>, a: seq<int>, b: seq<int>, n: nat) returns (k: nat)
    requires n <= |sections| == |a| == |b| && exists i :: 0 <= i < n && a[i] != b[i]
    ensures k < n && a[k] != b[k]
    ensures forall i :: 0 <= i < n && Before(sections, i, k) ==> a[i] == b[i]
  {
    if exists i :: 0 <= i < n - 1 && a[i] != b[i] {
      k := FirstDifference(sections, a, b, n - 1);
      if a[n - 1] != b[n - 1] && Before(sections, n - 1, k) { k := n - 1; }
    } else {
      k := n - 1;
    }
  }

  lemma SmallerEverywhere(sections: seq<Section>, budget: nat, a: seq<int>, b: seq<int>, k: nat)
    requires Allocated(sections, budget, a) && Allocated(sections, budget, b)
    requires k < |sections| && a[k] < b[k]
    requires forall i :: 0 <= i < |sections| && Before(sections, i, k) ==> a[i] == b[i]
    ensures Total(a) < Total(b) && !Complete(sections, a, k)
  {
    hide Reservation;
    forall i | 0 <= i < |sections|
      ensures a[i] <= b[i]
    {
      if i != k && !Before(sections, i, k) {
        assert Before(sections, k, i);
        assert !Complete(sections, a, k);
      }
    }
    TotalMonotone(a, b);
  }

  /** The reservation step of `pack_sections`. */
  method Reserve(sections: seq<Section>, budget: nat, allocations: array<int>)
    requires allocations.Length == |sections| && forall i :: 0 <= i < |sections| ==> allocations[i] == 0
    modifies allocations
    ensures allocations[..] == Reservations(sections, budget, |sections|)
  {
    hide Requested, RequiredIndexes, Reservation;
    var indexes := RequiredIndexes(sections, |sections|);
    var requestedTotal := 0;
    for n := 0 to |sections|
      invariant requestedTotal == RequestedTotal(sections, n)
    {
      if sections[n].required { requestedTotal := requestedTotal + Requested(sections[n]); }
    }
    for p := 0 to |indexes|
      invariant forall i :: 0 <= i < |sections| && i in indexes[..p] ==> allocations[i] == Reservation(sections, budget, i)
      invariant forall i :: 0 <= i < |sections| && i !in indexes[..p] ==> allocations[i] == 0
    {
      assert indexes[p] in indexes;
      var i := indexes[p];
      ReservationAt(sections, budget, p);
      assert forall k :: k in indexes[..p + 1] <==> k in indexes[..p] || k == i;
      if requestedTotal <= budget {
        allocations[i] := Requested(sections[i]);
      } else {
        allocations[i] := MinNat(|sections[i].text|,
                                 budget / |indexes| + if p < budget % |indexes| then 1 else 0);
      }
    }
    assert indexes[..|indexes|] == indexes;
    forall i | 0 <= i < |sections|
      ensures allocations[i] == Reservation(sections, budget, i)
    {
      if i !in indexes { NotReserved(sections, budget, i); }
    }
  }

  lemma NotReserved(sections: seq<Section>, budget: nat, i: nat)
    requires i < |sections| && i !in RequiredIndexes(sections, |sections|)
    ensures Reservation(sections, budget, i) == 0
  {
  }

  lemma ReservationAt(sections: seq<Section>, budget: nat, p: nat)
    requires p < |RequiredIndexes(sections, |sections|)|
    ensures var indexes := RequiredIndexes(sections, |sections|);
            var i := indexes[p];
            && i < |sections|
            && Reservation(sections, budget, i) ==
               if RequestedTotal(sections, |sections|) <= budget then Requested(sections[i])
               else MinNat(|sections[i].text|, budget / |indexes| + if p < budget % |indexes| then 1 else 0)
  {
    hide Requested;
    IndexPositions(sections, |sections|);
  }

  /** A required section stands at the position that counts the required ones before it. */
  lemma {:induction false} IndexPositions(sections: seq<Section>, n: nat)
    requires n <= |sections|
    ensures forall p :: 0 <= p < |RequiredIndexes(sections, n)| ==>
              var i := RequiredIndexes(sections, n)[p];
              0 <= i < n && sections[i].required && |RequiredIndexes(sections, i)| == p
  {
    if n > 0 { IndexPositions(sections, n - 1); }
  }

  // ------------------------------------------------------------------------ growth

  function Positions(n: nat): seq<int> {
    seq(n, i => i)
  }

  function Rank(sections: seq<Section>): int -> SortKey {
    i => if 0 <= i < |sections| then [Num(sections[i].priority), Num(i)] else []
  }

  /** The serving order: `sorted` by priority, then by position. */
  function ServingOrder(sections: seq<Section>): seq<int> {
    Sort(Positions(|sections|), Rank(sections))
  }

  lemma {:induction false} PositionsOccurOnce(n: nat, i: int)
    ensures multiset(Positions(n))[i] == if 0 <= i < n then 1 else 0
  {
    if n > 0 {
      PositionsOccurOnce(n - 1, i);
      assert Positions(n) == Positions(n - 1) + [n - 1];
    }
  }

  /** The serving order visits every position once, each before the ones it precedes. */
  lemma ServingOrderServes(sections: seq<Section>)
    ensures var order := ServingOrder(sections);
            && |order| == |sections|
            && (forall i :: i in order <==> 0 <= i < |sections|)
            && forall p, q :: 0 <= p < q < |order| ==>
                 0 <= order[p] < |sections| && 0 <= order[q] < |sections| && Before(sections, order[p], order[q])
  {
    hide Sort;
    var order := ServingOrder(sections);
    SortSorts(Positions(|sections|), Rank(sections));
    assert |multiset(order)| == |multiset(Positions(|sections|))|;
    forall i
      ensures i in order <==> 0 <= i < |sections|
    {
      PositionsOccurOnce(|sections|, i);
      assert i in order <==> i in multiset(order);
    }
    forall p, q | 0 <= p < q < |order|
      ensures 0 <= order[p] < |sections| && 0 <= order[q] < |sections| && Before(sections, order[p], order[q])
    {
      assert order[p] in order && order[q] in order;
      RankIsBefore(sections, order[p], order[q]);
      if order[p] == order[q] {
        PositionsOccurOnce(|sections|, order[p]);
        OccursTwice(order, p, q);
      }
    }
  }

  lemma RankIsBefore(sections: seq<Section>, i: int, j: int)
    requires 0 <= i < |sections| && 0 <= j < |sections| && Le(Rank(sections)(i), Rank(sections)(j))
    ensures i == j || Before(sections, i, j)
  {
    var a, b := Rank(sections)(i), Rank(sections)(j);
    assert a[1..] == [Num(i)] && b[1..] == [Num(j)];
    assert CompareKey([Num(i)], [Num(j)]) == CompareInt(i, j);
  }

  lemma ServedEarlier(sections: seq<Section>, p: nat, i: nat)
    requires p < |ServingOrder(sections)| && i < |sections|
    requires var k := ServingOrder(sections)[p]; 0 <= k < |sections| && Before(sections, i, k)
    ensures exists q :: 0 <= q < p && ServingOrder(sections)[q] == i
  {
    hide ServingOrder;
    var order := ServingOrder(sections);
    ServingOrderServes(sections);
    assert i in order;
    var q :| 0 <= q < |order| && order[q] == i;
  }

  /** The allocation while the sections before position p of the serving order have been served. */
  ghost predicate Growing(sections: seq<Section>, budget: nat, amounts: seq<int>, p: nat) {
    var order := ServingOrder(sections);
    && |amounts| == |sections| == |order| && p <= |order|
    && (forall q :: 0 <= q < |order| ==> 0 <= order[q] < |sections|)
    && (forall i :: 0 <= i < |sections| ==> Reservation(sections, budget, i) <= amounts[i] <= |sections[i].text|)
    && Total(amounts) <= budget
    && (Total(amounts) < budget ==> forall q :: 0 <= q < p ==> Complete(sections, amounts, order[q]))
    && (forall q :: p <= q < |order| ==> amounts[order[q]] == Reservation(sections, budget, order[q]))
    && forall i, j :: (0 <= i < |sections| && 0 <= j < |sections| && Before(sections, i, j)
                       && amounts[j] > Reservation(sections, budget, j)) ==> Complete(sections, amounts, i)
  }

  lemma ReservationsGrow(sections: seq<Section>, budget: nat)
    ensures Growing(sections, budget, Reservations(sections, budget, |sections|), 0)
  {
    hide ServingOrder, RequiredIndexes, RequestedTotal;
    ServingOrderServes(sections);
    ReservationsFit(sections, budget);
    forall q | 0 <= q < |ServingOrder(sections)|
      ensures 0 <= ServingOrder(sections)[q] < |sections|
    {
      assert ServingOrder(sections)[q] in ServingOrder(sections);
    }
    forall i | 0 <= i < |sections| { ReservationFits(sections, budget, i); }
  }

  lemma ReservationFits(sections: seq<Section>, budget: nat, i: nat)
    requires i < |sections|
    ensures 0 <= Reservation(sections, budget, i) <= |sections[i].text|
  {
  }

  lemma GrowStep(sections: seq<Section>, budget: nat, amounts: seq<int>, p: nat)
    requires Growing(sections, budget, amounts, p) && p < |sections| && Total(amounts) < budget
    ensures var i := ServingOrder(sections)[p];
            var available := |sections[i].text| - amounts[i];
            var added := if available <= budget - Total(amounts) then available else budget - Total(amounts);
            && Growing(sections, budget, amounts[i := amounts[i] + added], p + 1)
            && Total(amounts[i := amounts[i] + added]) == Total(amounts) + added
  {
    hide ServingOrder, Reservation, Total;
    var order := ServingOrder(sections);
    ServingOrderServes(sections);
    var k := order[p];
    var available := |sections[k].text| - amounts[k];
    var added := if available <= budget - Total(amounts) then available else budget - Total(amounts);
    var more := amounts[k := amounts[k] + added];
    TotalUpdate(amounts, k, amounts[k] + added);
    forall i, j | 0 <= i < |sections| && 0 <= j < |sections| && Before(sections, i, j)
                  && more[j] > Reservation(sections, budget, j)
      ensures Complete(sections, more, i)
    {
      if j == k {
        ServedEarlier(sections, p, i);
        assert Complete(sections, amounts, i);
      }
    }
    forall q | p < q < |order|
      ensures order[q] != k
    {
      assert Before(sections, order[p], order[q]);
    }
  }

  lemma GrownIsAllocated(sections: seq<Section>, budget: nat, amounts: seq<int>, p: nat)
    requires Growing(sections, budget, amounts, p) && (p == |sections| || Total(amounts) == budget)
    ensures Allocated(sections, budget, amounts)
  {
    hide ServingOrder, Reservation, Total;
    ServingOrderServes(sections);
    if Total(amounts) < budget {
      forall i | 0 <= i < |sections|
        ensures Complete(sections, amounts, i)
      {
        assert i in ServingOrder(sections);
      }
    }
  }

  /** The growth loop of `pack_sections`: what is left of the budget goes out in serving order. */
  method Grow(sections: seq<Section>, budget: nat, allocations: array<int>)
    requires allocations.Length == |sections| && allocations[..] == Reservations(sections, budget, |sections|)
    modifies allocations
    ensures Allocated(sections, budget, allocations[..])
  {
    hide ServingOrder, Growing, Allocated, Total, Reservation;
    ServingOrderServes(sections);
    ReservationsGrow(sections, budget);
    var order := ServingOrder(sections);
    var remaining := budget - Total(allocations[..]);
    var p := 0;
    while p < |order|
      invariant 0 <= p <= |order|
      invariant Growing(sections, budget, allocations[..], p)
      invariant remaining == budget - Total(allocations[..])
    {
      if remaining <= 0 { break; }
      var i := order[p];
      assert i in order;
      GrowStep(sections, budget, allocations[..], p);
      ghost var before := allocations[..];
      var available := |sections[i].text| - allocations[i];
      AvailableIsLeft(sections, budget, before, p);
      if available > 0 {
        var added := if available <= remaining then available else remaining;
        allocations[i] := allocations[i] + added;
        remaining := remaining - added;
      } else {
        assert before[i := before[i] + 0] == before;
      }
      p := p + 1;
    }
    WithinBudget(sections, budget, allocations[..], p);
    GrownIsAllocated(sections, budget, allocations[..], p);
  }

  lemma AvailableIsLeft(sections: seq<Section>, budget: nat, amounts: seq<int>, p: nat)
    requires Growing(sections, budget, amounts, p)
    ensures forall i :: 0 <= i < |sections| ==> amounts[i] <= |sections[i].text|
  {
  }

  lemma WithinBudget(sections: seq<Section>, budget: nat, amounts: seq<int>, p: nat)
    requires Growing(sections, budget, amounts, p)
    ensures Total(amounts) <= budget
  {
  }

  // --------------------------------------------------------------------- rendering

  /** The sections that got any room, each cut to its allowance, in the caller's order. */
  function Render(sections: seq<Section>, amounts: seq<int>): seq<string>
    requires |amounts| == |sections|
  {
    if sections == [] then []
    else
      var n := |sections| - 1;
      var front := Render(sections[..n], amounts[..n]);
      if amounts[n] > 0 then front + [TruncateSection(sections[n].text, amounts[n])] else front
  }

  lemma {:induction false} RenderedLength(sections: seq<Section>, amounts: seq<int>)
    requires |amounts| == |sections| && forall i :: 0 <= i < |amounts| ==> 0 <= amounts[i]
    ensures var r := Render(sections, amounts);
            && |r| <= |sections|
            && |Joined(r, SEPARATOR)| <= Total(amounts) + (if r == [] then 0 else 2 * (|r| - 1))
            && (r != [] ==> Total(amounts) > 0)
            && Total(amounts) >= 0
  {
    hide TruncateSection;
    if sections != [] {
      var n := |sections| - 1;
      RenderedLength(sections[..n], amounts[..n]);
      var front, r := Render(sections[..n], amounts[..n]), Render(sections, amounts);
      if amounts[n] > 0 { assert r[..|r| - 1] == front; }
    }
  }

  function NonEmpty(sections: seq<Section>): seq<Section> {
    if sections == [] then []
    else
      var front, last := NonEmpty(sections[..|sections| - 1]), sections[|sections| - 1];
      if last.text != "" then front + [last] else front
  }

  /** The room left for text once every separator is counted. */
  function ContentBudget(candidates: seq<Section>, maxChars: int): nat {
    MaxInt(0, maxChars - 2 * MaxInt(0, |candidates| - 1))
  }

  /** `pack_sections`: the final cut never removes anything. */
  method PackSections(sections: seq<Section>, maxChars: int) returns (packed: string)
    ensures |packed| <= MaxInt(maxChars, 0)
    ensures maxChars <= 0 || NonEmpty(sections) == [] ==> packed == ""
    ensures maxChars > 0 && NonEmpty(sections) != [] ==>
              exists amounts ::
                && Allocated(NonEmpty(sections), ContentBudget(NonEmpty(sections), maxChars), amounts)
                && packed == Joined(Render(NonEmpty(sections), amounts), SEPARATOR)
  {
    hide Allocated, Reservations, Joined, Render, Total;
    var candidates: seq<Section> := [];
    for n := 0 to |sections|
      invariant candidates == NonEmpty(sections[..n])
    {
      assert sections[..n + 1][..n] == sections[..n];
      if sections[n].text != "" { candidates := candidates + [sections[n]]; }
    }
    assert sections[..|sections|] == sections;
    if maxChars <= 0 || candidates == [] { return ""; }
    var budget := ContentBudget(candidates, maxChars);
    var allocations := new int[|candidates|](i => 0);
    Reserve(candidates, budget, allocations);
    Grow(candidates, budget, allocations);
    var rendered := Joined(Render(candidates, allocations[..]), SEPARATOR);
    PackedFits(candidates, maxChars, allocations[..]);
    packed := rendered[..MinNat(|rendered|, maxChars)];
  }

  lemma PackedFits(candidates: seq<Section>, maxChars: int, amounts: seq<int>)
    requires maxChars > 0 && Allocated(candidates, ContentBudget(candidates, maxChars), amounts)
    ensures |amounts| == |candidates| && |Joined(Render(candidates, amounts), SEPARATOR)| <= maxChars
  {
    hide Reservation, Joined, Render;
    forall i | 0 <= i < |amounts|
      ensures 0 <= amounts[i]
    {
      assert 0 <= Reservation(candidates, ContentBudget(candidates, maxChars), i);
    }
    RenderedLength(candidates, amounts);
  }

  /** When all reservations fit, every required section keeps at least its own. */
  lemma ReservationsAreGranted(sections: seq<Section>, budget: nat, amounts: seq<int>, i: nat)
    requires Allocated(sections, budget, amounts) && i < |sections| && sections[i].required
    requires RequestedTotal(sections, |sections|) <= budget
    ensures amounts[i] >= MinNat(|sections[i].text|, MaxInt(32, sections[i].minChars))
  {
  }

  // --------------------------------------------------------- the current-head block

  predicate At(text: string, pattern: string, i: nat) {
    i + |pattern| <= |text| && text[i..i + |pattern|] == pattern
  }

  /** The leftmost occurrence at or after a position. */
  function FindFrom(text: string, pattern: string, start: nat): (r: Option<nat>)
    ensures r.Some? ==> r.value >= start && At(text, pattern, r.value)
    ensures r.Some? ==> forall i :: start <= i < r.value ==> !At(text, pattern, i)
    ensures r.None? ==> forall i :: start <= i ==> !At(text, pattern, i)
    decreases |text| - start
  {
    if start > |text| then None
    else if At(text, pattern, start) then Some(start)
    else if start == |text| then None
    else FindFrom(text, pattern, start + 1)
  }

  /** A complete block, from its start marker up to and including its end marker. */
  predicate Block(text: string, start: nat, b: (nat, nat)) {
    && start <= b.0 && b.0 + |CI_START| + |CI_END| <= b.1 <= |text|
    && At(text, CI_START, b.0) && At(text, CI_END, b.1 - |CI_END|)
  }

  ghost predicate HasBlock(text: string, start: nat) {
    exists i, j :: start <= i && i + |CI_START| <= j && At(text, CI_START, i) && At(text, CI_END, j)
  }

  /** Where the next complete block lies: the leftmost start that an end follows, up to the nearest end. */
  function NextBlock(text: string, start: nat): (r: Option<(nat, nat)>)
    ensures r.Some? ==> Block(text, start, r.value)
    ensures r.None? <==> !HasBlock(text, start)
  {
    var s := FindFrom(text, CI_START, start);
    if s.None? then None
    else
      var e := FindFrom(text, CI_END, s.value + |CI_START|);
      if e.None? then None else Some((s.value, e.value + |CI_END|))
  }

  lemma BlockFromEarlier(text: string, start: nat, later: nat)
    requires start <= later
    ensures HasBlock(text, later) ==> HasBlock(text, start)
    ensures forall b :: Block(text, later, b) ==> Block(text, start, b)
  {
  }

  /** The last of the blocks found one after another. */
  function LastBlock(text: string, start: nat): (r: Option<(nat, nat)>)
    ensures r.None? <==> !HasBlock(text, start)
    ensures r.Some? ==> Block(text, start, r.value) && !HasBlock(text, r.value.1)
    decreases |text| - start
  {
    var block := NextBlock(text, start);
    if block.None? then None
    else
      BlockFromEarlier(text, start, block.value.1);
      var later := LastBlock(text, block.value.1);
      if later.None? then block else later
  }

  function WithoutBlocks(text: string, start: nat): string
    requires start <= |text|
    decreases |text| - start
  {
    var block := NextBlock(text, start);
    if block.None? then text[start..]
    else text[start..block.value.0] + WithoutBlocks(text, block.value.1)
  }

  function Erase(text: string, pattern: string, start: nat): string
    requires start <= |text| && pattern != ""
    decreases |text| - start
  {
    var found := FindFrom(text, pattern, start);
    if found.None? then text[start..]
    else text[start..found.value] + Erase(text, pattern, found.value + |pattern|)
  }

  /** A block that fits, behind as much of the other text as there is room for. */
  function KeepBlock(prefix: string, block: string, limit: nat): (r: string)
    requires |block| < limit
    ensures |r| <= limit && EndsWith(r, block)
  {
    var rendered := TruncateSection(prefix, MaxInt(0, limit - |block| - |SEPARATOR|));
    if rendered == "" then block[..MinNat(|block|, limit)]
    else
      var joined := rendered + SEPARATOR + block;
      joined[..MinNat(|joined|, limit)]
  }

  predicate EndsWith(s: string, end: string) {
    |end| <= |s| && s[|s| - |end|..] == end
  }

  /** The last complete block of the text, if it is shorter than the limit, ends the result. */
  predicate KeepsLastBlock(text: string, maxChars: int, r: string) {
    var last := LastBlock(text, 0);
    last.Some? ==>
      var block := text[last.value.0..last.value.1];
      |block| < maxChars ==> EndsWith(r, block)
  }

  /**
    `truncate_preserving_current_ci`: within the limit, and the last complete block survives whole at
    the end whenever it fits.
   */
  function TruncatePreservingCi(text: string, maxChars: int): (r: string)
    ensures |r| <= MaxInt(0, maxChars)
    ensures |text| <= MaxInt(0, maxChars) ==> r == text
    ensures |text| > maxChars ==> KeepsLastBlock(text, maxChars, r)
  {
    var limit := MaxInt(0, maxChars);
    if |text| <= limit then text
    else
      var last := LastBlock(text, 0);
      if last.None? then TruncateSection(text, limit)
      else
        var block := text[last.value.0..last.value.1];
        if |block| >= limit then TruncateSection(block, limit)
        else KeepBlock(Outside(text), block, limit)
  }

  /** The text without its complete blocks and without any stray delimiter. */
  function Outside(text: string): string {
    StripRight(Erase(Erase(WithoutBlocks(text, 0), CI_START, 0), CI_END, 0))
  }
}
