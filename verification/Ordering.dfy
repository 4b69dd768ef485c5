/** Sorting by a tuple key of integers and strings, as Python's `sorted` does: stable, in ascending order. */
module Ordering {
  datatype Part = Num(n: int) | Text(s: string)

  type SortKey = seq<Part>

  function CompareInt(a: int, b: int): int {
    if a < b then -1 else if a > b then 1 else 0
  }

  function CompareText(a: string, b: string): int {
    if a == [] || b == [] then CompareInt(|a|, |b|)
    else if a[0] != b[0] then CompareInt(a[0] as int, b[0] as int)
    else CompareText(a[1..], b[1..])
  }

  function ComparePart(a: Part, b: Part): int {
    match (a, b)
    case (Num(m), Num(n)) => CompareInt(m, n)
    case (Num(_), Text(_)) => -1
    case (Text(_), Num(_)) => 1
    case (Text(s), Text(t)) => CompareText(s, t)
  }

  function CompareKey(a: SortKey, b: SortKey): int {
    if a == [] || b == [] then CompareInt(|a|, |b|)
    else if ComparePart(a[0], b[0]) != 0 then ComparePart(a[0], b[0])
    else CompareKey(a[1..], b[1..])
  }

  predicate Le(a: SortKey, b: SortKey) {
    CompareKey(a, b) <= 0
  }

  lemma {:induction false} TextOrder(a: string, b: string)
    ensures CompareText(b, a) == -CompareText(a, b)
    ensures CompareText(a, b) == 0 <==> a == b
  {
    if a != [] && b != [] && a[0] == b[0] {
      TextOrder(a[1..], b[1..]);
      assert a == [a[0]] + a[1..] && b == [b[0]] + b[1..];
    }
  }

  lemma {:induction false} TextTransitive(a: string, b: string, c: string)
    requires CompareText(a, b) <= 0 && CompareText(b, c) <= 0
    ensures CompareText(a, c) <= 0
  {
    if a != [] && b != [] && c != [] && a[0] == b[0] == c[0] { TextTransitive(a[1..], b[1..], c[1..]); }
  }

  lemma PartOrder(a: Part, b: Part)
    ensures ComparePart(b, a) == -ComparePart(a, b)
    ensures ComparePart(a, b) == 0 <==> a == b
  {
    if a.Text? && b.Text? { TextOrder(a.s, b.s); }
  }

  lemma PartTransitive(a: Part, b: Part, c: Part)
    requires ComparePart(a, b) <= 0 && ComparePart(b, c) <= 0
    ensures ComparePart(a, c) <= 0
  {
    if a.Text? && b.Text? && c.Text? { TextTransitive(a.s, b.s, c.s); }
  }

  lemma {:induction false} KeyOrder(a: SortKey, b: SortKey)
    ensures CompareKey(b, a) == -CompareKey(a, b)
    ensures CompareKey(a, b) == 0 <==> a == b
  {
    if a != [] && b != [] {
      PartOrder(a[0], b[0]);
      KeyOrder(a[1..], b[1..]);
      assert a == [a[0]] + a[1..] && b == [b[0]] + b[1..];
    }
  }

  /** The key order is total and transitive, and only equal keys compare equal. */
  lemma {:induction false} KeyTransitive(a: SortKey, b: SortKey, c: SortKey)
    requires Le(a, b) && Le(b, c)
    ensures Le(a, c)
  {
    if a != [] && b != [] && c != [] {
      PartTransitive(a[0], b[0], c[0]);
      PartOrder(a[0], b[0]);
      PartOrder(b[0], c[0]);
      PartOrder(a[0], c[0]);
      if a[0] == b[0] == c[0] { KeyTransitive(a[1..], b[1..], c[1..]); }
    }
  }

  // ---------------------------------------------------------------------- sorting

  ghost predicate Ascending<T(!new)>(s: seq<T>, key: T -> SortKey) {
    forall i, j :: 0 <= i < j < |s| ==> Le(key(s[i]), key(s[j]))
  }

  /** Places one element after everything that does not exceed it. */
  function Insert<T>(s: seq<T>, x: T, key: T -> SortKey): seq<T> {
    if s == [] || Le(key(s[|s| - 1]), key(x)) then s + [x]
    else Insert(s[..|s| - 1], x, key) + [s[|s| - 1]]
  }

  function Sort<T>(s: seq<T>, key: T -> SortKey): seq<T> {
    if s == [] then [] else Insert(Sort(s[..|s| - 1], key), s[|s| - 1], key)
  }

  lemma {:induction false} InsertKeeps<T(!new)>(s: seq<T>, x: T, key: T -> SortKey)
    ensures multiset(Insert(s, x, key)) == multiset(s) + multiset{x}
    ensures Ascending(s, key) ==> Ascending(Insert(s, x, key), key)
  {
    if s != [] {
      var front, last := s[..|s| - 1], s[|s| - 1];
      assert s == front + [last];
      if Le(key(last), key(x)) {
        if Ascending(s, key) {
          forall i | 0 <= i < |s|
            ensures Le(key(s[i]), key(x))
          {
            if i < |s| - 1 { KeyTransitive(key(s[i]), key(last), key(x)); }
          }
        }
      } else {
        InsertKeeps(front, x, key);
        KeyOrder(key(last), key(x));
        if Ascending(s, key) { InsertedBelow(front, x, last, key); }
      }
    }
  }

  lemma InsertedBelow<T(!new)>(front: seq<T>, x: T, last: T, key: T -> SortKey)
    requires Ascending(front + [last], key) && Le(key(x), key(last))
    requires multiset(Insert(front, x, key)) == multiset(front) + multiset{x}
    requires Ascending(front, key) ==> Ascending(Insert(front, x, key), key)
    ensures Ascending(Insert(front, x, key) + [last], key)
  {
    var inner := Insert(front, x, key);
    assert forall i :: 0 <= i < |front| ==> (front + [last])[i] == front[i];
    forall i | 0 <= i < |inner|
      ensures Le(key(inner[i]), key(last))
    {
      assert inner[i] in multiset(inner);
      if inner[i] != x {
        assert inner[i] in multiset(front);
        var j :| 0 <= j < |front| && front[j] == inner[i];
        assert Le(key((front + [last])[j]), key((front + [last])[|front|]));
      }
    }
  }

  /** Sorting permutes and orders. */
  lemma {:induction false} SortSorts<T(!new)>(s: seq<T>, key: T -> SortKey)
    ensures multiset(Sort(s, key)) == multiset(s)
    ensures Ascending(Sort(s, key), key)
  {
    if s != [] {
      var front, last := s[..|s| - 1], s[|s| - 1];
      SortSorts(front, key);
      InsertKeeps(Sort(front, key), last, key);
      assert s == front + [last];
    }
  }

  ghost predicate KeyDecides<T(!new)>(s: seq<T>, key: T -> SortKey) {
    forall x, y :: x in s && y in s && key(x) == key(y) ==> x == y
  }

  lemma LastIsGreatest<T(!new)>(s: seq<T>, x: T, key: T -> SortKey)
    requires Ascending(s, key) && x in multiset(s)
    ensures |s| > 0 && Le(key(x), key(s[|s| - 1]))
  {
    var i :| 0 <= i < |s| && s[i] == x;
    KeyOrder(key(x), key(x));
  }

  lemma SameLast<T(!new)>(a: seq<T>, b: seq<T>, key: T -> SortKey)
    requires Ascending(a, key) && Ascending(b, key) && multiset(a) == multiset(b) && KeyDecides(a, key)
    requires a != [] && b != []
    ensures a[|a| - 1] == b[|b| - 1]
  {
    var m, n := a[|a| - 1], b[|b| - 1];
    assert m in multiset(a) && n in multiset(b);
    LastIsGreatest(a, n, key);
    LastIsGreatest(b, m, key);
    KeyOrder(key(m), key(n));
  }

  lemma FrontMultiset<T>(s: seq<T>)
    requires s != []
    ensures multiset(s[..|s| - 1]) == multiset(s) - multiset{s[|s| - 1]}
  {
    assert s == s[..|s| - 1] + [s[|s| - 1]];
  }

  lemma FrontIsOrdered<T(!new)>(s: seq<T>, key: T -> SortKey)
    requires s != [] && Ascending(s, key) && KeyDecides(s, key)
    ensures Ascending(s[..|s| - 1], key) && KeyDecides(s[..|s| - 1], key)
  {
    hide CompareKey;
  }

  lemma {:induction false} OneOrder<T(!new)>(a: seq<T>, b: seq<T>, key: T -> SortKey)
    requires Ascending(a, key) && Ascending(b, key) && multiset(a) == multiset(b) && KeyDecides(a, key)
    ensures a == b
  {
    hide Ascending, KeyDecides;
    assert |a| == |multiset(a)| == |multiset(b)| == |b|;
    if a != [] {
      SameLast(a, b, key);
      KeysDecideBoth(a, b, key);
      FrontIsOrdered(a, key);
      FrontIsOrdered(b, key);
      FrontMultiset(a);
      FrontMultiset(b);
      OneOrder(a[..|a| - 1], b[..|b| - 1], key);
      assert a == a[..|a| - 1] + [a[|a| - 1]] && b == b[..|b| - 1] + [b[|b| - 1]];
    }
  }

  lemma KeysDecideBoth<T(!new)>(a: seq<T>, b: seq<T>, key: T -> SortKey)
    requires multiset(a) == multiset(b) && KeyDecides(a, key)
    ensures KeyDecides(b, key)
  {
    forall x | x in b
      ensures x in a
    {
      assert x in multiset(b) && x in multiset(a);
    }
  }

  /** When the key tells elements apart, the sorted order does not depend on the input order. */
  lemma SortIgnoresOrder<T(!new)>(a: seq<T>, b: seq<T>, key: T -> SortKey)
    requires multiset(a) == multiset(b) && KeyDecides(a, key)
    ensures Sort(a, key) == Sort(b, key)
  {
    SortSorts(a, key);
    SortSorts(b, key);
    forall x | x in Sort(a, key)
      ensures x in a
    {
      assert x in multiset(Sort(a, key));
      assert x in multiset(a);
    }
    OneOrder(Sort(a, key), Sort(b, key), key);
  }

  lemma OccursTwice<T>(s: seq<T>, p: nat, q: nat)
    requires p < q < |s| && s[p] == s[q]
    ensures multiset(s)[s[p]] >= 2
  {
    assert s == s[..q] + [s[q]] + s[q + 1..];
    assert s[..q][p] in multiset(s[..q]);
  }

  lemma SameMembers<T>(a: seq<T>, b: seq<T>, x: T)
    requires multiset(a) == multiset(b)
    ensures x in a <==> x in b
    ensures |a| == |b|
  {
    assert x in a <==> x in multiset(a);
    assert x in b <==> x in multiset(b);
    assert |multiset(a)| == |multiset(b)|;
  }
}
