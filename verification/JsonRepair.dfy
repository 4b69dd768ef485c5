/**
  Representation repair of a JSON object against a parser that is only an oracle: what it accepts, and
  where and why it stops, is arbitrary. String rules are those of section 7 of RFC 8259.
 */
module JsonRepair {
  import opened Wrappers
  import opened Strings

  const MAX_EDITS := 20

  datatype Value = Object(content: string) | List(items: seq<Value>) | Scalar(text: string)

  datatype Message =
    | InvalidControlCharacter | ExpectingComma | InvalidEscape | ExtraData
    | ExpectingProperty | ExpectingValue | IllegalTrailingInArray | IllegalTrailingInObject
    | OtherMessage(text: string)

  datatype Parse = Parsed(value: Value) | Failed(message: Message, position: nat)

  /** The parser and the character classes of the host. */
  datatype Host = Host(
    parse: string -> Parse,
    parseLenient: string -> Option<Value>,
    decodePrefix: string -> Option<(Value, nat)>,
    dump: Value -> string,
    letter: char -> bool)

  predicate Digit(c: char) {
    '0' <= c <= '9'
  }

  predicate Opener(c: char) {
    c == '[' || c == '{'
  }

  predicate Closes(c: char) {
    c == ']' || c == '}'
  }

  function CloserOf(opener: char): char {
    if opener == '[' then ']' else '}'
  }

  // ---------------------------------------------------------- looking around a point

  /** The nearest non-space character before a position. */
  method PreviousNonspace(text: string, position: nat) returns (index: int)
    ensures -1 <= index < |text| && index < position
    ensures index >= 0 ==> !Space(text[index])
    ensures forall i :: index < i < position && i < |text| ==> Space(text[i])
  {
    index := if position <= |text| then position - 1 else |text| - 1;
    while index >= 0 && Space(text[index])
      invariant -1 <= index < |text| && index < position
      invariant forall i :: index < i < position && i < |text| ==> Space(text[i])
    {
      index := index - 1;
    }
  }

  /** The nearest non-space character at or after a position. */
  method NextNonspace(text: string, position: nat) returns (index: nat)
    ensures index >= position && (index < |text| ==> !Space(text[index]))
    ensures forall i :: position <= i < index && i < |text| ==> Space(text[i])
  {
    index := position;
    while index < |text| && Space(text[index])
      invariant index >= position
      invariant forall i :: position <= i < index && i < |text| ==> Space(text[i])
    {
      index := index + 1;
    }
  }

  /** The number of backslashes immediately before a position. */
  function Backslashes(text: string, position: nat): nat
    requires position <= |text|
  {
    if position > 0 && text[position - 1] == '\\' then 1 + Backslashes(text, position - 1) else 0
  }

  predicate Escaped(text: string, position: nat)
    requires position <= |text|
  {
    Backslashes(text, position) % 2 == 1
  }

  method IsEscaped(text: string, position: nat) returns (escaped: bool)
    requires position <= |text|
    ensures escaped == Escaped(text, position)
  {
    var count := 0;
    var index := position;
    while index > 0 && text[index - 1] == '\\'
      invariant 0 <= index <= position
      invariant count + Backslashes(text, index) == Backslashes(text, position)
    {
      count := count + 1;
      index := index - 1;
    }
    escaped := count % 2 == 1;
  }

  lemma {:induction false} BackslashesOfPrefix(a: string, b: string, position: nat)
    requires position <= |a| && position <= |b| && a[..position] == b[..position]
    ensures Backslashes(a, position) == Backslashes(b, position)
  {
    if position > 0 {
      assert a[..position][position - 1] == a[position - 1] && b[..position][position - 1] == b[position - 1];
      assert a[..position - 1] == a[..position][..position - 1] && b[..position - 1] == b[..position][..position - 1];
      BackslashesOfPrefix(a, b, position - 1);
    }
  }

  // ------------------------------------------------------------------ bracket scan

  /** Whether the text before n ends inside a string. */
  function InString(text: string, n: nat): bool
    requires n <= |text|
  {
    if n == 0 then false
    else if text[n - 1] == '"' && !Escaped(text, n - 1) then !InString(text, n - 1)
    else InString(text, n - 1)
  }

  /** The brackets outside strings before n. */
  function Brackets(text: string, n: nat): string
    requires n <= |text|
  {
    if n == 0 then ""
    else if (Opener(text[n - 1]) || Closes(text[n - 1])) && !InString(text, n - 1)
    then Brackets(text, n - 1) + [text[n - 1]]
    else Brackets(text, n - 1)
  }

  /** The open brackets left after reading a bracket sequence; none if a closer does not match. */
  function OpenAfter(brackets: string): (r: Option<string>)
    ensures r.Some? ==> AllOpen(r.value)
  {
    if brackets == "" then Some("")
    else
      var before, c := OpenAfter(brackets[..|brackets| - 1]), brackets[|brackets| - 1];
      if before.None? then None
      else if Opener(c) then Some(before.value + [c])
      else if before.value == "" || c != CloserOf(before.value[|before.value| - 1]) then None
      else Some(before.value[..|before.value| - 1])
  }

  lemma {:induction false} BrokenStays(brackets: string, n: nat)
    requires n <= |brackets| && OpenAfter(brackets[..n]).None?
    ensures OpenAfter(brackets).None?
    decreases |brackets|
  {
    if n == |brackets| {
      assert brackets[..n] == brackets;
    } else {
      assert brackets[..|brackets| - 1][..n] == brackets[..n];
      BrokenStays(brackets[..|brackets| - 1], n);
    }
  }

  lemma {:induction false} BracketsGrow(text: string, m: nat, n: nat)
    requires m <= n <= |text|
    ensures Brackets(text, m) <= Brackets(text, n)
    decreases n
  {
    if m < n { BracketsGrow(text, m, n - 1); }
  }

  /** What the scan before a position requires there. */
  function RequiredCloser(text: string, position: nat): Option<char> {
    if position >= |text| || !Closes(text[position]) || InString(text, position) then None
    else
      var open := OpenAfter(Brackets(text, position));
      if open.None? || open.value == "" || text[position] == CloserOf(open.value[|open.value| - 1]) then None
      else Some(CloserOf(open.value[|open.value| - 1]))
  }

  /** One character of the scan. */
  lemma ScanStep(text: string, n: nat, stack: string)
    requires n < |text| && OpenAfter(Brackets(text, n)) == Some(stack)
    ensures var c, quoted := text[n], InString(text, n);
            && InString(text, n + 1) == (if c == '"' && !Escaped(text, n) then !quoted else quoted)
            && OpenAfter(Brackets(text, n + 1)) ==
               if quoted || !(Opener(c) || Closes(c)) then Some(stack)
               else if Opener(c) then Some(stack + [c])
               else if stack == "" || c != CloserOf(stack[|stack| - 1]) then None
               else Some(stack[..|stack| - 1])
  {
    hide Escaped;
    var before, c := Brackets(text, n), text[n];
    assert (before + [c])[..|before|] == before;
  }

  lemma ScanBreaks(text: string, n: nat, position: nat)
    requires n <= position <= |text| && OpenAfter(Brackets(text, n)).None?
    ensures OpenAfter(Brackets(text, position)).None?
  {
    hide OpenAfter;
    BracketsGrow(text, n, position);
    var all := Brackets(text, position);
    assert all[..|Brackets(text, n)|] == Brackets(text, n);
    BrokenStays(all, |Brackets(text, n)|);
  }

  /** `_mismatched_closer_replacement`: one pass with a stack. */
  method MismatchedCloserReplacement(text: string, position: nat) returns (closer: Option<char>)
    ensures closer == RequiredCloser(text, position)
  {
    hide Escaped, InString, Brackets, OpenAfter;
    if position >= |text| || !Closes(text[position]) { return None; }
    var stack: string := "";
    var inString := false;
    ScanStarts(text);
    for n := 0 to position
      invariant inString == InString(text, n)
      invariant OpenAfter(Brackets(text, n)) == Some(stack)
    {
      var c := text[n];
      ScanStep(text, n, stack);
      var escaped := IsEscaped(text, n);
      if c == '"' && !escaped {
        inString := !inString;
      } else if !inString {
        if Opener(c) {
          stack := stack + [c];
        } else if Closes(c) {
          if stack == "" || c != CloserOf(stack[|stack| - 1]) {
            ScanBreaks(text, n + 1, position);
            return None;
          }
          stack := stack[..|stack| - 1];
        }
      }
    }
    if inString || stack == "" { return None; }
    var expected := CloserOf(stack[|stack| - 1]);
    closer := if text[position] != expected then Some(expected) else None;
  }

  lemma ScanStarts(text: string)
    ensures !InString(text, 0) && OpenAfter(Brackets(text, 0)) == Some("")
  {
  }

  // ------------------------------------------------- nesting, defined without a scan

  /** Properly nested brackets, as the trees they spell. */
  datatype Forest = Leaf | Pair(opener: char, inner: Forest, rest: Forest)

  function Spell(f: Forest): string {
    match f
    case Leaf => ""
    case Pair(opener, inner, rest) => [opener] + Spell(inner) + [CloserOf(opener)] + Spell(rest)
  }

  predicate Proper(f: Forest) {
    match f
    case Leaf => true
    case Pair(opener, inner, rest) => Opener(opener) && Proper(inner) && Proper(rest)
  }

  /** Nested groups separated by openers that nothing has closed yet; here up to the last such opener. */
  function BeforeLast(groups: seq<Forest>, open: string): string
    requires |groups| >= |open|
    decreases |open|
  {
    if open == "" then ""
    else
      var n := |open| - 1;
      BeforeLast(groups, open[..n]) + Spell(groups[n]) + [open[n]]
  }

  function Unclosed(groups: seq<Forest>, open: string): string
    requires |groups| == |open| + 1
  {
    BeforeLast(groups, open) + Spell(groups[|open|])
  }

  lemma {:induction false} BeforeLastReads(a: seq<Forest>, b: seq<Forest>, open: string)
    requires |a| >= |open| && |b| >= |open| && forall i :: 0 <= i < |open| ==> a[i] == b[i]
    ensures BeforeLast(a, open) == BeforeLast(b, open)
    decreases |open|
  {
    if open != "" { BeforeLastReads(a, b, open[..|open| - 1]); }
  }

  ghost predicate Nested(brackets: string, open: string) {
    exists groups: seq<Forest> ::
      |groups| == |open| + 1 && (forall g :: g in groups ==> Proper(g)) && brackets == Unclosed(groups, open)
  }

  predicate AllOpen(open: string) {
    forall i :: 0 <= i < |open| ==> Opener(open[i])
  }

  ghost predicate WellNested(brackets: string) {
    exists open :: AllOpen(open) && Nested(brackets, open)
  }

  function Then(f: Forest, opener: char, inner: Forest): Forest {
    match f
    case Leaf => Pair(opener, inner, Leaf)
    case Pair(o, i, rest) => Pair(o, i, Then(rest, opener, inner))
  }

  lemma {:induction false} ThenSpells(f: Forest, opener: char, inner: Forest)
    ensures Spell(Then(f, opener, inner)) == Spell(f) + [opener] + Spell(inner) + [CloserOf(opener)]
    ensures Proper(f) && Opener(opener) && Proper(inner) ==> Proper(Then(f, opener, inner))
  {
    if f.Pair? { ThenSpells(f.rest, opener, inner); }
  }

  lemma {:induction false} ScanIsNested(brackets: string)
    requires OpenAfter(brackets).Some?
    ensures Nested(brackets, OpenAfter(brackets).value)
  {
    if brackets == "" {
      assert Unclosed([Leaf], "") == "";
      assert Proper(Leaf);
    } else {
      var front, c := brackets[..|brackets| - 1], brackets[|brackets| - 1];
      assert brackets == front + [c];
      ScanIsNested(front);
      var open := OpenAfter(front).value;
      var groups: seq<Forest> :| |groups| == |open| + 1 && (forall g :: g in groups ==> Proper(g))
                                 && front == Unclosed(groups, open);
      if Opener(c) {
        OpenedIsNested(groups, open, c);
      } else {
        ClosedIsNested(groups, open);
      }
    }
  }

  lemma OpenedIsNested(groups: seq<Forest>, open: string, c: char)
    requires |groups| == |open| + 1 && (forall g :: g in groups ==> Proper(g))
    ensures Nested(Unclosed(groups, open) + [c], open + [c])
  {
    var more := groups + [Leaf];
    assert (open + [c])[..|open|] == open;
    BeforeLastReads(groups, more, open);
    assert Unclosed(more, open + [c]) == Unclosed(groups, open) + [c];
  }

  lemma UnclosedLast(groups: seq<Forest>, open: string)
    requires |groups| == |open| + 1 && open != ""
    ensures var n := |open| - 1;
            Unclosed(groups, open)
            == BeforeLast(groups, open[..n]) + Spell(groups[n]) + [open[n]] + Spell(groups[n + 1])
  {
    hide Spell;
  }

  lemma Regroup(a: string, b: string, c: char, d: string, e: char)
    ensures (a + b + [c] + d) + [e] == a + (b + [c] + d + [e])
  {
  }

  lemma ClosedIsNested(groups: seq<Forest>, open: string)
    requires |groups| == |open| + 1 && open != "" && (forall g :: g in groups ==> Proper(g)) && Opener(open[|open| - 1])
    ensures Nested(Unclosed(groups, open) + [CloserOf(open[|open| - 1])], open[..|open| - 1])
  {
    hide Then, Spell, BeforeLast, Proper;
    var n := |open| - 1;
    var joined := Then(groups[n], open[n], groups[n + 1]);
    assert groups[n] in groups && groups[n + 1] in groups;
    ThenSpells(groups[n], open[n], groups[n + 1]);
    var fewer := groups[..n] + [joined];
    assert forall g :: g in fewer ==> g in groups || g == joined;
    BeforeLastReads(groups, fewer, open[..n]);
    UnclosedLast(groups, open);
    Regroup(BeforeLast(groups, open[..n]), Spell(groups[n]), open[n], Spell(groups[n + 1]), CloserOf(open[n]));
    assert Unclosed(fewer, open[..n]) == BeforeLast(groups, open[..n]) + Spell(joined);
  }

  lemma OpenAfterStep(brackets: string, c: char)
    ensures OpenAfter(brackets + [c]) ==
            var before := OpenAfter(brackets);
            if before.None? then None
            else if Opener(c) then Some(before.value + [c])
            else if before.value == "" || c != CloserOf(before.value[|before.value| - 1]) then None
            else Some(before.value[..|before.value| - 1])
  {
    assert (brackets + [c])[..|brackets|] == brackets;
  }

  /** Reading nested brackets leaves the open ones as they were. */
  lemma {:induction false} SpellKeepsOpen(prefix: string, f: Forest)
    requires OpenAfter(prefix).Some? && Proper(f)
    ensures OpenAfter(prefix + Spell(f)) == OpenAfter(prefix)
    decreases f
  {
    hide OpenAfter;
    if f == Leaf {
      assert prefix + Spell(f) == prefix;
    } else {
      var begun := prefix + [f.opener];
      OpenAfterStep(prefix, f.opener);
      SpellKeepsOpen(begun, f.inner);
      OpenAfterStep(begun + Spell(f.inner), CloserOf(f.opener));
      var closed := begun + Spell(f.inner) + [CloserOf(f.opener)];
      var before := OpenAfter(prefix).value;
      assert (before + [f.opener])[..|before|] == before;
      SpellKeepsOpen(closed, f.rest);
      assert closed + Spell(f.rest) == prefix + Spell(f);
    }
  }

  lemma {:induction false} NestedScans(groups: seq<Forest>, open: string)
    requires |groups| == |open| + 1 && (forall g :: g in groups ==> Proper(g))
    requires AllOpen(open)
    ensures OpenAfter(Unclosed(groups, open)) == Some(open)
    decreases |open|
  {
    hide OpenAfter, Spell, BeforeLast;
    var n := |open|;
    assert groups[n] in groups;
    if open == "" {
      NothingBefore(groups);
      SpellKeepsOpen("", groups[0]);
      assert "" + Spell(groups[0]) == Spell(groups[0]);
    } else {
      NestedScans(groups[..n], open[..n - 1]);
      OpenAfterStep(Unclosed(groups[..n], open[..n - 1]), open[n - 1]);
      UnclosedLast(groups, open);
      BeforeLastReads(groups, groups[..n], open[..n - 1]);
      var begun := Unclosed(groups[..n], open[..n - 1]) + [open[n - 1]];
      assert open == open[..n - 1] + [open[n - 1]];
      SpellKeepsOpen(begun, groups[n]);
      assert begun + Spell(groups[n]) == Unclosed(groups, open);
    }
  }

  lemma NothingBefore(groups: seq<Forest>)
    ensures BeforeLast(groups, "") == "" && OpenAfter("") == Some("")
  {
  }

  /** The one-pass scan decides nesting exactly: its stack is what no reading of the text has closed. */
  lemma ScanDecidesNesting(brackets: string, open: string)
    requires AllOpen(open)
    ensures OpenAfter(brackets) == Some(open) <==> Nested(brackets, open)
  {
    hide OpenAfter, Proper;
    if OpenAfter(brackets) == Some(open) { ScanIsNested(brackets); }
    if Nested(brackets, open) {
      var groups: seq<Forest> :| |groups| == |open| + 1 && (forall g :: g in groups ==> Proper(g))
                                 && brackets == Unclosed(groups, open);
      NestedScans(groups, open);
    }
  }

  lemma {:induction false} PrefixScan(a: string, b: string, n: nat)
    requires n <= |a| && n <= |b| && a[..n] == b[..n]
    ensures InString(a, n) == InString(b, n) && Brackets(a, n) == Brackets(b, n)
  {
    if n > 0 {
      assert a[..n][n - 1] == a[n - 1] && b[..n][n - 1] == b[n - 1];
      assert a[..n - 1] == a[..n][..n - 1] && b[..n - 1] == b[..n][..n - 1];
      PrefixScan(a, b, n - 1);
      BackslashesOfPrefix(a, b, n - 1);
    }
  }

  /**
    A replaced closer nests: up to and including it the new text is well nested, the old text was not,
    and no other character but this closer would close there.
   */
  lemma ReplacedCloserNests(text: string, position: nat)
    requires RequiredCloser(text, position).Some?
    ensures var c := RequiredCloser(text, position).value;
            var repaired := text[..position] + [c] + text[position + 1..];
            && WellNested(Brackets(repaired, position + 1))
            && !WellNested(Brackets(text, position + 1))
            && c != text[position]
  {
    hide OpenAfter, Nested, Brackets, InString;
    var c := RequiredCloser(text, position).value;
    var repaired := text[..position] + [c] + text[position + 1..];
    var open := OpenAfter(Brackets(text, position)).value;
    PrefixScan(text, repaired, position);
    ScanStep(repaired, position, open);
    ScanStep(text, position, open);
    ScanDecidesNesting(Brackets(repaired, position + 1), open[..|open| - 1]);
    var broken := Brackets(text, position + 1);
    forall other | AllOpen(other)
      ensures !Nested(broken, other)
    {
      ScanDecidesNesting(broken, other);
    }
    assert AllOpen(open[..|open| - 1]);
  }

  // ------------------------------------------------------------------- erased text

  predicate Delimiter(c: char) {
    c == '\\' || c == ',' || c == '}' || c == ']'
  }

  /** The text without backslashes, commas and closers: everything that carries keys and values. */
  function Erase(text: string): string {
    if text == "" then ""
    else if Delimiter(text[|text| - 1]) then Erase(text[..|text| - 1])
    else Erase(text[..|text| - 1]) + [text[|text| - 1]]
  }

  lemma {:induction false} EraseAppend(a: string, b: string)
    ensures Erase(a + b) == Erase(a) + Erase(b)
  {
    if b == "" {
      assert a + b == a;
    } else {
      EraseAppend(a, b[..|b| - 1]);
      assert (a + b)[..|a + b| - 1] == a + b[..|b| - 1];
    }
  }

  /** Rewriting a piece to one with the same erased text keeps the erased text. */
  lemma RewriteKeeps(text: string, i: nat, j: nat, piece: string)
    requires i <= j <= |text| && Erase(piece) == Erase(text[i..j])
    ensures Erase(text[..i] + piece + text[j..]) == Erase(text)
  {
    hide Erase;
    EraseAppend(text[..i], piece);
    EraseAppend(text[..i] + piece, text[j..]);
    EraseAppend(text[..i], text[i..j]);
    EraseAppend(text[..i] + text[i..j], text[j..]);
    assert text == text[..i] + text[i..j] + text[j..];
  }

  lemma EraseDelimiter(c: char)
    ensures Delimiter(c) ==> Erase([c]) == ""
  {
    assert [c][..0] == "";
  }

  // -------------------------------------------------------------------- edit sites

  /** A bare quote before a letter at which the parser wanted a comma, with only space between the two. */
  predicate QuoteBefore(text: string, message: Message, position: nat, host: Host, q: nat) {
    && message == ExpectingComma && q < position < |text| && host.letter(text[position])
    && text[q] == '"' && !Escaped(text, q) && forall i :: q < i < position ==> Space(text[i])
  }

  lemma OneQuoteBefore(text: string, message: Message, position: nat, host: Host, a: nat, b: nat)
    requires QuoteBefore(text, message, position, host, a) && QuoteBefore(text, message, position, host, b)
    ensures a == b
  {
    hide Escaped;
  }

  method InnerQuoteIndex(text: string, message: Message, position: nat, host: Host) returns (r: Option<nat>)
    ensures r.Some? ==> QuoteBefore(text, message, position, host, r.value)
    ensures r.None? ==> forall q: nat :: !QuoteBefore(text, message, position, host, q)
  {
    hide Escaped;
    if message != ExpectingComma { return None; }
    var index := PreviousNonspace(text, position);
    if index < 0 || text[index] != '"' { return None; }
    var escaped := IsEscaped(text, index);
    if escaped || position >= |text| { return None; }
    r := if host.letter(text[position]) then Some(index) else None;
  }

  /** Two bare quotes, the second at the parser's point and the first inside a string. */
  predicate BarePair(text: string, message: Message, position: nat) {
    && message == ExpectingComma && 0 < position < |text| && text[position - 1] == '"' && text[position] == '"'
    && !Escaped(text, position - 1) && !Escaped(text, position) && InString(text, position - 1)
  }

  /** The position of the first quote of a bare pair inside a string. */
  method EmptyQuotePair(text: string, message: Message, position: nat) returns (r: Option<nat>)
    ensures r.Some? <==> BarePair(text, message, position)
    ensures r.Some? ==> r.value + 1 == position
  {
    if message != ExpectingComma || position == 0 || position >= |text| { return None; }
    if text[position - 1] != '"' || text[position] != '"' { return None; }
    var first := IsEscaped(text, position - 1);
    var second := IsEscaped(text, position);
    if first || second { return None; }
    var inString := false;
    for n := 0 to position - 1
      invariant inString == InString(text, n)
    {
      var escaped := IsEscaped(text, n);
      if text[n] == '"' && !escaped { inString := !inString; }
    }
    r := if inString then Some(position - 1) else None;
  }

  predicate BeforeCloser(text: string, c: nat) {
    exists k :: c < k < |text| && Closes(text[k]) && forall i :: c < i < k ==> Space(text[i])
  }

  predicate CommaMessage(message: Message) {
    || message == ExpectingProperty || message == ExpectingValue
    || message == IllegalTrailingInArray || message == IllegalTrailingInObject
  }

  /** A comma with only space between it and a closer, at the parser's point or as the last thing before it. */
  predicate TrailingComma(text: string, message: Message, position: nat, c: nat) {
    && CommaMessage(message) && text != ""
    && var at := if position < |text| then position else |text| - 1;
       && c <= at && text[c] == ',' && BeforeCloser(text, c)
       && (c < at ==> text[at] != ',' && forall i :: c < i < at ==> Space(text[i]))
  }

  lemma OneTrailingComma(text: string, message: Message, position: nat, a: nat, b: nat)
    requires TrailingComma(text, message, position, a) && TrailingComma(text, message, position, b)
    ensures a == b
  {
    hide BeforeCloser;
  }

  method TrailingCommaIndex(text: string, message: Message, position: nat) returns (r: Option<nat>)
    ensures r.Some? ==> TrailingComma(text, message, position, r.value)
    ensures r.None? ==> forall c: nat :: !TrailingComma(text, message, position, c)
  {
    if !CommaMessage(message) || text == "" { return None; }
    var at := if position < |text| then position else |text| - 1;
    var comma: int := at;
    if text[at] != ',' {
      comma := PreviousNonspace(text, at);
      if comma < 0 || text[comma] != ',' { return None; }
    }
    var following := NextNonspace(text, comma + 1);
    if following < |text| && Closes(text[following]) {
      r := Some(comma);
    } else {
      r := None;
      NotBeforeCloser(text, comma, following);
    }
  }

  lemma NotBeforeCloser(text: string, c: nat, following: nat)
    requires c < following && (forall i :: c < i < following && i < |text| ==> Space(text[i]))
    requires following < |text| ==> !Space(text[following]) && !Closes(text[following])
    ensures !BeforeCloser(text, c)
  {
  }

  predicate EndsValue(c: char) {
    c == '"' || c == '}' || c == ']' || Digit(c) || c == 'e' || c == 'l'
  }

  predicate StartsValue(c: char) {
    c == '"' || c == '{' || c == '[' || c == '-' || c == 't' || c == 'f' || c == 'n' || Digit(c)
  }

  predicate AfterValue(text: string, position: nat) {
    exists k :: 0 <= k < position && k < |text| && EndsValue(text[k])
                && forall i :: k < i < position && i < |text| ==> Space(text[i])
  }

  /** The start of a value after the end of another, with only space around the parser's point. */
  predicate MissingComma(text: string, message: Message, position: nat, f: nat) {
    && message == ExpectingComma && position <= f < |text| && StartsValue(text[f]) && AfterValue(text, position)
    && forall i :: position <= i < f ==> Space(text[i])
  }

  lemma OneMissingComma(text: string, message: Message, position: nat, a: nat, b: nat)
    requires MissingComma(text, message, position, a) && MissingComma(text, message, position, b)
    ensures a == b
  {
    hide AfterValue;
  }

  /** Whether a missing comma may be inserted, and where. */
  method MissingCommaIndex(text: string, message: Message, position: nat) returns (r: Option<nat>)
    ensures r.Some? ==> MissingComma(text, message, position, r.value)
    ensures r.None? ==> forall f: nat :: !MissingComma(text, message, position, f)
  {
    var previous := PreviousNonspace(text, position);
    var following := NextNonspace(text, position);
    if message != ExpectingComma || previous < 0 || following >= |text| { return None; }
    r := if EndsValue(text[previous]) && StartsValue(text[following]) then Some(following) else None;
    if !EndsValue(text[previous]) { NotAfterValue(text, position, previous); }
  }

  lemma NotAfterValue(text: string, position: nat, previous: nat)
    requires previous < position && previous < |text| && !Space(text[previous]) && !EndsValue(text[previous])
    requires forall i :: previous < i < position && i < |text| ==> Space(text[i])
    ensures !AfterValue(text, position)
  {
  }

  /** The first closing brace of a suffix that holds one and nothing else but space. */
  method ExtraBraceIndex(suffix: string) returns (r: Option<nat>)
    ensures r.Some? <==> Strip(suffix) == "}"
    ensures r.Some? ==> r.value < |suffix| && suffix[r.value] == '}' && '}' !in suffix[..r.value]
  {
    if Strip(suffix) != "}" { return None; }
    StripComesFrom(suffix);
    var n := 0;
    while suffix[n] != '}'
      invariant 0 <= n < |suffix| && '}' in suffix[n..] && '}' !in suffix[..n]
      decreases |suffix| - n
    {
      n := n + 1;
    }
    r := Some(n);
  }

  lemma {:induction false} StripLeftIsSuffix(s: string)
    ensures forall c :: c in StripLeft(s) ==> c in s
  {
    if s != "" && Space(s[0]) { StripLeftIsSuffix(s[1..]); }
  }

  lemma StripComesFrom(s: string)
    requires Strip(s) == "}"
    ensures '}' in s
  {
    StripLeftIsSuffix(s);
    StripRightEnds(StripLeft(s));
    assert Strip(s)[0] == StripLeft(s)[0];
  }

  // --------------------------------------------------------------- the outer fence

  predicate LineBreak(c: char) {
    var n := c as int;
    10 <= n <= 13 || 28 <= n <= 30 || n == 0x85 || n == 0x2028 || n == 0x2029
  }

  function FirstBreak(s: string): (n: nat)
    ensures n <= |s|
  {
    if s == "" || LineBreak(s[0]) then 0 else 1 + FirstBreak(s[1..])
  }

  /** `str.splitlines`. */
  function SplitLines(s: string): seq<string>
    decreases |s|
  {
    if s == "" then []
    else
      var n := FirstBreak(s);
      if n == |s| then [s]
      else
        var skip := if s[n] == '\r' && n + 1 < |s| && s[n + 1] == '\n' then 2 else 1;
        [s[..n]] + SplitLines(s[n + skip..])
  }

  function DropBlankFront(lines: seq<string>): seq<string> {
    if lines != [] && Strip(lines[0]) == "" then DropBlankFront(lines[1..]) else lines
  }

  function DropBlankBack(lines: seq<string>): seq<string> {
    if lines != [] && Strip(lines[|lines| - 1]) == "" then DropBlankBack(lines[..|lines| - 1]) else lines
  }

  function JoinLines(lines: seq<string>): string {
    if lines == [] then ""
    else if |lines| == 1 then lines[0]
    else JoinLines(lines[..|lines| - 1]) + "\n" + lines[|lines| - 1]
  }

  function StripFence(raw: string): (string, bool) {
    var lines := DropBlankBack(DropBlankFront(SplitLines(raw)));
    if |lines| >= 2 && Lower(Strip(lines[0])) in {"```", "```json"} && Strip(lines[|lines| - 1]) == "```"
    then (JoinLines(lines[1..|lines| - 1]), true)
    else (raw, false)
  }

  /** `_strip_exact_markdown_fence`, with its two trimming loops. */
  method StripMarkdownFence(raw: string) returns (text: string, stripped: bool)
    ensures (text, stripped) == StripFence(raw)
  {
    var lines := SplitLines(raw);
    while lines != [] && Strip(lines[0]) == ""
      invariant DropBlankFront(lines) == DropBlankFront(SplitLines(raw))
      decreases |lines|
    {
      lines := lines[1..];
    }
    while lines != [] && Strip(lines[|lines| - 1]) == ""
      invariant DropBlankBack(lines) == DropBlankBack(DropBlankFront(SplitLines(raw)))
      decreases |lines|
    {
      lines := lines[..|lines| - 1];
    }
    if |lines| >= 2 && Lower(Strip(lines[0])) in {"```", "```json"} && Strip(lines[|lines| - 1]) == "```" {
      return JoinLines(lines[1..|lines| - 1]), true;
    }
    return raw, false;
  }

  // ------------------------------------------------------------------------ repair

  datatype Action =
    | FenceRemoved | ControlEscaped | ArrayUnwrapped
    | QuotePairEscaped | InnerQuoteEscaped | CloserReplaced | EscapeEscaped
    | ExtraCloserRemoved | CommaRemoved | CommaInserted
  {
    predicate IsEdit() {
      !FenceRemoved? && !ControlEscaped? && !ArrayUnwrapped?
    }
  }

  function Edits(actions: seq<Action>): nat {
    if actions == [] then 0
    else Edits(actions[..|actions| - 1]) + if actions[|actions| - 1].IsEdit() then 1 else 0
  }

  lemma OneMoreAction(actions: seq<Action>, a: Action)
    ensures Edits(actions + [a]) == Edits(actions) + if a.IsEdit() then 1 else 0
    ensures forall x :: x in actions + [a] <==> x in actions || x == a
  {
    assert (actions + [a])[..|actions|] == actions;
  }

  lemma InsertKeeps(text: string, i: nat, c: char)
    requires i <= |text| && Delimiter(c)
    ensures Erase(text[..i] + [c] + text[i..]) == Erase(text)
  {
    EraseDelimiter(c);
    RewriteKeeps(text, i, i, [c]);
  }

  lemma RemoveKeeps(text: string, i: nat)
    requires i < |text| && Delimiter(text[i])
    ensures Erase(text[..i] + text[i + 1..]) == Erase(text)
  {
    EraseDelimiter(text[i]);
    assert text[i..i + 1] == [text[i]];
    RewriteKeeps(text, i, i + 1, "");
    assert text[..i] + "" + text[i + 1..] == text[..i] + text[i + 1..];
  }

  lemma ReplaceKeeps(text: string, i: nat, c: char)
    requires i < |text| && Delimiter(text[i]) && Delimiter(c)
    ensures Erase(text[..i] + [c] + text[i + 1..]) == Erase(text)
  {
    EraseDelimiter(text[i]);
    EraseDelimiter(c);
    assert text[i..i + 1] == [text[i]];
    RewriteKeeps(text, i, i + 1, [c]);
  }

  lemma PairKeeps(text: string, i: nat)
    requires i + 1 < |text| && text[i] == '"' && text[i + 1] == '"'
    ensures Erase(text[..i] + "\\\"\\\"" + text[i + 2..]) == Erase(text)
  {
    InsertKeeps("\"\"", 0, '\\');
    var once := "\\\"\"";
    assert "\"\""[..0] + ['\\'] + "\"\""[0..] == once;
    InsertKeeps(once, 2, '\\');
    assert once[..2] + ['\\'] + once[2..] == "\\\"\\\"";
    assert text[i..i + 2] == "\"\"";
    RewriteKeeps(text, i, i + 2, "\\\"\\\"");
  }

  predicate Interpreted(c: char) {
    c == '"' || c == '\\' || c == '/' || c == 'b' || c == 'f' || c == 'n' || c == 'r' || c == 't' || c == 'u'
  }

  predicate StrayEscape(text: string, message: Message, position: nat) {
    message == InvalidEscape && position + 1 < |text| && text[position] == '\\' && !Interpreted(text[position + 1])
  }

  /** The first closing brace behind a decoded object, when nothing else but space is there. */
  predicate ExtraBrace(text: string, host: Host, k: nat) {
    var decoded := host.decodePrefix(text);
    && decoded.Some? && decoded.value.0.Object?
    && var end := if decoded.value.1 <= |text| then decoded.value.1 else |text|;
       Strip(text[end..]) == "}" && end <= k < |text| && text[k] == '}' && forall i :: end <= i < k ==> text[i] != '}'
  }

  lemma OneExtraBrace(text: string, host: Host, a: nat, b: nat)
    requires ExtraBrace(text, host, a) && ExtraBrace(text, host, b)
    ensures a == b
  {
    hide Strip;
  }

  /**
    The edit that a parser error calls for: the first that applies of escaping a bare pair, escaping a
    bare quote, replacing a closer, escaping a backslash, removing an extra closer, removing a comma and
    inserting one; behind extra data only the extra closer is tried.
   */
  ghost function Repair(text: string, message: Message, position: nat, host: Host): Option<(string, Action)> {
    if BarePair(text, message, position) then
      Some((text[..position - 1] + "\\\"\\\"" + text[position + 1..], QuotePairEscaped))
    else if exists q: nat :: QuoteBefore(text, message, position, host, q) then
      var q: nat :| QuoteBefore(text, message, position, host, q);
      Some((text[..q] + ['\\'] + text[q..], InnerQuoteEscaped))
    else if RequiredCloser(text, position).Some? then
      Some((text[..position] + [RequiredCloser(text, position).value] + text[position + 1..], CloserReplaced))
    else if StrayEscape(text, message, position) then
      Some((text[..position] + ['\\'] + text[position..], EscapeEscaped))
    else if message == ExtraData then
      if exists k: nat :: ExtraBrace(text, host, k) then
        var k: nat :| ExtraBrace(text, host, k);
        Some((text[..k] + text[k + 1..], ExtraCloserRemoved))
      else None
    else CommaRepair(text, message, position)
  }

  ghost function CommaRepair(text: string, message: Message, position: nat): Option<(string, Action)> {
    if exists c: nat :: TrailingComma(text, message, position, c) then
      var c: nat :| TrailingComma(text, message, position, c);
      Some((text[..c] + text[c + 1..], CommaRemoved))
    else if exists f: nat :: MissingComma(text, message, position, f) then
      var f: nat :| MissingComma(text, message, position, f);
      Some((text[..f] + [','] + text[f..], CommaInserted))
    else None
  }

  /** One delimiter edit for one parser error, in the order in which they are tried; or none. */
  method RepairOnce(text: string, message: Message, position: nat, host: Host) returns (r: Option<(string, Action)>)
    ensures r == Repair(text, message, position, host)
    ensures r.Some? ==> r.value.1.IsEdit() && Erase(r.value.0) == Erase(text)
  {
    hide Erase, RequiredCloser, BarePair, QuoteBefore, ExtraBrace, CommaRepair;
    var pair := EmptyQuotePair(text, message, position);
    if pair.Some? {
      PairIsThere(text, message, position);
      PairKeeps(text, pair.value);
      return Some((text[..pair.value] + "\\\"\\\"" + text[pair.value + 2..], QuotePairEscaped));
    }
    var quote := InnerQuoteIndex(text, message, position, host);
    if quote.Some? {
      forall q: nat | QuoteBefore(text, message, position, host, q) {
        OneQuoteBefore(text, message, position, host, q, quote.value);
      }
      QuoteIsThere(text, message, position, host, quote.value);
      InsertKeeps(text, quote.value, '\\');
      return Some((text[..quote.value] + ['\\'] + text[quote.value..], InnerQuoteEscaped));
    }
    var closer := MismatchedCloserReplacement(text, position);
    if closer.Some? {
      RequiredIsCloser(text, position);
      ReplaceKeeps(text, position, closer.value);
      return Some((text[..position] + [closer.value] + text[position + 1..], CloserReplaced));
    }
    if message == InvalidEscape && position + 1 < |text| && text[position] == '\\' && !Interpreted(text[position + 1]) {
      InsertKeeps(text, position, '\\');
      return Some((text[..position] + ['\\'] + text[position..], EscapeEscaped));
    }
    if message == ExtraData {
      r := RemoveExtraCloser(text, host);
      return r;
    }
    r := RepairComma(text, message, position);
  }

  /** The last two edits: a comma too many, or one too few. */
  method RepairComma(text: string, message: Message, position: nat) returns (r: Option<(string, Action)>)
    ensures r == CommaRepair(text, message, position)
    ensures r.Some? ==> r.value.1.IsEdit() && Erase(r.value.0) == Erase(text)
  {
    hide Erase, TrailingComma, MissingComma;
    var comma := TrailingCommaIndex(text, message, position);
    if comma.Some? {
      forall c: nat | TrailingComma(text, message, position, c) {
        OneTrailingComma(text, message, position, c, comma.value);
      }
      CommaIsThere(text, message, position, comma.value);
      RemoveKeeps(text, comma.value);
      return Some((text[..comma.value] + text[comma.value + 1..], CommaRemoved));
    }
    var missing := MissingCommaIndex(text, message, position);
    if missing.Some? {
      forall f: nat | MissingComma(text, message, position, f) {
        OneMissingComma(text, message, position, f, missing.value);
      }
      GapIsThere(text, message, position, missing.value);
      InsertKeeps(text, missing.value, ',');
      return Some((text[..missing.value] + [','] + text[missing.value..], CommaInserted));
    }
    return None;
  }

  /** The branch behind extra data: decode once more, and drop the brace if it is all that is left. */
  method RemoveExtraCloser(text: string, host: Host) returns (r: Option<(string, Action)>)
    ensures r.None? ==> forall k: nat :: !ExtraBrace(text, host, k)
    ensures r.Some? ==> exists k: nat :: ExtraBrace(text, host, k)
    ensures forall k: nat :: ExtraBrace(text, host, k) ==> r == Some((text[..k] + text[k + 1..], ExtraCloserRemoved))
    ensures r.Some? ==> r.value.1 == ExtraCloserRemoved && Erase(r.value.0) == Erase(text)
  {
    hide Erase, Strip;
    var decoded := host.decodePrefix(text);
    if decoded.None? { return None; }
    var end := if decoded.value.1 <= |text| then decoded.value.1 else |text|;
    var brace := ExtraBraceIndex(text[end..]);
    if !decoded.value.0.Object? || brace.None? { return None; }
    var at := end + brace.value;
    assert text[at] == text[end..][brace.value];
    forall i | end <= i < at
      ensures text[i] != '}'
    {
      assert text[i] == text[end..][..brace.value][i - end];
    }
    assert ExtraBrace(text, host, at);
    forall k: nat | ExtraBrace(text, host, k) ensures k == at { OneExtraBrace(text, host, k, at); }
    RemoveKeeps(text, at);
    r := Some((text[..at] + text[at + 1..], ExtraCloserRemoved));
  }

  lemma PairIsThere(text: string, message: Message, position: nat)
    requires BarePair(text, message, position)
    ensures 0 < position < |text| && text[position - 1] == '"' && text[position] == '"'
  {
  }

  lemma QuoteIsThere(text: string, message: Message, position: nat, host: Host, q: nat)
    requires QuoteBefore(text, message, position, host, q)
    ensures q < |text|
  {
  }

  lemma CommaIsThere(text: string, message: Message, position: nat, c: nat)
    requires TrailingComma(text, message, position, c)
    ensures c < |text| && text[c] == ','
  {
  }

  lemma GapIsThere(text: string, message: Message, position: nat, f: nat)
    requires MissingComma(text, message, position, f)
    ensures f < |text|
  {
  }

  lemma RequiredIsCloser(text: string, position: nat)
    requires RequiredCloser(text, position).Some?
    ensures position < |text| && Closes(text[position]) && Closes(RequiredCloser(text, position).value)
  {
  }

  datatype Outcome = LimitRefused | NotRecovered | Recovered(value: Value, text: string, actions: seq<Action>)

  /** An object, or the one object of a list. */
  function Unwrapped(v: Value): Option<Value> {
    if v.Object? then Some(v)
    else if v.List? && |v.items| == 1 && v.items[0].Object? then Some(v.items[0])
    else None
  }

  /** The object that a text stands for as it is, literal control characters aside. */
  function Accepted(text: string, host: Host): Option<Value> {
    match host.parse(text)
    case Parsed(v) => Unwrapped(v)
    case Failed(message, _) =>
      var lenient := host.parseLenient(text);
      if message != InvalidControlCharacter || lenient.None? then None else Unwrapped(lenient.value)
  }

  /** The text after n edits, one for each parser error; nothing if the edits end before. */
  ghost function Reached(text: string, n: nat, host: Host): Option<string> {
    if n == 0 then Some(text)
    else
      var before := Reached(text, n - 1, host);
      if before.None? then None else Edited(before.value, host)
  }

  ghost function Edited(text: string, host: Host): Option<string> {
    match host.parse(text)
    case Parsed(_) => None
    case Failed(message, position) =>
      var repair := Repair(text, message, position, host);
      if message == InvalidControlCharacter || repair.None? then None else Some(repair.value.0)
  }

  /** A text that is accepted is edited no further, so there is one number of edits that leads to an object. */
  lemma {:induction false} EditsEnd(text: string, m: nat, n: nat, host: Host)
    requires m < n && (Reached(text, m, host).None? || Edited(Reached(text, m, host).value, host).None?)
    ensures Reached(text, n, host).None?
    decreases n
  {
    hide Edited;
    if m < n - 1 { EditsEnd(text, m, n - 1, host); }
  }

  /** So many edits, and no more than the limit, lead to a text that stands for this object. */
  ghost predicate Recovers(text: string, maxEdits: int, host: Host, n: nat, value: Value) {
    && n <= maxEdits && Reached(text, n, host).Some?
    && Accepted(Reached(text, n, host).value, host) == Some(value)
  }

  ghost predicate Recoverable(text: string, maxEdits: int, host: Host) {
    exists n: nat, value :: Recovers(text, maxEdits, host, n, value)
  }

  /** Where the edits end without an object within the limit, nothing can be recovered. */
  lemma NothingRecovers(text: string, n: nat, maxEdits: int, host: Host)
    requires Reached(text, n, host).Some? && Accepted(Reached(text, n, host).value, host).None?
    requires maxEdits <= n || Edited(Reached(text, n, host).value, host).None?
    requires forall k :: 0 <= k < n ==> Reached(text, k, host).Some? && Accepted(Reached(text, k, host).value, host).None?
    ensures !Recoverable(text, maxEdits, host)
  {
    hide Reached, Accepted, Edited;
    forall k: nat, value | Recovers(text, maxEdits, host, k, value)
      ensures false
    {
      if k > n { EditsEnd(text, n, k, host); }
    }
  }

  /**
    `normalize_json_object_representation`: whatever the parser says, an object is recovered exactly when
    the edits that its errors call for lead to a text that stands for one within the limit. The recovered
    text differs from the unfenced input only in backslashes, commas and closers - unless the literal
    control characters were re-encoded - and the parser accepts it as the recovered object.
   */
  method Normalize(raw: string, maxEdits: int, host: Host) returns (r: Outcome)
    ensures r.LimitRefused? <==> !(0 <= maxEdits <= MAX_EDITS)
    ensures !r.LimitRefused? ==> (r.Recovered? <==> Recoverable(StripFence(raw).0, maxEdits, host))
    ensures r.Recovered? ==> r.value.Object? && Recovers(StripFence(raw).0, maxEdits, host, Edits(r.actions), r.value)
    ensures r.Recovered? ==> (FenceRemoved in r.actions <==> StripFence(raw).1)
    ensures r.Recovered? && ControlEscaped !in r.actions ==>
              && Erase(r.text) == Erase(StripFence(raw).0)
              && Reached(StripFence(raw).0, Edits(r.actions), host) == Some(r.text)
              && (host.parse(r.text) == Parsed(r.value) || host.parse(r.text) == Parsed(List([r.value])))
    ensures r.Recovered? && ControlEscaped in r.actions ==>
              r.text == host.dump(if ArrayUnwrapped in r.actions then List([r.value]) else r.value)
    ensures 0 <= maxEdits <= MAX_EDITS && host.parse(StripFence(raw).0).Parsed? && host.parse(StripFence(raw).0).value.Object? ==>
              r.Recovered? && r.text == StripFence(raw).0 && r.value == host.parse(r.text).value && Edits(r.actions) == 0
  {
    hide Erase, StripFence, Edits, Repair, Recoverable, Recovers;
    if !(0 <= maxEdits <= MAX_EDITS) { return LimitRefused; }
    var working, stripped := StripMarkdownFence(raw);
    ghost var start := working;
    var actions: seq<Action> := [];
    NoEdits();
    if stripped {
      OneMoreAction(actions, FenceRemoved);
      actions := actions + [FenceRemoved];
    }
    var edits := 0;
    var parsed: Value := Scalar("");
    ghost var last := working;
    while true
      invariant start == StripFence(raw).0 && 0 <= edits <= maxEdits && edits == Edits(actions)
      invariant Erase(working) == Erase(start)
      invariant Reached(start, edits, host) == Some(working)
      invariant forall k :: 0 <= k < edits ==> Reached(start, k, host).Some? && Accepted(Reached(start, k, host).value, host).None?
      invariant edits > 0 ==> host.parse(start).Failed?
      invariant edits == 0 ==> working == start
      invariant FenceRemoved in actions <==> StripFence(raw).1
      invariant ControlEscaped !in actions && ArrayUnwrapped !in actions
      decreases maxEdits - edits
    {
      last := working;
      var attempt := host.parse(working);
      if attempt.Parsed? {
        parsed := attempt.value;
        break;
      }
      if attempt.message == InvalidControlCharacter {
        var lenient := host.parseLenient(working);
        if lenient.None? || lenient.value.Scalar? {
          NothingRecovers(start, edits, maxEdits, host);
          return NotRecovered;
        }
        parsed := lenient.value;
        working := host.dump(parsed);
        OneMoreAction(actions, ControlEscaped);
        actions := actions + [ControlEscaped];
        break;
      }
      if edits >= maxEdits {
        NothingRecovers(start, edits, maxEdits, host);
        return NotRecovered;
      }
      var repair := RepairOnce(working, attempt.message, attempt.position, host);
      if repair.None? {
        NothingRecovers(start, edits, maxEdits, host);
        return NotRecovered;
      }
      OneMoreAction(actions, repair.value.1);
      working, actions := repair.value.0, actions + [repair.value.1];
      edits := edits + 1;
    }
    ghost var found := parsed;
    if parsed.List? && |parsed.items| == 1 && parsed.items[0].Object? {
      assert parsed == List([parsed.items[0]]);
      parsed := parsed.items[0];
      OneMoreAction(actions, ArrayUnwrapped);
      actions := actions + [ArrayUnwrapped];
    }
    assert Accepted(last, host) == Unwrapped(found);
    if !parsed.Object? {
      NothingRecovers(start, edits, maxEdits, host);
      return NotRecovered;
    }
    ItRecovers(start, maxEdits, host, edits, parsed);
    r := Recovered(parsed, working, actions);
  }

  lemma ItRecovers(text: string, maxEdits: int, host: Host, n: nat, value: Value)
    requires n <= maxEdits && Reached(text, n, host).Some? && Accepted(Reached(text, n, host).value, host) == Some(value)
    ensures Recovers(text, maxEdits, host, n, value) && Recoverable(text, maxEdits, host)
  {
    hide Reached, Accepted;
    assert Recovers(text, maxEdits, host, n, value);
  }

  lemma NoEdits()
    ensures Edits([]) == 0
  {
  }
}
