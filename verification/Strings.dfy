/** The string operations that identifiers go through; whitespace and case are those of ASCII. */
module Strings {
  predicate Space(c: char) {
    c == ' ' || '\t' <= c <= '\r'
  }

  /** The parts in order, with the separator between each two. */
  function Joined(parts: seq<string>, separator: string): string {
    if parts == [] then ""
    else if |parts| == 1 then parts[0]
    else Joined(parts[..|parts| - 1], separator) + separator + parts[|parts| - 1]
  }

  function StripLeft(s: string): string {
    if s != [] && Space(s[0]) then StripLeft(s[1..]) else s
  }

  function StripRight(s: string): string {
    if s != [] && Space(s[|s| - 1]) then StripRight(s[..|s| - 1]) else s
  }

  function Strip(s: string): string {
    StripRight(StripLeft(s))
  }

  function LowerChar(c: char): char {
    if 'A' <= c <= 'Z' then c - 'A' + 'a' else c
  }

  function Lower(s: string): string {
    seq(|s|, i requires 0 <= i < |s| => LowerChar(s[i]))
  }

  lemma {:induction false} StripLeftEnds(s: string)
    ensures StripLeft(s) == [] || !Space(StripLeft(s)[0])
  {
    if s != [] && Space(s[0]) { StripLeftEnds(s[1..]); }
  }

  lemma {:induction false} StripRightEnds(s: string)
    ensures StripRight(s) <= s
    ensures StripRight(s) == [] || !Space(StripRight(s)[|StripRight(s)| - 1])
  {
    if s != [] && Space(s[|s| - 1]) { StripRightEnds(s[..|s| - 1]); }
  }

  lemma StripIsStable(s: string)
    ensures Strip(Strip(s)) == Strip(s)
  {
    StripLeftEnds(s);
    StripRightEnds(StripLeft(s));
  }
}
