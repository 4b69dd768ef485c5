/**
  The bounded projection of a pull request: how many files, and how much of each diff, fit one limit.

  Fixed wording that no length depends on is a parameter; file shells, title and number arrive already
  bounded and stripped.
 */
module PrMarkdown {
  import opened Wrappers
  import opened Numbers
  import opened Strings

  const MAX_FILES := 80
  const MAX_PER_DIFF := 6000

  datatype Change = Change(shell: string, diff: string)

  /** The fixed texts: the section above the files, the note on omitted files, and the minimal carrier. */
  datatype Wording = Wording(truncated: string, view: seq<string>, omitted: string, carrier: string)

  datatype PullRequest = PullRequest(
    number: string, title: string, description: string, changes: seq<Change>, full: string, words: Wording)
  {
    ghost predicate Worded() {
      Ended(words.view) && Ended([words.omitted])
    }
  }

  // ------------------------------------------------------------------ line excerpts

  /** The text before the last newline, if there is one. */
  function BeforeLastNewline(s: string): (r: Option<string>)
    ensures r.Some? ==> |r.value| < |s| && r.value == s[..|r.value|] && s[|r.value|] == '\n'
    ensures r.Some? ==> forall i :: |r.value| < i < |s| ==> s[i] != '\n'
    ensures r.None? ==> forall i :: 0 <= i < |s| ==> s[i] != '\n'
  {
    if s == "" then None
    else if s[|s| - 1] == '\n' then Some(s[..|s| - 1])
    else
      var r := BeforeLastNewline(s[..|s| - 1]);
      assert r.Some? ==> s[..|s| - 1][..|r.value|] == s[..|r.value|];
      r
  }

  /** `_complete_line_excerpt`: the whole text, or complete lines of it within the limit. */
  function Excerpt(text: string, limit: int): (r: (string, bool))
    ensures r.0 <= text && (r.1 <==> |text| <= limit) && (r.1 ==> r.0 == text)
    ensures |r.0| <= MaxInt(limit, 0)
  {
    if |text| <= limit then (text, true)
    else if limit <= 0 then ("", false)
    else
      var before := BeforeLastNewline(text[..limit]);
      var kept := if before.Some? then before.value else "";
      StripRightEnds(kept);
      assert StripRight(kept) == text[..|StripRight(kept)|];
      (StripRight(kept), false)
  }

  lemma {:induction false} StripRightKeepsText(s: string, n: nat)
    requires n < |s| && !Space(s[n])
    ensures n < |StripRight(s)|
    decreases |s|
  {
    if Space(s[|s| - 1]) { StripRightKeepsText(s[..|s| - 1], n); }
  }

  /** An incomplete excerpt stops before a line end: nothing but whitespace separates it from one. */
  lemma ExcerptEndsAtLine(text: string, limit: int)
    requires !Excerpt(text, limit).1 && Excerpt(text, limit).0 != ""
    ensures exists j: nat :: LineEndAt(text, |Excerpt(text, limit).0|, j)
  {
    var kept := BeforeLastNewline(text[..limit]).value;
    var j := |kept|;
    assert text[j] == text[..limit][j] == '\n';
    StripRightEnds(kept);
    forall i | |StripRight(kept)| <= i < j
      ensures Space(text[i])
    {
      if !Space(kept[i]) { StripRightKeepsText(kept, i); }
    }
    assert LineEndAt(text, |Excerpt(text, limit).0|, j);
  }

  predicate LineEndAt(text: string, start: nat, j: nat) {
    start <= j < |text| && text[j] == '\n' && forall i :: start <= i < j ==> Space(text[i])
  }

  /** A larger allowance extends the excerpt. */
  lemma ExcerptGrows(text: string, a: int, b: int)
    requires a <= b
    ensures Excerpt(text, a).0 <= Excerpt(text, b).0
  {
    var small, large := Excerpt(text, a).0, Excerpt(text, b).0;
    if 0 < a && b < |text| && small != "" {
      var n := |small| - 1;
      var p, q := BeforeLastNewline(text[..a]), BeforeLastNewline(text[..b]);
      StripRightEnds(p.value);
      assert text[..b][|p.value|] == '\n';
      assert |p.value| <= |q.value|;
      assert q.value[n] == text[n] == p.value[n];
      StripRightKeepsText(q.value, n);
    }
  }

  // --------------------------------------------------------------------- rendering

  function Digits(n: nat): string {
    if n < 10 then [('0' as int + n) as char] else Digits(n / 10) + [('0' as int + n % 10) as char]
  }

  function Description(pr: PullRequest, limit: int): (string, bool) {
    Excerpt(pr.description, if MaxInt(1000, limit / 10) < 12000 then MaxInt(1000, limit / 10) else 12000)
  }

  function HeadLines(pr: PullRequest, limit: int): seq<string> {
    var (text, complete) := Description(pr, limit);
    ["# Pull Request #" + pr.number + ": " + pr.title, "", "## Description",
     if text != "" then text else "No description provided"]
    + (if complete then [] else [pr.words.truncated])
    + pr.words.view
  }

  function Skipped(diff: string): bool {
    var text := StripLeft(diff);
    |text| >= 9 && text[..9] == "[SKIPPED]"
  }

  function Coverage(change: Change, allowance: int): string {
    "**Diff coverage:** " + if Skipped(change.diff) then "unavailable"
                            else if Excerpt(change.diff, allowance).1 then "complete" else "partial"
  }

  /** One file without the blank line that follows it. */
  function FileLines(change: Change, allowance: int): seq<string> {
    var excerpt := Excerpt(change.diff, allowance).0;
    [change.shell, "", Coverage(change, allowance)]
    + if excerpt != "" then ["", "```diff", excerpt, "```"] else []
  }

  function FilesLines(changes: seq<Change>, allowance: int): seq<string> {
    if changes == [] then []
    else FilesLines(changes[..|changes| - 1], allowance) + FileLines(changes[|changes| - 1], allowance) + [""]
  }

  function OmittedLine(pr: PullRequest, omitted: nat): string {
    Digits(omitted) + pr.words.omitted
  }

  function Lines(pr: PullRequest, limit: int, allowance: int, retained: nat): seq<string>
    requires retained <= |pr.changes|
  {
    HeadLines(pr, limit) + FilesLines(pr.changes[..retained], allowance)
    + if retained < |pr.changes| then [OmittedLine(pr, |pr.changes| - retained)] else []
  }

  function Render(pr: PullRequest, limit: int, allowance: int, retained: nat): string
    requires retained <= |pr.changes|
  {
    StripRight(Joined(Lines(pr, limit, allowance, retained), "\n")) + "\n"
  }

  /** Characters of a list of lines, each with its line end. */
  function Cost(lines: seq<string>): nat {
    if lines == [] then 0 else Cost(lines[..|lines| - 1]) + |lines[|lines| - 1]| + 1
  }

  lemma {:induction false} CostAppend(a: seq<string>, b: seq<string>)
    ensures Cost(a + b) == Cost(a) + Cost(b)
  {
    if b == [] {
      assert a + b == a;
    } else {
      CostAppend(a, b[..|b| - 1]);
      assert (a + b)[..|a + b| - 1] == a + b[..|b| - 1];
    }
  }

  lemma {:induction false} JoinLength(lines: seq<string>)
    requires lines != []
    ensures |Joined(lines, "\n")| == Cost(lines) - 1
  {
    if |lines| > 1 { JoinLength(lines[..|lines| - 1]); }
  }

  /** The last line ends in text. */
  predicate Ended(lines: seq<string>) {
    lines != [] && lines[|lines| - 1] != "" && !Space(lines[|lines| - 1][|lines[|lines| - 1]| - 1])
  }

  lemma EndedIsKept(lines: seq<string>)
    requires Ended(lines)
    ensures StripRight(Joined(lines, "\n")) == Joined(lines, "\n")
  {
  }

  lemma BlankIsStripped(lines: seq<string>)
    requires Ended(lines)
    ensures StripRight(Joined(lines + [""], "\n")) == Joined(lines, "\n")
  {
    EndedIsKept(lines);
    assert (lines + [""])[..|lines|] == lines;
    assert Joined(lines + [""], "\n") == Joined(lines, "\n") + "\n";
    assert (Joined(lines, "\n") + "\n")[..|Joined(lines, "\n")|] == Joined(lines, "\n");
  }

  lemma FileIsEnded(change: Change, allowance: int)
    ensures Ended(FileLines(change, allowance))
  {
  }

  lemma EndedAfter(a: seq<string>, b: seq<string>)
    requires Ended(b)
    ensures Ended(a + b)
  {
  }

  lemma HeadIsEnded(pr: PullRequest, limit: int)
    requires pr.Worded()
    ensures Ended(HeadLines(pr, limit))
  {
    hide Description;
  }

  /** The rendering is its lines, without the blank line after the last file. */
  lemma RenderedLength(pr: PullRequest, limit: int, allowance: int, retained: nat)
    requires retained <= |pr.changes| && pr.Worded()
    ensures |Render(pr, limit, allowance, retained)|
            == Cost(Lines(pr, limit, allowance, retained)) - if 0 < retained == |pr.changes| then 1 else 0
  {
    hide HeadLines, FileLines, OmittedLine, Ended, Joined, Cost;
    var lines := Lines(pr, limit, allowance, retained);
    var head, files := HeadLines(pr, limit), FilesLines(pr.changes[..retained], allowance);
    HeadIsEnded(pr, limit);
    if retained < |pr.changes| {
      OmittedIsEnded(pr, |pr.changes| - retained);
      EndedAfter(head + files, [OmittedLine(pr, |pr.changes| - retained)]);
      EndedIsKept(lines);
      EndedLength(lines);
    } else if retained == 0 {
      assert lines == head;
      EndedIsKept(lines);
      EndedLength(lines);
    } else {
      var last := FileLines(pr.changes[retained - 1], allowance);
      var core := head + FilesLines(pr.changes[..retained][..retained - 1], allowance) + last;
      FileIsEnded(pr.changes[retained - 1], allowance);
      EndedAfter(head + FilesLines(pr.changes[..retained][..retained - 1], allowance), last);
      assert lines == core + [""];
      BlankIsStripped(core);
      EndedLength(core);
      CostAppend(core, [""]);
      BlankCost();
    }
  }

  lemma BlankCost()
    ensures Cost([""]) == 1
  {
  }

  lemma EndedLength(lines: seq<string>)
    requires Ended(lines)
    ensures |Joined(lines, "\n")| == Cost(lines) - 1
  {
    JoinLength(lines);
  }

  lemma OmittedIsEnded(pr: PullRequest, omitted: nat)
    requires pr.Worded()
    ensures Ended([OmittedLine(pr, omitted)])
  {
  }

  lemma FileCostGrows(change: Change, a: int, b: int)
    requires a <= b
    ensures Cost(FileLines(change, a)) <= Cost(FileLines(change, b))
  {
    hide Excerpt, Skipped;
    ExcerptGrows(change.diff, a, b);
    CompleteGrows(change.diff, a, b);
    FileCost(change, a);
    FileCost(change, b);
  }

  lemma CompleteGrows(text: string, a: int, b: int)
    requires a <= b
    ensures Excerpt(text, a).1 ==> Excerpt(text, b).1
  {
  }

  lemma FileCost(change: Change, allowance: int)
    ensures var excerpt := Excerpt(change.diff, allowance).0;
            Cost(FileLines(change, allowance))
            == |change.shell| + 1 + 1 + |Coverage(change, allowance)| + 1
               + if excerpt == "" then 0 else 1 + 8 + |excerpt| + 1 + 4
  {
    hide Excerpt, Coverage;
    var excerpt := Excerpt(change.diff, allowance).0;
    var head, body := [change.shell, "", Coverage(change, allowance)], ["", "```diff", excerpt, "```"];
    CostAppend(head, if excerpt != "" then body else []);
    CostOfThree(change.shell, Coverage(change, allowance));
    CostOfFence(excerpt);
  }

  lemma CostOfOne(line: string)
    ensures Cost([line]) == |line| + 1
  {
    assert [line][..0] == [];
  }

  lemma CostOfThree(shell: string, coverage: string)
    ensures Cost([shell, "", coverage]) == |shell| + |coverage| + 3
  {
    hide Cost;
    CostAppend([shell], ["", coverage]);
    CostAppend([""], [coverage]);
    CostOfOne(shell);
    CostOfOne("");
    CostOfOne(coverage);
    assert [""] + [coverage] == ["", coverage] && [shell] + ["", coverage] == [shell, "", coverage];
  }

  lemma CostOfFence(excerpt: string)
    ensures Cost(["", "```diff", excerpt, "```"]) == |excerpt| + 14
  {
    hide Cost;
    CostAppend([""], ["```diff"]);
    CostAppend([excerpt], ["```"]);
    CostAppend(["", "```diff"], [excerpt, "```"]);
    CostOfOne("");
    CostOfOne("```diff");
    CostOfOne(excerpt);
    CostOfOne("```");
    assert [""] + ["```diff"] == ["", "```diff"] && [excerpt] + ["```"] == [excerpt, "```"];
    assert ["", "```diff"] + [excerpt, "```"] == ["", "```diff", excerpt, "```"];
  }

  lemma {:induction false} FilesCostGrows(changes: seq<Change>, a: int, b: int)
    requires a <= b
    ensures Cost(FilesLines(changes, a)) <= Cost(FilesLines(changes, b))
  {
    hide FileLines, Cost;
    if changes != [] {
      var front, last := changes[..|changes| - 1], changes[|changes| - 1];
      FilesCostGrows(front, a, b);
      FileCostGrows(last, a, b);
      CostAppend(FilesLines(front, a), FileLines(last, a));
      CostAppend(FilesLines(front, b), FileLines(last, b));
      CostAppend(FilesLines(front, a) + FileLines(last, a), [""]);
      CostAppend(FilesLines(front, b) + FileLines(last, b), [""]);
    }
  }

  /** A larger allowance never renders shorter. */
  lemma RenderGrows(pr: PullRequest, limit: int, a: int, b: int, retained: nat)
    requires a <= b && retained <= |pr.changes| && pr.Worded()
    ensures |Render(pr, limit, a, retained)| <= |Render(pr, limit, b, retained)|
  {
    hide Render, HeadLines, FilesLines, OmittedLine, Cost;
    RenderedLength(pr, limit, a, retained);
    RenderedLength(pr, limit, b, retained);
    var files := pr.changes[..retained];
    FilesCostGrows(files, a, b);
    var tail := if retained < |pr.changes| then [OmittedLine(pr, |pr.changes| - retained)] else [];
    CostAppend(HeadLines(pr, limit), FilesLines(files, a));
    CostAppend(HeadLines(pr, limit), FilesLines(files, b));
    CostAppend(HeadLines(pr, limit) + FilesLines(files, a), tail);
    CostAppend(HeadLines(pr, limit) + FilesLines(files, b), tail);
  }

  // ------------------------------------------------------------------------ search

  predicate Fits(pr: PullRequest, limit: int, allowance: int, retained: nat)
    requires retained <= |pr.changes|
  {
    |Render(pr, limit, allowance, retained)| <= limit
  }

  function Carrier(pr: PullRequest): string {
    "# Pull Request #" + pr.number + ": " + pr.title + pr.words.carrier
  }

  /** No longer run of the first eighty files fits, not even without any diff. */
  ghost predicate MostFiles(pr: PullRequest, limit: nat, retained: nat) {
    && retained <= MinNat(MAX_FILES, |pr.changes|)
    && forall k :: retained < k <= MinNat(MAX_FILES, |pr.changes|) ==> !Fits(pr, limit, 0, k)
  }

  ghost predicate LargestAllowance(pr: PullRequest, limit: nat, retained: nat, allowance: nat)
    requires retained <= |pr.changes|
  {
    && allowance <= MinNat(MAX_PER_DIFF, limit) && Fits(pr, limit, allowance, retained)
    && forall a :: allowance < a <= MinNat(MAX_PER_DIFF, limit) ==> !Fits(pr, limit, a, retained)
  }

  /** The rendering for the largest allowance that fits. */
  ghost predicate IsLargestFitting(pr: PullRequest, limit: nat, retained: nat, text: string)
    requires retained <= |pr.changes|
  {
    exists allowance: nat :: LargestAllowance(pr, limit, retained, allowance) && text == Render(pr, limit, allowance, retained)
  }

  /** The largest allowance whose rendering fits; allowance zero is known to. */
  method LargestFitting(pr: PullRequest, limit: nat, retained: nat) returns (best: string)
    requires retained <= |pr.changes| && Fits(pr, limit, 0, retained) && pr.Worded()
    ensures IsLargestFitting(pr, limit, retained, best)
  {
    hide Render;
    best := Render(pr, limit, 0, retained);
    ghost var allowance := 0;
    var low, high := 0, MinNat(MAX_PER_DIFF, limit);
    while low <= high
      invariant 0 <= low <= high + 1 <= MinNat(MAX_PER_DIFF, limit) + 1
      invariant allowance == MaxInt(low - 1, 0)
      invariant best == Render(pr, limit, allowance, retained) && Fits(pr, limit, allowance, retained)
      invariant forall a :: high < a <= MinNat(MAX_PER_DIFF, limit) ==> !Fits(pr, limit, a, retained)
      decreases high - low
    {
      var perDiff := (low + high) / 2;
      var candidate := Render(pr, limit, perDiff, retained);
      if |candidate| <= limit {
        best := candidate;
        allowance := perDiff;
        low := perDiff + 1;
      } else {
        forall a | perDiff <= a
          ensures !Fits(pr, limit, a, retained)
        {
          RenderGrows(pr, limit, perDiff, a, retained);
        }
        high := perDiff - 1;
      }
    }
  }

  /**
    The full text up to the threshold; otherwise the longest run of files whose shells fit, with the
    largest fitting allowance for every diff, and the cropped carrier when not even the head fits.
   */
  ghost predicate Projects(pr: PullRequest, maxChars: int, compactAbove: int, packed: string, compacted: bool, retained: nat)
  {
    && (compacted <==> |pr.full| > MaxInt(1, compactAbove))
    && (!compacted ==> packed == pr.full && retained == |pr.changes|)
    && (compacted ==>
          var limit := MinNat(MaxInt(1, maxChars), MaxInt(1, compactAbove));
          && MostFiles(pr, limit, retained)
          && (retained > 0 ==> IsLargestFitting(pr, limit, retained, packed))
          && (retained == 0 ==>
                packed == if Fits(pr, limit, 0, 0) then Render(pr, limit, 0, 0)
                          else Carrier(pr)[..MinNat(|Carrier(pr)|, limit)]))
  }

  /** The limit is obeyed exactly when the text was compacted or was short enough to begin with. */
  lemma LimitObeyedExactly(pr: PullRequest, maxChars: int, compactAbove: int, packed: string, compacted: bool, retained: nat)
    requires Projects(pr, maxChars, compactAbove, packed, compacted, retained)
    ensures |packed| <= MaxInt(1, maxChars) <==> |pr.full| > MaxInt(1, compactAbove) || |pr.full| <= MaxInt(1, maxChars)
  {
    hide Render, Carrier;
    if compacted && retained > 0 {
      var limit := MinNat(MaxInt(1, maxChars), MaxInt(1, compactAbove));
      var allowance: nat :| LargestAllowance(pr, limit, retained, allowance) && packed == Render(pr, limit, allowance, retained);
      assert Fits(pr, limit, allowance, retained);
    }
  }

  const PR_DETAILS_MAX_CHARS := 250_000
  const LARGE_PR_MAX_CHARS := 600_000

  /** With the shipped defaults, every text between the two is passed on whole, above its limit. */
  lemma DefaultsLeaveGap(pr: PullRequest, packed: string, compacted: bool, retained: nat)
    requires PR_DETAILS_MAX_CHARS < |pr.full| <= LARGE_PR_MAX_CHARS
    requires Projects(pr, PR_DETAILS_MAX_CHARS, LARGE_PR_MAX_CHARS, packed, compacted, retained)
    ensures packed == pr.full && |packed| > PR_DETAILS_MAX_CHARS
  {
  }

  /** `_bounded_pr_markdown`. */
  method BoundedPrMarkdown(pr: PullRequest, maxChars: int, compactAbove: int)
    returns (packed: string, compacted: bool, retained: nat)
    requires pr.Worded()
    ensures Projects(pr, maxChars, compactAbove, packed, compacted, retained)
    ensures compacted ==> |packed| <= MinNat(MaxInt(1, maxChars), MaxInt(1, compactAbove))
  {
    hide Render, Carrier;
    var threshold: nat := MaxInt(1, compactAbove);
    var limit := MinNat(MaxInt(1, maxChars), threshold);
    if |pr.full| <= threshold { return pr.full, false, |pr.changes|; }
    compacted := true;
    retained := MinNat(MAX_FILES, |pr.changes|);
    packed := Render(pr, limit, 0, retained);
    while |packed| > limit && retained > 0
      invariant retained <= MinNat(MAX_FILES, |pr.changes|)
      invariant packed == Render(pr, limit, 0, retained)
      invariant forall k :: retained < k <= MinNat(MAX_FILES, |pr.changes|) ==> !Fits(pr, limit, 0, k)
      decreases retained
    {
      retained := retained - 1;
      packed := Render(pr, limit, 0, retained);
    }
    if retained > 0 { packed := LargestFitting(pr, limit, retained); }
    if |packed| > limit {
      var carrier := Carrier(pr);
      packed := carrier[..MinNat(|carrier|, limit)];
    }
  }
}
