/** The two whitespace-hygiene checks: trailing blanks on a line and the final newline. */
module Whitespace {
  import opened Seqs
  import opened Issues
  import opened PyStr

  predicate EndsInBlank(line: string) {
    |line| > 0 && IsBlank(line[|line| - 1])
  }

  /** The FORMAT issue `_check_trailing_whitespace` yields for line number `idx`, if any. */
  function LineTrailingIssues(idx: int, line: string): seq<Issue> {
    if RStrip(line) != line then [Issue(idx, |line|, TrailingWhitespace, Format)] else []
  }

  /** A line is reported exactly when it ends in a space or a tab, at its last column. */
  lemma TrailingRule(idx: int, line: string)
    ensures LineTrailingIssues(idx, line)
      == if EndsInBlank(line) then [Issue(idx, |line|, TrailingWhitespace, Format)] else []
  {
    if EndsInBlank(line) {
      assert RStrip(line) == RStrip(line[..|line| - 1]);
      assert |RStrip(line)| < |line|;
    }
  }

  /** Stripping the trailing blanks leaves nothing to report on that line. */
  lemma TrailingIdempotent(idx: int, line: string)
    ensures LineTrailingIssues(idx, RStrip(line)) == []
  {
    TrailingRule(idx, RStrip(line));
  }

  /** `_check_trailing_whitespace` over all lines, line numbers counted from 1. */
  function TrailingIssues(lines: seq<string>): (r: seq<Issue>)
    ensures AllCoded(r, Format) && LinesWithin(r, 1, |lines|) && LinesIncreasing(r)
    ensures AllWellFormed(r) && forall i :: 0 <= i < |r| ==> r[i].message == TrailingWhitespace
  {
    if lines == [] then []
    else
      var n := |lines|;
      var before := TrailingIssues(lines[..n - 1]);
      TrailingRule(n, lines[n - 1]);
      before + LineTrailingIssues(n, lines[n - 1])
  }

  /** The issues reported at line `k + 1` are exactly the verdict on `lines[k]`. */
  lemma {:induction false} TrailingIssuesAt(lines: seq<string>, k: nat)
    requires k < |lines|
    ensures IssuesAt(TrailingIssues(lines), k + 1) == LineTrailingIssues(k + 1, lines[k])
  {
    var n := |lines|;
    var pre := lines[..n - 1];
    var before := TrailingIssues(pre);
    var last := LineTrailingIssues(n, lines[n - 1]);
    assert forall i :: 0 <= i < |last| ==> last[i].line == n;
    IssuesAtNextLine(before, last, n, k + 1);
    if k + 1 < n {
      TrailingIssuesAt(pre, k);
      assert pre[k] == lines[k];
    }
  }

  /** Line `k + 1` is reported, once and at its last column, exactly when `lines[k]` ends in
      a space or a tab. */
  lemma TrailingReportedIff(lines: seq<string>, k: nat)
    requires k < |lines|
    ensures IssuesAt(TrailingIssues(lines), k + 1)
      == if EndsInBlank(lines[k]) then [Issue(k + 1, |lines[k]|, TrailingWhitespace, Format)] else []
  {
    TrailingIssuesAt(lines, k);
    TrailingRule(k + 1, lines[k]);
  }

  /** The FORMAT issue for a source that does not end in a newline, placed after the last
      character of the last line (or at line 1, column 1 when there are no lines). */
  function FinalNewlineIssues(source: string, lines: seq<string>): seq<Issue> {
    if source != [] && source[|source| - 1] != '\n' then
      [Issue(if |lines| > 0 then |lines| else 1,
             if |lines| > 0 then |lines[|lines| - 1]| + 1 else 1,
             MissingFinalNewline, Format)]
    else []
  }

  /** Exactly one final-newline issue when the source is non-empty and does not end in '\n',
      at (number of lines, length of the last line + 1); none otherwise. */
  lemma FinalNewlineRule(source: string)
    ensures var lines := SplitLines(source);
      FinalNewlineIssues(source, lines)
      == if source != [] && !EndsWithNewline(source)
         then [Issue(|lines|, |lines[|lines| - 1]| + 1, MissingFinalNewline, Format)]
         else []
  {
  }
}
