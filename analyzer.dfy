/** `analyze_source`: the four checks run over the lines of a source, their issues
    concatenated in a fixed order. */
module Analyzer {
  import opened Seqs
  import opened Issues
  import opened PyStr
  import opened Indentation
  import opened Whitespace
  import opened Blocks

  /** The keyword defaults of `analyze_source`. */
  const DefaultPreferSpaces: bool := true
  const DefaultIndentSize: int := 4

  /** Everything `analyze_source` reports: the final-newline issue, then the indentation,
      trailing-whitespace and block-balance issues. */
  function Analysis(source: string, preferSpaces: bool, indentSize: int): seq<Issue>
    requires indentSize != 0
  {
    var lines := SplitLines(source);
    FinalNewlineIssues(source, lines) + IndentationIssues(lines, preferSpaces, indentSize)
    + TrailingIssues(lines) + BlockBalance(lines)
  }

  /** `analyze_source`: the issue list built by one append and three extends. */
  method AnalyzeSource(source: string, preferSpaces: bool, indentSize: int) returns (issues: seq<Issue>)
    requires indentSize != 0
    ensures issues == Analysis(source, preferSpaces, indentSize)
    ensures AllWellFormed(issues)
  {
    issues := [];
    var lines := SplitLines(source);
    if source != [] && !EndsWithNewline(source) {
      issues := issues + [Issue(if |lines| > 0 then |lines| else 1,
                                if |lines| > 0 then |lines[|lines| - 1]| + 1 else 1,
                                MissingFinalNewline, Format)];
    }
    assert issues == FinalNewlineIssues(source, lines);
    issues := issues + IndentationIssues(lines, preferSpaces, indentSize);
    issues := issues + TrailingIssues(lines);
    var blocks := CheckBlockBalance(lines);
    issues := issues + blocks;
    AnalysisWellFormed(source, preferSpaces, indentSize);
  }

  // ---------------------------------------------------------------------------------------
  // Order of the checks

  /** The place of a message's check in `analyze_source`. */
  function Stage(m: Message): nat {
    match m
    case MissingFinalNewline => 0
    case MixedIndentation => 1
    case TabIndentation => 1
    case IndentWidth(_) => 1
    case TrailingWhitespace => 2
    case Unexpected(_) => 3
    case Expected(_, _) => 3
    case Unclosed(_) => 3
  }

  predicate AllAtStage(r: seq<Issue>, k: nat) {
    forall i :: 0 <= i < |r| ==> Stage(r[i].message) == k
  }

  lemma PartsAtStages(source: string, lines: seq<string>, preferSpaces: bool, indentSize: int)
    requires indentSize != 0
    ensures AllAtStage(FinalNewlineIssues(source, lines), 0)
      && AllAtStage(IndentationIssues(lines, preferSpaces, indentSize), 1)
      && AllAtStage(TrailingIssues(lines), 2)
      && AllAtStage(BlockBalance(lines), 3)
  {
    assert AllAtStage(IndentationIssues(lines, preferSpaces, indentSize), 1) by {
      IndentationMessages(lines, preferSpaces, indentSize);
      IndentAtStage(IndentationIssues(lines, preferSpaces, indentSize));
    }
    assert AllAtStage(TrailingIssues(lines), 2) by {
      TrailingAtStage(TrailingIssues(lines));
    }
    BlockAtStage(lines);
  }

  lemma TrailingAtStage(r: seq<Issue>)
    requires forall i :: 0 <= i < |r| ==> r[i].message == TrailingWhitespace
    ensures AllAtStage(r, 2)
  {
  }

  lemma IndentAtStage(r: seq<Issue>)
    requires forall i :: 0 <= i < |r| ==> IndentMessage(r[i].message)
    ensures AllAtStage(r, 1)
  {
  }

  lemma BlockAtStage(lines: seq<string>)
    ensures AllAtStage(BlockBalance(lines), 3)
  {
    BlockBalanceWellFormed(lines);
    var r := BlockBalance(lines);
    assert forall i :: 0 <= i < |r| ==> BlockMessage(r[i].message);
  }

  /** Where an index of four concatenated parts falls. */
  lemma StageOfIndex(a: seq<Issue>, b: seq<Issue>, c: seq<Issue>, d: seq<Issue>, i: nat)
    requires AllAtStage(a, 0) && AllAtStage(b, 1) && AllAtStage(c, 2) && AllAtStage(d, 3)
    requires i < |a + b + c + d|
    ensures Stage((a + b + c + d)[i].message)
      == if i < |a| then 0 else if i < |a| + |b| then 1 else if i < |a| + |b| + |c| then 2 else 3
  {
    var r := a + b + c + d;
    if i < |a| {
      assert r[i] == a[i];
    } else if i < |a| + |b| {
      assert r[i] == b[i - |a|];
    } else if i < |a| + |b| + |c| {
      assert r[i] == c[i - |a| - |b|];
    } else {
      assert r[i] == d[i - |a| - |b| - |c|];
    }
  }

  /** The issues come out check by check: final newline, indentation, trailing whitespace,
      block balance. */
  lemma AnalysisOrdered(source: string, preferSpaces: bool, indentSize: int)
    requires indentSize != 0
    ensures var r := Analysis(source, preferSpaces, indentSize);
      forall i, j :: 0 <= i < j < |r| ==> Stage(r[i].message) <= Stage(r[j].message)
  {
    var lines := SplitLines(source);
    var a, b, c, d := FinalNewlineIssues(source, lines), IndentationIssues(lines, preferSpaces, indentSize),
      TrailingIssues(lines), BlockBalance(lines);
    PartsAtStages(source, lines, preferSpaces, indentSize);
    forall i, j | 0 <= i < j < |a + b + c + d|
      ensures Stage((a + b + c + d)[i].message) <= Stage((a + b + c + d)[j].message)
    {
      StageOfIndex(a, b, c, d, i);
      StageOfIndex(a, b, c, d, j);
    }
  }

  /** Exactly one final-newline issue when the source is non-empty and does not end in '\n',
      placed first, after the last character of the last line; none otherwise. */
  lemma FinalNewlineFirst(source: string, preferSpaces: bool, indentSize: int)
    requires indentSize != 0
    ensures var r, lines := Analysis(source, preferSpaces, indentSize), SplitLines(source);
      source != [] && !EndsWithNewline(source) ==>
        |r| > 0 && r[0] == Issue(|lines|, |lines[|lines| - 1]| + 1, MissingFinalNewline, Format)
    ensures var r := Analysis(source, preferSpaces, indentSize);
      forall i :: 0 <= i < |r| && r[i].message == MissingFinalNewline ==>
        i == 0 && source != [] && !EndsWithNewline(source)
  {
    var lines := SplitLines(source);
    var a, b, c, d := FinalNewlineIssues(source, lines), IndentationIssues(lines, preferSpaces, indentSize),
      TrailingIssues(lines), BlockBalance(lines);
    FinalNewlineRule(source);
    PartsAtStages(source, lines, preferSpaces, indentSize);
    forall i | 0 <= i < |a + b + c + d| && (a + b + c + d)[i].message == MissingFinalNewline
      ensures i == 0 && source != [] && !EndsWithNewline(source)
    {
      StageOfIndex(a, b, c, d, i);
    }
    if source != [] && !EndsWithNewline(source) {
      assert (a + b + c + d)[0] == a[0];
    }
  }

  // ---------------------------------------------------------------------------------------
  // Well-formedness

  lemma WellFormedAppend(a: seq<Issue>, b: seq<Issue>, hi: int)
    requires AllWellFormed(a) && LinesWithin(a, 1, hi) && AllWellFormed(b) && LinesWithin(b, 1, hi)
    ensures AllWellFormed(a + b) && LinesWithin(a + b, 1, hi)
  {
    forall k | 0 <= k < |a + b| ensures WellFormed((a + b)[k]) && 1 <= (a + b)[k].line <= hi {
      if k < |a| {
        assert (a + b)[k] == a[k];
      } else {
        assert (a + b)[k] == b[k - |a|];
      }
    }
  }

  /** Every issue has line and column 1 or more, one of the three used tags, and a line
      within the source (line 1 when the source has no lines). */
  lemma AnalysisWellFormed(source: string, preferSpaces: bool, indentSize: int)
    requires indentSize != 0
    ensures var r, lines := Analysis(source, preferSpaces, indentSize), SplitLines(source);
      AllWellFormed(r) && LinesWithin(r, 1, if |lines| > 0 then |lines| else 1)
  {
    var lines := SplitLines(source);
    var hi := if |lines| > 0 then |lines| else 1;
    FinalNewlineWithin(source, lines, hi);
    IndentationWithin(lines, preferSpaces, indentSize, hi);
    TrailingWithin(lines, hi);
    BlockBalanceWithin(lines, hi);
    PartsWellFormed(FinalNewlineIssues(source, lines), IndentationIssues(lines, preferSpaces, indentSize),
      TrailingIssues(lines), BlockBalance(lines), hi);
  }

  lemma FinalNewlineWithin(source: string, lines: seq<string>, hi: int)
    requires hi == if |lines| > 0 then |lines| else 1
    ensures AllWellFormed(FinalNewlineIssues(source, lines)) && LinesWithin(FinalNewlineIssues(source, lines), 1, hi)
  {
  }

  lemma IndentationWithin(lines: seq<string>, preferSpaces: bool, indentSize: int, hi: int)
    requires indentSize != 0 && hi == if |lines| > 0 then |lines| else 1
    ensures var b := IndentationIssues(lines, preferSpaces, indentSize);
      AllWellFormed(b) && LinesWithin(b, 1, hi)
  {
    assert LinesWithin(IndentationIssues(lines, preferSpaces, indentSize), 1, |lines|);
  }

  lemma TrailingWithin(lines: seq<string>, hi: int)
    requires hi == if |lines| > 0 then |lines| else 1
    ensures AllWellFormed(TrailingIssues(lines)) && LinesWithin(TrailingIssues(lines), 1, hi)
  {
    assert LinesWithin(TrailingIssues(lines), 1, |lines|);
  }

  lemma BlockBalanceWithin(lines: seq<string>, hi: int)
    requires hi == if |lines| > 0 then |lines| else 1
    ensures AllWellFormed(BlockBalance(lines)) && LinesWithin(BlockBalance(lines), 1, hi)
  {
    BlockBalanceWellFormed(lines);
  }

  /** Four well-formed parts within the same lines make a well-formed report within them. */
  lemma PartsWellFormed(a: seq<Issue>, b: seq<Issue>, c: seq<Issue>, d: seq<Issue>, hi: int)
    requires AllWellFormed(a) && LinesWithin(a, 1, hi) && AllWellFormed(b) && LinesWithin(b, 1, hi)
    requires AllWellFormed(c) && LinesWithin(c, 1, hi) && AllWellFormed(d) && LinesWithin(d, 1, hi)
    ensures AllWellFormed(a + b + c + d) && LinesWithin(a + b + c + d, 1, hi)
  {
    WellFormedAppend(a, b, hi);
    WellFormedAppend(a + b, c, hi);
    WellFormedAppend(a + b + c, d, hi);
  }

  // ---------------------------------------------------------------------------------------
  // The issues of each tag

  /** The issues tagged `code`, in order. */
  function OfCode(r: seq<Issue>, code: Code): (s: seq<Issue>)
    ensures |s| <= |r| && AllCoded(s, code)
  {
    if r == [] then []
    else (if r[0].code == code then [r[0]] else []) + OfCode(r[1..], code)
  }

  /** An issue is selected exactly when it is in the report and carries the tag. */
  lemma {:induction false} OfCodeMembers(r: seq<Issue>, code: Code, x: Issue)
    ensures x in OfCode(r, code) <==> x in r && x.code == code
  {
    if r != [] {
      OfCodeMembers(r[1..], code, x);
      assert r == [r[0]] + r[1..];
    }
  }

  lemma {:induction false} OfCodeAppend(a: seq<Issue>, b: seq<Issue>, code: Code)
    ensures OfCode(a + b, code) == OfCode(a, code) + OfCode(b, code)
  {
    if a == [] {
      assert a + b == b;
    } else {
      assert (a + b)[0] == a[0] && (a + b)[1..] == a[1..] + b;
      OfCodeAppend(a[1..], b, code);
      Assoc(if a[0].code == code then [a[0]] else [], OfCode(a[1..], code), OfCode(b, code));
    }
  }

  /** Selecting a tag keeps a sequence of that tag whole and empties one of another tag. */
  lemma {:induction false} OfCodeUniform(r: seq<Issue>, tag: Code, code: Code)
    requires AllCoded(r, tag)
    ensures OfCode(r, code) == if tag == code then r else []
  {
    if r != [] {
      assert AllCoded(r[1..], tag) by {
        forall k | 0 <= k < |r| - 1 ensures r[1..][k].code == tag {
          assert r[1..][k] == r[k + 1];
        }
      }
      OfCodeUniform(r[1..], tag, code);
      if tag == code {
        assert r == [r[0]] + r[1..];
      }
    }
  }

  /** Appending a part of one tag: selected whole when the tags agree, dropped otherwise. */
  lemma OfCodeSnoc(a: seq<Issue>, b: seq<Issue>, code: Code, tag: Code)
    requires AllCoded(b, tag)
    ensures OfCode(a + b, code) == OfCode(a, code) + (if tag == code then b else [])
  {
    OfCodeAppend(a, b, code);
    OfCodeUniform(b, tag, code);
  }

  /** Selecting each tag from the four parts of the report. */
  lemma OfCodeOfParts(a: seq<Issue>, b: seq<Issue>, c: seq<Issue>, d: seq<Issue>)
    requires AllCoded(a, Format) && AllCoded(b, Indent) && AllCoded(c, Format) && AllCoded(d, Syntax)
    ensures OfCode(a + b + c + d, Indent) == b
    ensures OfCode(a + b + c + d, Syntax) == d
    ensures OfCode(a + b + c + d, Format) == a + c
  {
    IndentOfParts(a, b, c, d);
    SyntaxOfParts(a, b, c, d);
    FormatOfParts(a, b, c, d);
  }

  lemma IndentOfParts(a: seq<Issue>, b: seq<Issue>, c: seq<Issue>, d: seq<Issue>)
    requires AllCoded(a, Format) && AllCoded(b, Indent) && AllCoded(c, Format) && AllCoded(d, Syntax)
    ensures OfCode(a + b + c + d, Indent) == b
  {
    var nil: seq<Issue> := [];
    OfPartsTag(a, b, c, d, Indent);
    assert nil + b + nil + nil == b;
  }

  lemma SyntaxOfParts(a: seq<Issue>, b: seq<Issue>, c: seq<Issue>, d: seq<Issue>)
    requires AllCoded(a, Format) && AllCoded(b, Indent) && AllCoded(c, Format) && AllCoded(d, Syntax)
    ensures OfCode(a + b + c + d, Syntax) == d
  {
    var nil: seq<Issue> := [];
    OfPartsTag(a, b, c, d, Syntax);
    assert nil + nil + nil + d == d;
  }

  lemma FormatOfParts(a: seq<Issue>, b: seq<Issue>, c: seq<Issue>, d: seq<Issue>)
    requires AllCoded(a, Format) && AllCoded(b, Indent) && AllCoded(c, Format) && AllCoded(d, Syntax)
    ensures OfCode(a + b + c + d, Format) == a + c
  {
    var nil: seq<Issue> := [];
    OfPartsTag(a, b, c, d, Format);
    assert a + nil == a;
    assert a + c + nil == a + c;
  }

  lemma OfPartsTag(a: seq<Issue>, b: seq<Issue>, c: seq<Issue>, d: seq<Issue>, code: Code)
    requires AllCoded(a, Format) && AllCoded(b, Indent) && AllCoded(c, Format) && AllCoded(d, Syntax)
    ensures OfCode(a + b + c + d, code)
      == (if code == Format then a else []) + (if code == Indent then b else [])
         + (if code == Format then c else []) + (if code == Syntax then d else [])
  {
    var ab, abc := a + b, a + b + c;
    OfCodeUniform(a, Format, code);
    OfCodeSnoc(a, b, code, Indent);
    OfCodeSnoc(ab, c, code, Format);
    OfCodeSnoc(abc, d, code, Syntax);
  }

  /** The INDENT issues are the indentation check's, the SYNTAX issues the block checker's,
      and the FORMAT issues the final-newline issue followed by the trailing-whitespace ones. */
  lemma AnalysisByCode(source: string, preferSpaces: bool, indentSize: int)
    requires indentSize != 0
    ensures var r, lines := Analysis(source, preferSpaces, indentSize), SplitLines(source);
      OfCode(r, Indent) == IndentationIssues(lines, preferSpaces, indentSize)
      && OfCode(r, Syntax) == BlockBalance(lines)
      && OfCode(r, Format) == FinalNewlineIssues(source, lines) + TrailingIssues(lines)
  {
    var lines := SplitLines(source);
    var a, b, c, d := FinalNewlineIssues(source, lines), IndentationIssues(lines, preferSpaces, indentSize),
      TrailingIssues(lines), BlockBalance(lines);
    assert AllCoded(d, Syntax) by {
      BlockBalanceWellFormed(lines);
    }
    OfCodeOfParts(a, b, c, d);
  }

  /** Line `k + 1` carries at most one INDENT issue: the classifier's verdict on that line. */
  lemma IndentPerLine(source: string, preferSpaces: bool, indentSize: int, k: nat)
    requires indentSize != 0 && k < |SplitLines(source)|
    ensures var r, lines := Analysis(source, preferSpaces, indentSize), SplitLines(source);
      IssuesAt(OfCode(r, Indent), k + 1) == LineIndentIssues(k + 1, lines[k], preferSpaces, indentSize)
      && |IssuesAt(OfCode(r, Indent), k + 1)| <= 1
  {
    var lines := SplitLines(source);
    AnalysisByCode(source, preferSpaces, indentSize);
    IndentationIssuesAt(lines, preferSpaces, indentSize, k);
    LineIndentAtMostOne(k + 1, lines[k], preferSpaces, indentSize);
  }

  /** The FORMAT issues at line `k + 1`: the final-newline issue when it falls on that line,
      then a trailing-whitespace issue exactly when the line ends in a space or a tab. */
  lemma FormatPerLine(source: string, preferSpaces: bool, indentSize: int, k: nat)
    requires indentSize != 0 && k < |SplitLines(source)|
    ensures var r, lines := Analysis(source, preferSpaces, indentSize), SplitLines(source);
      IssuesAt(OfCode(r, Format), k + 1)
      == IssuesAt(FinalNewlineIssues(source, lines), k + 1)
         + (if EndsInBlank(lines[k]) then [Issue(k + 1, |lines[k]|, TrailingWhitespace, Format)] else [])
  {
    var lines := SplitLines(source);
    AnalysisByCode(source, preferSpaces, indentSize);
    IssuesAtAppend(FinalNewlineIssues(source, lines), TrailingIssues(lines), k + 1);
    TrailingReportedIff(lines, k);
  }

  /** A source whose keywords nest properly gets no SYNTAX issue at all. */
  lemma NestedSourceHasNoSyntaxIssue(source: string, preferSpaces: bool, indentSize: int, n: Nest)
    requires indentSize != 0 && ValidNest(n)
    requires TokensOf(KeywordEvents(Events(SplitLines(source)))) == Emit(n)
    ensures OfCode(Analysis(source, preferSpaces, indentSize), Syntax) == []
  {
    AnalysisByCode(source, preferSpaces, indentSize);
    BalancedSourceClean(SplitLines(source), n);
  }

  // ---------------------------------------------------------------------------------------
  // A one-line source

  /** A non-empty source without any line boundary is a single line. */
  lemma SingleLine(source: string)
    requires source != [] && NoLineBreak(source)
    ensures SplitLines(source) == [source]
  {
    var k := FirstBreak(source);
    assert k == |source|;
  }

  /** `print('hello world')` without a newline: the final-newline issue comes first, at line 1,
      column 21. */
  lemma HelloWorldMissesNewline()
    ensures var r := Analysis("print('hello world')", DefaultPreferSpaces, DefaultIndentSize);
      |r| > 0 && r[0] == Issue(1, 21, MissingFinalNewline, Format)
  {
    var source := "print('hello world')";
    SingleLine(source);
    FinalNewlineFirst(source, DefaultPreferSpaces, DefaultIndentSize);
  }

  /** `print('hi')` with two trailing spaces and a newline: the trailing-whitespace issue is
      reported at line 1, column 13. */
  lemma TrailingSpacesReported(source: string)
    requires source == "print('hi')  \n"
    ensures Issue(1, 13, TrailingWhitespace, Format) in Analysis(source, DefaultPreferSpaces, DefaultIndentSize)
  {
    var line := "print('hi')  ";
    assert source == line + "\n";
    PrintableNoBreak(line);
    TrailingRule(1, line);
    OneLineTrailing(line, DefaultPreferSpaces, DefaultIndentSize);
  }

  /** Printable ASCII text holds no line boundary. */
  lemma PrintableNoBreak(s: string)
    requires forall j :: 0 <= j < |s| ==> ' ' <= s[j] <= '~'
    ensures NoLineBreak(s)
  {
  }

  /** For a source that is one line ended by '\n', that line's trailing-whitespace verdict is
      in the report. */
  lemma OneLineTrailing(line: string, preferSpaces: bool, indentSize: int)
    requires indentSize != 0 && line != [] && NoLineBreak(line)
    ensures forall x :: x in LineTrailingIssues(1, line) ==> x in Analysis(line + "\n", preferSpaces, indentSize)
  {
    var source := line + "\n";
    NewlineEndedLine(source, line);
    assert TrailingIssues([line]) == LineTrailingIssues(1, line) by {
      assert [line][..0] == [];
    }
    AnalysisByCode(source, preferSpaces, indentSize);
    forall x | x in LineTrailingIssues(1, line) ensures x in Analysis(source, preferSpaces, indentSize) {
      OfCodeMembers(Analysis(source, preferSpaces, indentSize), Format, x);
    }
  }

  /** A line without boundaries followed by one '\n' is a single line. */
  lemma NewlineEndedLine(source: string, line: string)
    requires line != [] && NoLineBreak(line) && source == line + "\n"
    ensures SplitLines(source) == [line]
  {
    assert forall j :: 0 <= j < |line| ==> source[j] == line[j];
    var k := FirstBreak(source);
    assert k == |line| by {
      assert source[..|line| + 1][|line|] == '\n';
    }
    SplitAtNewline(source, k);
    assert source[..k] == line && source[k + 1..] == [];
  }
}
