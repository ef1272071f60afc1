/** The indentation classifier: one decision per line about its leading spaces and tabs. */
module Indentation {
  import opened Seqs
  import opened Issues
  import opened PyStr

  /** `indent.replace(c, "")`, described by the two facts the width rule relies on: no `c` is
      left, and the text comes back unchanged exactly when it had no `c`. */
  function RemoveChar(s: string, c: char): (r: string)
    ensures c !in r && |r| <= |s|
    ensures r == s <==> c !in s
  {
    if s == [] then []
    else if s[0] == c then RemoveChar(s[1..], c)
    else
      var r := RemoveChar(s[1..], c);
      assert s == [s[0]] + s[1..];
      [s[0]] + r
  }

  /** `set(s)`. */
  function CharSet(s: string): set<char> {
    set c | c in s
  }

  /** `set(s) == {" "}`: at least one character, and every character a space. */
  predicate OnlySpaces(s: string) {
    |s| > 0 && forall k :: 0 <= k < |s| ==> s[k] == ' '
  }

  lemma OnlySpacesIsCharSet(s: string)
    ensures OnlySpaces(s) <==> CharSet(s) == {' '}
  {
    if CharSet(s) == {' '} {
      assert ' ' in CharSet(s);
      forall k | 0 <= k < |s| ensures s[k] == ' ' {
        assert s[k] in CharSet(s);
      }
    }
    if OnlySpaces(s) {
      assert s[0] in CharSet(s);
      forall c | c in CharSet(s) ensures c == ' ' {
        var k :| 0 <= k < |s| && s[k] == c;
      }
    }
  }

  /** The leading run of spaces and tabs, `line[: len(line) - len(line.lstrip(" \t"))]`
      (`IndentOfStrip`). */
  function IndentOf(line: string): (indent: string)
    ensures |indent| <= |line| && AllBlank(indent) && indent == line[..|indent|]
    ensures |indent| < |line| ==> !IsBlank(line[|indent|])
  {
    line[..LeadingBlanks(line, 0)]
  }

  /** The indent is what `lstrip` removes, and `stripped` is the rest of the line. */
  lemma IndentOfStrip(line: string)
    ensures IndentOf(line) == line[..|line| - |LStrip(line)|]
    ensures LStrip(line) == line[|IndentOf(line)|..]
  {
    LStripLeadingBlanks(line);
  }

  /** The INDENT issues `_check_indentation` yields for line number `idx`. `stripped` is
      empty exactly when the indent is the whole line (`IndentOfStrip`). */
  function LineIndentIssues(idx: int, line: string, preferSpaces: bool, indentSize: int): seq<Issue>
    requires indentSize != 0
  {
    var indent := IndentOf(line);
    if |indent| == |line| then []
    else if ' ' in indent && '\t' in indent then [Issue(idx, 1, MixedIndentation, Indent)]
    else TabIssue(idx, indent, preferSpaces) + WidthIssue(idx, indent, indentSize)
  }

  /** The tab report of a line whose indentation is not mixed, at its first tab. */
  function TabIssue(idx: int, indent: string, preferSpaces: bool): seq<Issue> {
    if preferSpaces && '\t' in indent then [Issue(idx, Find(indent, "\t") + 1, TabIndentation, Indent)]
    else []
  }

  /** The width report of a line whose indentation is not mixed: tab-only indents are skipped. */
  function WidthIssue(idx: int, indent: string, indentSize: int): seq<Issue>
    requires indentSize != 0
  {
    if |indent| > 0 && RemoveChar(indent, ' ') == indent then []
    else if OnlySpaces(indent) && |indent| % indentSize != 0 then
      [Issue(idx, |indent|, IndentWidth(indentSize), Indent)]
    else []
  }

  /** `"\t"` occurs at position `k` exactly when the character there is a tab. */
  lemma TabOccursAt(s: string, k: int)
    ensures OccursAt(s, "\t", k) <==> 0 <= k < |s| && s[k] == '\t'
  {
    if 0 <= k < |s| {
      assert s[k..k + 1] == [s[k]];
    }
  }

  /** The tab report is made exactly when spaces are preferred and the indent has a tab, and
      then at the column of its first tab. */
  lemma TabIssueRule(idx: int, indent: string, preferSpaces: bool)
    ensures var r := TabIssue(idx, indent, preferSpaces);
      |r| <= 1 && (r != [] <==> preferSpaces && HasTab(indent))
    ensures var r := TabIssue(idx, indent, preferSpaces);
      forall i :: 0 <= i < |r| ==>
        r[i].line == idx && r[i].message == TabIndentation && r[i].code == Indent
        && 1 <= r[i].column <= |indent| && indent[r[i].column - 1] == '\t'
        && forall j :: 0 <= j < r[i].column - 1 ==> indent[j] != '\t'
  {
    if preferSpaces && '\t' in indent {
      var f := Find(indent, "\t");
      assert f != -1 by {
        var k :| 0 <= k < |indent| && indent[k] == '\t';
        TabOccursAt(indent, k);
      }
      TabOccursAt(indent, f);
      forall j | 0 <= j < f ensures indent[j] != '\t' {
        TabOccursAt(indent, j);
      }
    }
  }

  /** The width report is made exactly when the indent is non-empty, all spaces, and of a width
      that is not a multiple of `indentSize`, and then at the column of its last space. */
  lemma WidthIssueRule(idx: int, indent: string, indentSize: int)
    requires indentSize != 0
    ensures WidthIssue(idx, indent, indentSize)
      == if OnlySpaces(indent) && |indent| % indentSize != 0
         then [Issue(idx, |indent|, IndentWidth(indentSize), Indent)] else []
  {
    if OnlySpaces(indent) {
      assert indent[0] in indent;
    }
  }

  predicate HasTab(s: string) {
    '\t' in s
  }

  predicate HasSpace(s: string) {
    ' ' in s
  }

  /** At most one INDENT issue per line, always at that line and column 1 or later. */
  lemma LineIndentAtMostOne(idx: int, line: string, preferSpaces: bool, indentSize: int)
    requires indentSize != 0
    ensures |LineIndentIssues(idx, line, preferSpaces, indentSize)| <= 1
    ensures forall i :: 0 <= i < |LineIndentIssues(idx, line, preferSpaces, indentSize)| ==>
      var r := LineIndentIssues(idx, line, preferSpaces, indentSize)[i];
      r.line == idx && r.column >= 1 && r.code == Indent
  {
    LineIndentRules(idx, line, preferSpaces, indentSize);
  }

  /** The four rules: blank lines pass, a mixed indent is reported at column 1 and nothing
      else, a tab indent is reported at column 1 exactly when spaces are preferred, and a
      space indent is reported at its width when that is not a multiple of the size. */
  lemma LineIndentRules(idx: int, line: string, preferSpaces: bool, indentSize: int)
    requires indentSize != 0
    ensures AllBlank(line) ==> LineIndentIssues(idx, line, preferSpaces, indentSize) == []
    ensures var indent := IndentOf(line);
      !AllBlank(line) && HasSpace(indent) && HasTab(indent) ==>
        LineIndentIssues(idx, line, preferSpaces, indentSize) == [Issue(idx, 1, MixedIndentation, Indent)]
    ensures var indent := IndentOf(line);
      !AllBlank(line) && !HasSpace(indent) && HasTab(indent) ==>
        LineIndentIssues(idx, line, preferSpaces, indentSize)
        == if preferSpaces then [Issue(idx, 1, TabIndentation, Indent)] else []
    ensures var indent := IndentOf(line);
      !AllBlank(line) && !HasTab(indent) ==>
        LineIndentIssues(idx, line, preferSpaces, indentSize)
        == if |indent| % indentSize != 0 then [Issue(idx, |indent|, IndentWidth(indentSize), Indent)] else []
  {
    BlankIffStripped(line);
    var indent := IndentOf(line);
    if !AllBlank(line) && HasSpace(indent) && HasTab(indent) {
      MixedRule(idx, line, preferSpaces, indentSize);
    }
    if !AllBlank(line) && !HasSpace(indent) && HasTab(indent) {
      TabRule(idx, line, preferSpaces, indentSize);
    }
    if !AllBlank(line) && !HasTab(indent) {
      SpaceRule(idx, line, preferSpaces, indentSize);
    }
  }

  /** A line has nothing after its indentation exactly when it is all blanks. */
  lemma BlankIffStripped(line: string)
    ensures |IndentOf(line)| == |line| <==> AllBlank(line)
  {
    var indent := IndentOf(line);
    if |indent| == |line| {
      assert line == indent;
    }
  }

  lemma MixedRule(idx: int, line: string, preferSpaces: bool, indentSize: int)
    requires indentSize != 0
    requires !AllBlank(line) && HasSpace(IndentOf(line)) && HasTab(IndentOf(line))
    ensures LineIndentIssues(idx, line, preferSpaces, indentSize) == [Issue(idx, 1, MixedIndentation, Indent)]
  {
    BlankIffStripped(line);
  }

  lemma TabRule(idx: int, line: string, preferSpaces: bool, indentSize: int)
    requires indentSize != 0
    requires !AllBlank(line) && !HasSpace(IndentOf(line)) && HasTab(IndentOf(line))
    ensures LineIndentIssues(idx, line, preferSpaces, indentSize)
      == if preferSpaces then [Issue(idx, 1, TabIndentation, Indent)] else []
  {
    BlankIffStripped(line);
    TabsOnly(idx, IndentOf(line), preferSpaces, indentSize);
  }

  /** An indentation of tabs only has its first tab at column 1 and no width report. */
  lemma TabsOnly(idx: int, indent: string, preferSpaces: bool, indentSize: int)
    requires indentSize != 0 && AllBlank(indent) && !HasSpace(indent) && HasTab(indent)
    ensures TabIssue(idx, indent, preferSpaces) == if preferSpaces then [Issue(idx, 1, TabIndentation, Indent)] else []
    ensures WidthIssue(idx, indent, indentSize) == []
  {
    assert indent[0] == '\t' by {
      assert IsBlank(indent[0]) && indent[0] in indent;
    }
    assert OccursAt(indent, "\t", 0) by {
      assert indent[0..1] == "\t";
    }
  }

  lemma SpaceRule(idx: int, line: string, preferSpaces: bool, indentSize: int)
    requires indentSize != 0
    requires !AllBlank(line) && !HasTab(IndentOf(line))
    ensures LineIndentIssues(idx, line, preferSpaces, indentSize)
      == if |IndentOf(line)| % indentSize != 0 then [Issue(idx, |IndentOf(line)|, IndentWidth(indentSize), Indent)] else []
  {
    BlankIffStripped(line);
    var indent := IndentOf(line);
    SpaceWidth(idx, indent, indentSize);
    assert TabIssue(idx, indent, preferSpaces) == [];
  }

  /** An indentation of spaces only is reported exactly when its width is not a multiple. */
  lemma SpaceWidth(idx: int, indent: string, indentSize: int)
    requires indentSize != 0 && AllBlank(indent) && !HasTab(indent)
    ensures WidthIssue(idx, indent, indentSize)
      == if |indent| % indentSize != 0 then [Issue(idx, |indent|, IndentWidth(indentSize), Indent)] else []
  {
    if |indent| > 0 {
      assert OnlySpaces(indent);
    }
  }

  /** `_check_indentation` over all lines, line numbers counted from 1. */
  function IndentationIssues(lines: seq<string>, preferSpaces: bool, indentSize: int): (r: seq<Issue>)
    requires indentSize != 0
    ensures AllWellFormed(r) && AllCoded(r, Indent)
    ensures LinesWithin(r, 1, |lines|) && LinesIncreasing(r)
  {
    if lines == [] then []
    else
      var n := |lines|;
      var before := IndentationIssues(lines[..n - 1], preferSpaces, indentSize);
      var last := LineIndentIssues(n, lines[n - 1], preferSpaces, indentSize);
      LineIndentAtMostOne(n, lines[n - 1], preferSpaces, indentSize);
      before + last
  }

  lemma IndentationIssuesSnoc(lines: seq<string>, preferSpaces: bool, indentSize: int)
    requires indentSize != 0 && lines != []
    ensures IndentationIssues(lines, preferSpaces, indentSize)
      == IndentationIssues(lines[..|lines| - 1], preferSpaces, indentSize)
         + LineIndentIssues(|lines|, lines[|lines| - 1], preferSpaces, indentSize)
  {
  }

  /** The issues reported at line `k + 1` are exactly the classifier's verdict on `lines[k]`. */
  lemma IndentationIssuesAt(lines: seq<string>, preferSpaces: bool, indentSize: int, k: nat)
    requires indentSize != 0 && k < |lines|
    ensures IssuesAt(IndentationIssues(lines, preferSpaces, indentSize), k + 1)
      == LineIndentIssues(k + 1, lines[k], preferSpaces, indentSize)
  {
    IssuesOfLine(lines, preferSpaces, indentSize, k, lines[k]);
  }

  lemma {:induction false} IssuesOfLine(lines: seq<string>, preferSpaces: bool, indentSize: int, k: nat, line: string)
    requires indentSize != 0 && k < |lines| && line == lines[k]
    ensures IssuesAt(IndentationIssues(lines, preferSpaces, indentSize), k + 1)
      == LineIndentIssues(k + 1, line, preferSpaces, indentSize)
  {
    var n := |lines|;
    if k + 1 < n {
      var prefix := lines[..n - 1];
      assert k < |prefix| && line == prefix[k];
      EarlierLineUnchanged(lines, preferSpaces, indentSize, k + 1);
      IssuesOfLine(prefix, preferSpaces, indentSize, k, line);
    } else {
      IssuesOfLastLine(lines, preferSpaces, indentSize, k, line);
    }
  }

  /** Appending the last line's verdict leaves the issues of every earlier line as they were. */
  lemma EarlierLineUnchanged(lines: seq<string>, preferSpaces: bool, indentSize: int, j: int)
    requires indentSize != 0 && 1 <= j < |lines|
    ensures IssuesAt(IndentationIssues(lines, preferSpaces, indentSize), j)
      == IssuesAt(IndentationIssues(lines[..|lines| - 1], preferSpaces, indentSize), j)
  {
    var n := |lines|;
    var before := IndentationIssues(lines[..n - 1], preferSpaces, indentSize);
    var last := LineIndentIssues(n, lines[n - 1], preferSpaces, indentSize);
    IndentationIssuesSnoc(lines, preferSpaces, indentSize);
    LineIndentAtMostOne(n, lines[n - 1], preferSpaces, indentSize);
    IssuesAtSnoc(before + last, before, last, n, j, IssuesAt(before, j));
  }

  /** The last line's issues are the ones appended for it. */
  lemma IssuesOfLastLine(lines: seq<string>, preferSpaces: bool, indentSize: int, k: nat, line: string)
    requires indentSize != 0 && k + 1 == |lines| && line == lines[k]
    ensures IssuesAt(IndentationIssues(lines, preferSpaces, indentSize), k + 1)
      == LineIndentIssues(k + 1, line, preferSpaces, indentSize)
  {
    var n := |lines|;
    assert k + 1 == n && line == lines[n - 1];
    var before := IndentationIssues(lines[..n - 1], preferSpaces, indentSize);
    var last := LineIndentIssues(n, lines[n - 1], preferSpaces, indentSize);
    IndentationIssuesSnoc(lines, preferSpaces, indentSize);
    LineIndentAtMostOne(n, lines[n - 1], preferSpaces, indentSize);
    IssuesAtSnoc(before + last, before, last, n, n, last);
  }

  /** With tabs allowed, no line is ever reported for tab indentation. */
  lemma TabsAllowed(lines: seq<string>, indentSize: int)
    requires indentSize != 0
    ensures forall i :: 0 <= i < |IndentationIssues(lines, false, indentSize)| ==>
      IndentationIssues(lines, false, indentSize)[i].message != TabIndentation
  {
    if lines != [] {
      var n := |lines|;
      TabsAllowed(lines[..n - 1], indentSize);
      NoTabIssueWhenAllowed(n, lines[n - 1], indentSize);
    }
  }

  lemma NoTabIssueWhenAllowed(idx: int, line: string, indentSize: int)
    requires indentSize != 0
    ensures forall i :: 0 <= i < |LineIndentIssues(idx, line, false, indentSize)| ==>
      LineIndentIssues(idx, line, false, indentSize)[i].message != TabIndentation
  {
  }

  /** The three messages of the indentation check. */
  predicate IndentMessage(m: Message) {
    m.MixedIndentation? || m.TabIndentation? || m.IndentWidth?
  }

  lemma LineIndentMessages(idx: int, line: string, preferSpaces: bool, indentSize: int)
    requires indentSize != 0
    ensures forall i :: 0 <= i < |LineIndentIssues(idx, line, preferSpaces, indentSize)| ==>
      IndentMessage(LineIndentIssues(idx, line, preferSpaces, indentSize)[i].message)
  {
  }

  /** The indentation check reports nothing but its own three messages. */
  lemma {:induction false} IndentationMessages(lines: seq<string>, preferSpaces: bool, indentSize: int)
    requires indentSize != 0
    ensures forall i :: 0 <= i < |IndentationIssues(lines, preferSpaces, indentSize)| ==>
      IndentMessage(IndentationIssues(lines, preferSpaces, indentSize)[i].message)
  {
    if lines != [] {
      var n := |lines|;
      IndentationMessages(lines[..n - 1], preferSpaces, indentSize);
      LineIndentMessages(n, lines[n - 1], preferSpaces, indentSize);
      IndentationIssuesSnoc(lines, preferSpaces, indentSize);
    }
  }
}
