/** Models of the Python `str` methods the analyzer relies on: `splitlines`, `find`,
    `lstrip(" \t")` and `rstrip(" \t")`. */
module PyStr {
  import opened Seqs

  /** The characters Python's `str.splitlines` treats as line boundaries. */
  predicate IsLineBreak(c: char) {
    c == '\n' || c == '\r' || c == '\U{0B}' || c == '\U{0C}' || c == '\U{1C}' || c == '\U{1D}'
    || c == '\U{1E}' || c == '\U{85}' || c == '\U{2028}' || c == '\U{2029}'
  }

  predicate NoLineBreak(s: string) {
    forall k :: 0 <= k < |s| ==> !IsLineBreak(s[k])
  }

  /** True when the only line boundary `s` uses is '\n'. */
  predicate NewlineOnly(s: string) {
    forall k :: 0 <= k < |s| ==> s[k] == '\n' || !IsLineBreak(s[k])
  }

  /** Index of the first line boundary in `s`, or `|s|` if there is none. */
  function FirstBreak(s: string): (k: nat)
    ensures k <= |s| && NoLineBreak(s[..k]) && (k < |s| ==> IsLineBreak(s[k]))
  {
    if s == [] || IsLineBreak(s[0]) then 0
    else
      var k := FirstBreak(s[1..]);
      assert s[..k + 1] == [s[0]] + s[1..][..k];
      k + 1
  }

  /** Width of the boundary at `k`: "\r\n" counts as one boundary of two characters. */
  function BreakWidth(s: string, k: nat): nat
    requires k < |s|
  {
    if s[k] == '\r' && k + 1 < |s| && s[k + 1] == '\n' then 2 else 1
  }

  /** `str.splitlines()`: the lines of `s`, without their terminators; a final empty
      segment after the last terminator is not a line. */
  function SplitLines(s: string): (lines: seq<string>)
    ensures lines == [] <==> s == []
    ensures forall i :: 0 <= i < |lines| ==> NoLineBreak(lines[i])
    decreases |s|
  {
    if s == [] then []
    else
      var k := FirstBreak(s);
      if k == |s| then [s] else [s[..k]] + SplitLines(s[k + BreakWidth(s, k)..])
  }

  /** The lines joined again with '\n' between them. */
  function JoinLines(lines: seq<string>): string {
    if lines == [] then []
    else if |lines| == 1 then lines[0]
    else lines[0] + "\n" + JoinLines(lines[1..])
  }

  predicate EndsWithNewline(s: string) {
    |s| > 0 && s[|s| - 1] == '\n'
  }

  lemma JoinLinesCons(head: string, tail: seq<string>)
    requires tail != []
    ensures JoinLines([head] + tail) == head + "\n" + JoinLines(tail)
  {
    assert ([head] + tail)[1..] == tail;
  }

  lemma NewlineOnlySuffix(s: string, k: nat)
    requires NewlineOnly(s) && k <= |s|
    ensures NewlineOnly(s[k..])
  {
    forall j | 0 <= j < |s| - k ensures s[k..][j] == '\n' || !IsLineBreak(s[k..][j]) {
      assert s[k..][j] == s[k + j];
    }
  }

  /** At a '\n' the source splits into the line before it and the lines after it. */
  lemma SplitAtNewline(s: string, k: nat)
    requires s != [] && k == FirstBreak(s) && k < |s| && s[k] == '\n'
    ensures SplitLines(s) == [s[..k]] + SplitLines(s[k + 1..])
    ensures s == s[..k] + "\n" + s[k + 1..]
  {
    assert BreakWidth(s, k) == 1;
    Around(s, k);
  }

  /** For a source whose only line boundary is '\n', splitting loses nothing but the final
      terminator, which is there exactly when the source ends in '\n'. */
  lemma {:induction false} SplitLinesRoundTrip(s: string)
    requires NewlineOnly(s)
    ensures JoinLines(SplitLines(s)) + (if EndsWithNewline(s) then "\n" else "") == s
    decreases |s|
  {
    if s != [] {
      var k := FirstBreak(s);
      if k < |s| {
        assert s[k] == '\n';
        var rest, head := s[k + 1..], s[..k];
        SplitAtNewline(s, k);
        if rest == [] {
          assert EndsWithNewline(s);
        } else {
          NewlineOnlySuffix(s, k + 1);
          SplitLinesRoundTrip(rest);
          JoinLinesCons(head, SplitLines(rest));
          assert EndsWithNewline(s) == EndsWithNewline(rest) by {
            assert s[|s| - 1] == rest[|rest| - 1];
          }
          Assoc(head + "\n", JoinLines(SplitLines(rest)), if EndsWithNewline(s) then "\n" else "");
        }
      } else {
        assert !IsLineBreak(s[|s| - 1]);
      }
    }
  }

  predicate OccursAt(s: string, t: string, k: int) {
    0 <= k && k + |t| <= |s| && s[k..k + |t|] == t
  }

  /** `s.find(t, k)` for `0 <= k`: the least position at or after `k` where `t` occurs, or -1. */
  function FindFrom(s: string, t: string, k: nat): (r: int)
    ensures r == -1 || (k <= r && OccursAt(s, t, r))
    ensures forall j :: k <= j && (r == -1 || j < r) ==> !OccursAt(s, t, j)
    decreases |s| - k
  {
    if k + |t| > |s| then -1
    else if s[k..k + |t|] == t then k
    else FindFrom(s, t, k + 1)
  }

  /** `s.find(t)`. */
  function Find(s: string, t: string): (r: int)
    ensures r == -1 <==> forall j :: !OccursAt(s, t, j)
    ensures r != -1 ==> OccursAt(s, t, r) && forall j :: j < r ==> !OccursAt(s, t, j)
  {
    FindFrom(s, t, 0)
  }

  predicate IsBlank(c: char) {
    c == ' ' || c == '\t'
  }

  predicate AllBlank(s: string) {
    forall k :: 0 <= k < |s| ==> IsBlank(s[k])
  }

  /** `s.lstrip(" \t")`: drops the longest prefix of spaces and tabs. */
  function LStrip(s: string): (r: string)
    ensures |r| <= |s| && r == s[|s| - |r|..]
    ensures AllBlank(s[..|s| - |r|])
    ensures r != [] ==> !IsBlank(r[0])
  {
    if s != [] && IsBlank(s[0]) then
      var r := LStrip(s[1..]);
      assert s[..|s| - |r|] == [s[0]] + s[1..][..|s| - 1 - |r|];
      r
    else s
  }

  /** How many spaces and tabs `s` starts with, counting from index `i`. */
  function LeadingBlanks(s: string, i: nat): (k: nat)
    requires i <= |s|
    ensures i <= k <= |s| && (forall j :: i <= j < k ==> IsBlank(s[j])) && (k < |s| ==> !IsBlank(s[k]))
    decreases |s| - i
  {
    if i < |s| && IsBlank(s[i]) then LeadingBlanks(s, i + 1) else i
  }

  /** Only one length of blank prefix is followed by a character that is not blank. */
  lemma BlankPrefixUnique(s: string, a: nat, b: nat)
    requires a <= |s| && (forall j :: 0 <= j < a ==> IsBlank(s[j])) && (a < |s| ==> !IsBlank(s[a]))
    requires b <= |s| && (forall j :: 0 <= j < b ==> IsBlank(s[j])) && (b < |s| ==> !IsBlank(s[b]))
    ensures a == b
  {
  }

  /** `lstrip(" \t")` removes exactly the leading blanks. */
  lemma LStripLeadingBlanks(s: string)
    ensures LStrip(s) == s[LeadingBlanks(s, 0)..]
  {
    var r := LStrip(s);
    var m := |s| - |r|;
    forall j | 0 <= j < m ensures IsBlank(s[j]) {
      assert s[..m][j] == s[j];
    }
    if m < |s| {
      assert r[0] == s[m];
    }
    BlankPrefixUnique(s, m, LeadingBlanks(s, 0));
  }

  /** `s.rstrip(" \t")`: drops the longest suffix of spaces and tabs. */
  function RStrip(s: string): (r: string)
    ensures |r| <= |s| && r == s[..|r|]
    ensures AllBlank(s[|r|..])
    ensures r != [] ==> !IsBlank(r[|r| - 1])
  {
    if s != [] && IsBlank(s[|s| - 1]) then
      var r := RStrip(s[..|s| - 1]);
      assert s[|r|..] == s[..|s| - 1][|r|..] + [s[|s| - 1]];
      r
    else s
  }
}
