/** The record every check of the analyzer produces: a position, a message and a category. */
module Issues {
  import opened Seqs

  /** The category tag of an issue. `Generic` is the record's default tag; no check uses it. */
  datatype Code = Format | Indent | Syntax | Generic {
    function Name(): string {
      match this
      case Format => "FORMAT"
      case Indent => "INDENT"
      case Syntax => "SYNTAX"
      case Generic => "GENERIC"
    }
  }

  /** The messages the checks emit, with the values they interpolate. */
  datatype Message =
    | MissingFinalNewline
    | MixedIndentation
    | TabIndentation
    | IndentWidth(size: int)
    | TrailingWhitespace
    | Unexpected(token: string)
    | Expected(expected: string, openedAt: int)
    | Unclosed(expected: string)
  {
    /** The human-readable message text, as the analyzer formats it. */
    function Text(): string {
      match this
      case MissingFinalNewline => "Missing final newline"
      case MixedIndentation => "Mixed tabs and spaces in indentation"
      case TabIndentation => "Tab indentation found (expected spaces)"
      case IndentWidth(size) => "Indentation width should be a multiple of " + IntText(size)
      case TrailingWhitespace => "Trailing whitespace"
      case Unexpected(token) => "Unexpected '" + token + "'"
      case Expected(expected, openedAt) => "Expected '" + expected + "' opened at line " + IntText(openedAt)
      case Unclosed(expected) => "Unclosed block expecting '" + expected + "'"
    }
  }

  datatype Issue = Issue(line: int, column: int, message: Message, code: Code)

  /** The invariant every reported issue satisfies: 1-based position and one of the three used tags. */
  predicate WellFormed(i: Issue) {
    i.line >= 1 && i.column >= 1 && i.code in {Format, Indent, Syntax}
  }

  predicate AllWellFormed(s: seq<Issue>) {
    forall k :: 0 <= k < |s| ==> WellFormed(s[k])
  }

  predicate IsDigit(c: char) {
    '0' <= c <= '9'
  }

  function DigitChar(d: nat): (c: char)
    requires d < 10
    ensures IsDigit(c) && c as int - '0' as int == d
  {
    ['0', '1', '2', '3', '4', '5', '6', '7', '8', '9'][d]
  }

  /** Decimal notation of a natural number, without leading zeros. */
  function NatText(n: nat): (s: string)
    ensures |s| >= 1 && forall k :: 0 <= k < |s| ==> IsDigit(s[k])
    ensures s[0] == '0' ==> n == 0
  {
    if n < 10 then [DigitChar(n)] else NatText(n / 10) + [DigitChar(n % 10)]
  }

  /** Decimal notation of an integer, as an f-string interpolates it. */
  function IntText(n: int): string {
    if n < 0 then "-" + NatText(-n) else NatText(n)
  }

  /** The value of a string of decimal digits. */
  function DigitsValue(s: string): nat
    requires forall k :: 0 <= k < |s| ==> IsDigit(s[k])
  {
    if s == [] then 0
    else
      assert IsDigit(s[|s| - 1]);
      DigitsValue(s[..|s| - 1]) * 10 + (s[|s| - 1] as int - '0' as int)
  }

  /** Reading the decimal text back gives the number: the rendering loses nothing. */
  lemma {:induction false} NatTextRoundTrip(n: nat)
    ensures DigitsValue(NatText(n)) == n
  {
    if n >= 10 {
      NatTextRoundTrip(n / 10);
      var s := NatText(n);
      assert s[..|s| - 1] == NatText(n / 10);
    }
  }

  /** The text starts with a minus sign exactly for negative numbers. */
  lemma IntTextSign(n: int)
    ensures |IntText(n)| >= 1 && (IntText(n)[0] == '-' <==> n < 0)
  {
    if n >= 0 {
      assert IsDigit(NatText(n)[0]);
    }
  }

  /** Distinct line numbers or widths give distinct message texts. */
  lemma IntTextInjective(a: int, b: int)
    requires IntText(a) == IntText(b)
    ensures a == b
  {
    IntTextSign(a);
    IntTextSign(b);
    if a < 0 && b < 0 {
      NegativeText(a);
      NegativeText(b);
      NatTextInjective(-a, -b);
    } else if a >= 0 && b >= 0 {
      NatTextInjective(a, b);
    }
  }

  lemma NatTextInjective(a: nat, b: nat)
    requires NatText(a) == NatText(b)
    ensures a == b
  {
    NatTextRoundTrip(a);
    NatTextRoundTrip(b);
  }

  /** After the minus sign comes the text of the magnitude. */
  lemma NegativeText(n: int)
    requires n < 0
    ensures IntText(n)[1..] == NatText(-n)
  {
    assert ("-" + NatText(-n))[1..] == NatText(-n);
  }

  /** The issues of `r` reported at line `line`, in order. */
  function IssuesAt(r: seq<Issue>, line: int): seq<Issue> {
    if r == [] then []
    else (if r[0].line == line then [r[0]] else []) + IssuesAt(r[1..], line)
  }

  lemma {:induction false} IssuesAtAppend(a: seq<Issue>, b: seq<Issue>, line: int)
    ensures IssuesAt(a + b, line) == IssuesAt(a, line) + IssuesAt(b, line)
  {
    if a == [] {
      assert a + b == b;
    } else {
      assert (a + b)[0] == a[0] && (a + b)[1..] == a[1..] + b;
      IssuesAtAppend(a[1..], b, line);
      Assoc(if a[0].line == line then [a[0]] else [], IssuesAt(a[1..], line), IssuesAt(b, line));
    }
  }

  lemma {:induction false} IssuesAtNone(r: seq<Issue>, line: int)
    requires forall i :: 0 <= i < |r| ==> r[i].line != line
    ensures IssuesAt(r, line) == []
  {
    if r != [] {
      IssuesAtNone(r[1..], line);
    }
  }

  lemma {:induction false} IssuesAtAll(r: seq<Issue>, line: int)
    requires forall i :: 0 <= i < |r| ==> r[i].line == line
    ensures IssuesAt(r, line) == r
  {
    if r != [] {
      IssuesAtAll(r[1..], line);
    }
  }

  /** Each issue is reported at a strictly later line than the one before it. */
  predicate LinesIncreasing(r: seq<Issue>) {
    forall i, j :: 0 <= i < j < |r| ==> r[i].line < r[j].line
  }

  predicate LinesWithin(r: seq<Issue>, lo: int, hi: int) {
    forall i :: 0 <= i < |r| ==> lo <= r[i].line <= hi
  }

  predicate AllCoded(r: seq<Issue>, code: Code) {
    forall i :: 0 <= i < |r| ==> r[i].code == code
  }

  /** Appending the issues of line `n` to those of earlier lines: a lookup by line number
      finds the new ones at `n` and the old ones elsewhere. */
  lemma IssuesAtNextLine(before: seq<Issue>, last: seq<Issue>, n: int, line: int)
    requires LinesWithin(before, 1, n - 1)
    requires forall i :: 0 <= i < |last| ==> last[i].line == n
    requires 1 <= line <= n
    ensures IssuesAt(before + last, line) == if line == n then last else IssuesAt(before, line)
  {
    IssuesAtAppend(before, last, line);
    if line == n {
      IssuesAtNone(before, line);
      IssuesAtAll(last, line);
    } else {
      IssuesAtNone(last, line);
    }
  }

  /** The per-line lookup after appending line `n`'s issues, in the form the per-line checks
      use: what was found at an earlier line is still found there, line `n` finds `last`. */
  lemma IssuesAtSnoc(whole: seq<Issue>, before: seq<Issue>, last: seq<Issue>, n: int, line: int, verdict: seq<Issue>)
    requires whole == before + last && LinesWithin(before, 1, n - 1)
    requires forall i :: 0 <= i < |last| ==> last[i].line == n
    requires 1 <= line <= n
    requires line == n ==> verdict == last
    requires line < n ==> IssuesAt(before, line) == verdict
    ensures IssuesAt(whole, line) == verdict
  {
    IssuesAtNextLine(before, last, n, line);
  }

}
