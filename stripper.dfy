/** The comment/string stripper: turns a raw line into its code-only view by blanking quoted
    text and cutting the line at an unquoted `--`. */
module Stripper {
  import opened Seqs
  import opened PyStr

  /** The two states of the stripping automaton. */
  datatype State = Normal | InString(quote: char)

  predicate IsQuote(c: char) {
    c == '"' || c == '\''
  }

  predicate NoQuotes(s: string) {
    forall k :: 0 <= k < |s| ==> !IsQuote(s[k])
  }

  /** Two dashes start at position `k` of `s`. */
  predicate DashesAt(s: string, k: int) {
    0 <= k && k + 1 < |s| && s[k] == '-' && s[k + 1] == '-'
  }

  function Spaces(n: nat): (r: string)
    ensures |r| == n && forall k :: 0 <= k < n ==> r[k] == ' '
  {
    seq(n, _ => ' ')
  }

  /** `s[k..]`, or nothing once `k` has gone past the end. */
  function Drop(s: string, k: nat): string {
    if k <= |s| then s[k..] else []
  }

  /** What the automaton emits for the rest `s` of a line, entered in state `st`. */
  function StripFrom(s: string, st: State): string
    decreases |s|
  {
    if s == [] then []
    else if st.Normal? && DashesAt(s, 0) then []
    else if st.Normal? && IsQuote(s[0]) then " " + StripFrom(s[1..], InString(s[0]))
    else if st.InString? then
      if s[0] == '\\' then " " + StripFrom(Drop(s, 2), st)
      else if s[0] == st.quote then " " + StripFrom(s[1..], Normal)
      else " " + StripFrom(s[1..], st)
    else [s[0]] + StripFrom(s[1..], Normal)
  }

  /** The code-only view of a whole line. */
  function Strip(line: string): string {
    StripFrom(line, Normal)
  }

  /** `_strip_comments`: the automaton run over the line with an index, a state and a buffer. */
  method StripComments(line: string) returns (r: string)
    ensures r == Strip(line)
    ensures |r| <= |line| && NoQuotes(r)
  {
    var result: string := [];
    var st := Normal;
    var i := 0;
    while i < |line|
      invariant 0 <= i <= |line| + 1
      invariant result + StripFrom(Drop(line, i), st) == Strip(line)
    {
      var ch := line[i];
      StripFromAt(line, i, st);
      if st.Normal? && ch == '-' && i + 1 < |line| && line[i + 1] == '-' {
        break;
      }
      ghost var out := result;
      if st.Normal? && IsQuote(ch) {
        st := InString(ch);
        result := result + " ";
      } else if st.InString? {
        if ch == '\\' {
          i := i + 1;
        } else if ch == st.quote {
          st := Normal;
        }
        result := result + " ";
      } else {
        result := result + [ch];
      }
      i := i + 1;
      Assoc(out, [result[|result| - 1]], StripFrom(Drop(line, i), st));
      assert out + [result[|result| - 1]] == result;
    }
    r := result;
    StripShorter(line, Normal);
    StripNoQuotes(line, Normal);
  }

  /** One step of the automaton at position `i` of a line, case by case. */
  lemma StripFromAt(line: string, i: nat, st: State)
    requires i < |line|
    ensures st.Normal? && DashesAt(line, i) ==> StripFrom(Drop(line, i), st) == []
    ensures st.Normal? && !DashesAt(line, i) && IsQuote(line[i]) ==>
      StripFrom(Drop(line, i), st) == " " + StripFrom(Drop(line, i + 1), InString(line[i]))
    ensures st.InString? && line[i] == '\\' ==>
      StripFrom(Drop(line, i), st) == " " + StripFrom(Drop(line, i + 2), st)
    ensures st.InString? && line[i] != '\\' && line[i] == st.quote ==>
      StripFrom(Drop(line, i), st) == " " + StripFrom(Drop(line, i + 1), Normal)
    ensures st.InString? && line[i] != '\\' && line[i] != st.quote ==>
      StripFrom(Drop(line, i), st) == " " + StripFrom(Drop(line, i + 1), st)
    ensures st.Normal? && !DashesAt(line, i) && !IsQuote(line[i]) ==>
      StripFrom(Drop(line, i), st) == [line[i]] + StripFrom(Drop(line, i + 1), Normal)
  {
    var rest := Drop(line, i);
    assert rest[0] == line[i] && rest[1..] == Drop(line, i + 1) && Drop(rest, 2) == Drop(line, i + 2);
    assert DashesAt(rest, 0) <==> DashesAt(line, i);
  }

  /** The view is never longer than the line: each character, or escape pair, gives at most one. */
  lemma {:induction false} StripShorter(s: string, st: State)
    ensures |StripFrom(s, st)| <= |s|
    decreases |s|
  {
    if s != [] {
      StripShorter(s[1..], Normal);
      StripShorter(s[1..], st);
      if |s| > 0 {
        StripShorter(s[1..], InString(s[0]));
      }
      StripShorter(Drop(s, 2), st);
    }
  }

  /** No quote character survives: quotes are blanked and everything inside them too. */
  lemma {:induction false} StripNoQuotes(s: string, st: State)
    ensures NoQuotes(StripFrom(s, st))
    decreases |s|
  {
    if s != [] {
      StripNoQuotes(s[1..], Normal);
      StripNoQuotes(s[1..], st);
      StripNoQuotes(s[1..], InString(s[0]));
      StripNoQuotes(Drop(s, 2), st);
    }
  }

  /** `code` is ordinary code at the head of `s`: no quote in it and no `--` starting in it. */
  predicate PlainPrefix(code: string, s: string) {
    |code| <= |s| && code == s[..|code|]
    && forall k :: 0 <= k < |code| ==> !IsQuote(s[k]) && !DashesAt(s, k)
  }

  /** Plain code is copied unchanged. */
  lemma {:induction false} StripPlainPrefix(code: string, rest: string)
    requires PlainPrefix(code, code + rest)
    ensures StripFrom(code + rest, Normal) == code + StripFrom(rest, Normal)
    decreases |code|
  {
    if code != [] {
      var s := code + rest;
      assert !IsQuote(s[0]) && !DashesAt(s, 0);
      assert s[1..] == code[1..] + rest;
      assert PlainPrefix(code[1..], code[1..] + rest) by {
        forall k | 0 <= k < |code| - 1
          ensures !IsQuote(s[1..][k]) && !DashesAt(s[1..], k)
        {
          assert !IsQuote(s[k + 1]) && !DashesAt(s, k + 1);
        }
      }
      StripPlainPrefix(code[1..], rest);
    }
  }

  /** An unquoted `--` after plain code ends the line: the comment and all after it vanish. */
  lemma StripComment(code: string, rest: string)
    requires PlainPrefix(code, code + "--" + rest)
    ensures Strip(code + "--" + rest) == code
  {
    assert code + "--" + rest == code + ("--" + rest);
    StripPlainPrefix(code, "--" + rest);
    assert DashesAt("--" + rest, 0);
  }

  /** The contents of a quoted string made of ordinary characters and backslash pairs,
      with no unescaped closing quote; `open` also allows a final lone backslash. */
  predicate StringBody(body: string, q: char, open: bool)
    decreases |body|
  {
    if body == [] then true
    else if body[0] == '\\' then (|body| == 1 && open) || (|body| >= 2 && StringBody(body[2..], q, open))
    else body[0] != q && StringBody(body[1..], q, open)
  }

  /** The number of units (characters or backslash pairs) in a string body. */
  function BodyWidth(body: string): nat
    decreases |body|
  {
    if body == [] then 0
    else if body[0] == '\\' && |body| >= 2 then 1 + BodyWidth(body[2..])
    else 1 + BodyWidth(body[1..])
  }

  lemma SpacesCons(n: nat)
    ensures " " + Spaces(n) == Spaces(n + 1)
  {
  }

  /** One step of the automaton inside a string opened by `q`. */
  lemma InStringStep(s: string, q: char)
    requires s != []
    ensures s[0] == '\\' ==> StripFrom(s, InString(q)) == " " + StripFrom(Drop(s, 2), InString(q))
    ensures s[0] != '\\' && s[0] == q ==> StripFrom(s, InString(q)) == " " + StripFrom(s[1..], Normal)
    ensures s[0] != '\\' && s[0] != q ==> StripFrom(s, InString(q)) == " " + StripFrom(s[1..], InString(q))
  {
  }

  lemma {:induction false} StripClosedBody(q: char, body: string, rest: string)
    requires IsQuote(q) && StringBody(body, q, false)
    ensures StripFrom(body + [q] + rest, InString(q)) == Spaces(BodyWidth(body) + 1) + StripFrom(rest, Normal)
    decreases |body|
  {
    if body == [] {
      var s := body + [q] + rest;
      InStringStep(s, q);
      assert s[0] == q && s[1..] == rest;
      SpacesCons(0);
    } else {
      var w := if body[0] == '\\' then 2 else 1;
      var inner := body[w..];
      StripClosedUnit(q, body, rest, w);
      StripClosedBody(q, inner, rest);
      SpacesCons(BodyWidth(inner) + 1);
      Assoc(" ", Spaces(BodyWidth(inner) + 1), StripFrom(rest, Normal));
    }
  }

  /** The first unit of a non-empty closed body: one blank, then the rest of the body. */
  lemma StripClosedUnit(q: char, body: string, rest: string, w: nat)
    requires IsQuote(q) && StringBody(body, q, false) && body != []
    requires w == if body[0] == '\\' then 2 else 1
    ensures w <= |body| && StringBody(body[w..], q, false) && BodyWidth(body) == BodyWidth(body[w..]) + 1
    ensures StripFrom(body + [q] + rest, InString(q)) == " " + StripFrom(body[w..] + [q] + rest, InString(q))
  {
    var s := body + [q] + rest;
    InStringStep(s, q);
    assert s[0] == body[0];
    assert Drop(s, w) == body[w..] + [q] + rest;
  }

  /** A closed string literal becomes one space per quote and per unit of its body, and the
      automaton is back in the normal state after it. A `--` or the other quote inside the
      literal is blanked like any other character. */
  lemma StripClosedString(q: char, body: string, rest: string)
    requires IsQuote(q) && StringBody(body, q, false)
    ensures StripFrom([q] + body + [q] + rest, Normal) == Spaces(BodyWidth(body) + 2) + StripFrom(rest, Normal)
  {
    var s := [q] + body + [q] + rest;
    assert s[1..] == body + [q] + rest;
    StripClosedBody(q, body, rest);
    assert " " + Spaces(BodyWidth(body) + 1) == Spaces(BodyWidth(body) + 2);
    Assoc(" ", Spaces(BodyWidth(body) + 1), StripFrom(rest, Normal));
  }

  /** Plain code, then a closed string literal: the code is kept, the literal blanked. */
  lemma StripAroundString(code: string, q: char, body: string, rest: string)
    requires IsQuote(q) && StringBody(body, q, false)
    requires PlainPrefix(code, code + [q] + body + [q] + rest)
    ensures Strip(code + [q] + body + [q] + rest) == code + Spaces(BodyWidth(body) + 2) + Strip(rest)
  {
    var tail := [q] + body + [q] + rest;
    Assoc(code, [q], body);
    Assoc(code, [q] + body, [q]);
    Assoc(code, [q] + body + [q], rest);
    assert code + [q] + body + [q] + rest == code + tail;
    StripPlainPrefix(code, tail);
    StripClosedString(q, body, rest);
    Assoc(code, Spaces(BodyWidth(body) + 2), Strip(rest));
  }

  lemma {:induction false} StripOpenBody(q: char, body: string)
    requires IsQuote(q) && StringBody(body, q, true)
    ensures StripFrom(body, InString(q)) == Spaces(BodyWidth(body))
    decreases |body|
  {
    if body != [] {
      if body[0] == '\\' {
        if |body| >= 2 {
          StripOpenBody(q, body[2..]);
          assert " " + Spaces(BodyWidth(body[2..])) == Spaces(BodyWidth(body));
        }
      } else {
        StripOpenBody(q, body[1..]);
        assert " " + Spaces(BodyWidth(body[1..])) == Spaces(BodyWidth(body));
      }
    }
  }

  /** A string left open at the end of the line blanks the rest of the line. */
  lemma StripOpenString(q: char, body: string)
    requires IsQuote(q) && StringBody(body, q, true)
    ensures StripFrom([q] + body, Normal) == Spaces(BodyWidth(body) + 1)
  {
    assert ([q] + body)[1..] == body;
    StripOpenBody(q, body);
    assert " " + Spaces(BodyWidth(body)) == Spaces(BodyWidth(body) + 1);
  }

  /** The position `Find` reports for `--` is where the automaton, seeing no quotes, stops. */
  lemma QuoteFreeFind(line: string)
    requires NoQuotes(line)
    ensures var k := Find(line, "--"); k == -1 ==> PlainPrefix(line, line)
    ensures var k := Find(line, "--"); k != -1 ==> PlainPrefix(line[..k], line) && DashesAt(line, k)
  {
    var k := Find(line, "--");
    forall j | 0 <= j < |line| && (k == -1 || j < k) ensures !DashesAt(line, j) {
      assert !OccursAt(line, "--", j);
      if j + 2 <= |line| {
        assert line[j..j + 2] == [line[j], line[j + 1]];
      }
    }
    if k != -1 {
      assert line[k..k + 2] == "--";
    }
  }

  /** A line without quotes is cut just before its first `--`, and is otherwise unchanged. */
  lemma StripQuoteFree(line: string)
    requires NoQuotes(line)
    ensures Strip(line) == if Find(line, "--") == -1 then line else line[..Find(line, "--")]
  {
    var k := Find(line, "--");
    QuoteFreeFind(line);
    if k == -1 {
      assert line == line + [];
      StripPlainPrefix(line, []);
    } else {
      var code, rest := line[..k], line[k + 2..];
      assert line == code + "--" + rest;
      StripComment(code, rest);
    }
  }

  /** A line with neither quotes nor `--` is its own code-only view. */
  lemma StripIdentity(line: string)
    requires NoQuotes(line) && Find(line, "--") == -1
    ensures Strip(line) == line
  {
    StripQuoteFree(line);
  }
}
