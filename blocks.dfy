/** The block-balance checker: an explicit stack of (expected closer, opening line) frames
    driven by the keyword tokens of each line, in line order and then token order. */
module Blocks {
  import opened Seqs
  import opened Issues
  import opened PyStr
  import opened Stripper
  import opened Tokenizer

  /** Each opening keyword and the closing keyword it requires. */
  const BlockPairs: map<string, string> :=
    map["function" := "end", "do" := "end", "then" := "end", "repeat" := "until"]

  /** The closing keywords. */
  const BlockEndings: set<string> := {"end", "until"}

  predicate IsKeyword(t: string) {
    t in BlockPairs || t in BlockEndings
  }

  /** An opened block still waiting for its closer. */
  datatype Frame = Frame(expected: string, line: int)

  /** One token as the checker meets it: its line number, the token, and the column at which
      an issue about it is reported. */
  datatype Event = Event(line: int, token: string, column: int)

  /** The issues found so far and the current stack (bottom first). */
  datatype Scan = Scan(issues: seq<Issue>, stack: seq<Frame>)

  /** `_find_column`: the 1-based column of the first occurrence of `token` in the raw line,
      or 1 when it does not occur. */
  function FindColumn(line: string, token: string): (c: int)
    ensures c >= 1
  {
    var idx := Find(line, token);
    if idx >= 0 then idx + 1 else 1
  }

  /** Column `c` is one past the first occurrence of `token` in `line`, or 1 when there is none. */
  ghost predicate FirstColumn(line: string, token: string, c: int) {
    (OccursAt(line, token, c - 1) && forall j :: j < c - 1 ==> !OccursAt(line, token, j))
    || (c == 1 && forall j :: !OccursAt(line, token, j))
  }

  /** The column points at the first occurrence of the token, or is 1 when there is none. */
  lemma FindColumnFirst(line: string, token: string)
    ensures FirstColumn(line, token, FindColumn(line, token))
  {
  }

  /** What one token does to the stack, and the issue it raises, if any. */
  function Step(st: seq<Frame>, e: Event): Scan {
    if e.token in BlockPairs then Scan([], st + [Frame(BlockPairs[e.token], e.line)])
    else if e.token in BlockEndings then
      if st == [] then Scan([Issue(e.line, e.column, Unexpected(e.token), Syntax)], st)
      else
        var top := st[|st| - 1];
        if top.expected != e.token then
          Scan([Issue(e.line, e.column, Expected(top.expected, top.line), Syntax)], st)
        else Scan([], st[..|st| - 1])
    else Scan([], st)
  }

  /** A token raises at most one issue, and one exactly when it is a closer that closes no
      open block: with no block open it is unexpected, otherwise the innermost block's closer
      was expected. An opener pushes its frame, a closer that matches pops it, and any other
      token leaves the stack as it was. */
  lemma StepRule(st: seq<Frame>, e: Event)
    ensures var s := Step(st, e);
      |s.issues| <= 1
      && (s.issues != [] <==> e.token in BlockEndings && (st == [] || st[|st| - 1].expected != e.token))
      && (forall k :: 0 <= k < |s.issues| ==>
            s.issues[k].line == e.line && s.issues[k].column == e.column && s.issues[k].code == Syntax
            && s.issues[k].message
               == if st == [] then Unexpected(e.token) else Expected(st[|st| - 1].expected, st[|st| - 1].line))
      && (e.token in BlockPairs ==> s.stack == st + [Frame(BlockPairs[e.token], e.line)])
      && (e.token !in BlockPairs ==>
            if e.token in BlockEndings && st != [] && st[|st| - 1].expected == e.token
            then s.stack == st[..|st| - 1] else s.stack == st)
  {
    assert "end" !in BlockPairs && "until" !in BlockPairs;
  }

  /** The checker run over a sequence of events from the stack `st`. */
  function Run(st: seq<Frame>, es: seq<Event>): Scan {
    if es == [] then Scan([], st)
    else
      var prev := Run(st, es[..|es| - 1]);
      var step := Step(prev.stack, es[|es| - 1]);
      Scan(prev.issues + step.issues, step.stack)
  }

  /** Each token raises at most one issue and pushes at most one frame. */
  lemma {:induction false} RunBounds(st: seq<Frame>, es: seq<Event>)
    ensures |Run(st, es).issues| <= |es| && |Run(st, es).stack| <= |st| + |es|
  {
    if es != [] {
      var pre := es[..|es| - 1];
      RunBounds(st, pre);
      StepRule(Run(st, pre).stack, es[|es| - 1]);
    }
  }

  /** The events of the tokens of line number `idx`, whose raw text is `raw`. */
  function LineEvents(idx: int, raw: string, tokens: seq<string>): seq<Event> {
    seq(|tokens|, k requires 0 <= k < |tokens| => Event(idx, tokens[k], FindColumn(raw, tokens[k])))
  }

  /** One event per token, in token order, each at line `idx` and at the column of the first
      occurrence of its token in the raw line (1 when it does not occur). */
  lemma LineEventsColumns(idx: int, raw: string, tokens: seq<string>)
    ensures var es := LineEvents(idx, raw, tokens);
      |es| == |tokens|
      && forall k :: 0 <= k < |es| ==>
        es[k].line == idx && es[k].token == tokens[k] && FirstColumn(raw, tokens[k], es[k].column)
  {
    forall k | 0 <= k < |tokens| ensures FirstColumn(raw, tokens[k], FindColumn(raw, tokens[k])) {
      FindColumnFirst(raw, tokens[k]);
    }
  }

  predicate EventsSorted(es: seq<Event>) {
    forall i, j :: 0 <= i < j < |es| ==> es[i].line <= es[j].line
  }

  /** Events at lines `lo` to `hi`, each with a column of 1 or more. */
  predicate EventsWithin(es: seq<Event>, lo: int, hi: int) {
    forall i :: 0 <= i < |es| ==> lo <= es[i].line <= hi && es[i].column >= 1
  }

  /** The tokens of each line, taken from its code-only view. */
  function TokenLines(lines: seq<string>): (toks: seq<seq<string>>)
    ensures |toks| == |lines| && forall k :: 0 <= k < |lines| ==> toks[k] == LineTokens(lines[k])
  {
    seq(|lines|, k requires 0 <= k < |lines| => LineTokens(lines[k]))
  }

  /** The events of the lines, line by line and token by token, numbered from 1, given the
      tokens of each line. */
  function EventsOf(lines: seq<string>, toks: seq<seq<string>>): (es: seq<Event>)
    requires |toks| == |lines|
    ensures EventsSorted(es) && EventsWithin(es, 1, |lines|)
  {
    if lines == [] then []
    else
      var n := |lines|;
      EventsOf(lines[..n - 1], toks[..n - 1]) + LineEvents(n, lines[n - 1], toks[n - 1])
  }

  /** The tokens of all lines, in the order the checker meets them. */
  function Events(lines: seq<string>): (es: seq<Event>)
    ensures EventsSorted(es) && EventsWithin(es, 1, |lines|)
  {
    EventsOf(lines, TokenLines(lines))
  }

  lemma LineEventsSnoc(idx: int, raw: string, tokens: seq<string>, j: nat)
    requires j < |tokens|
    ensures LineEvents(idx, raw, tokens[..j + 1]) == LineEvents(idx, raw, tokens[..j]) + [Event(idx, tokens[j], FindColumn(raw, tokens[j]))]
  {
  }

  lemma TokenLinesSnoc(lines: seq<string>, i: nat)
    requires i < |lines|
    ensures TokenLines(lines[..i + 1]) == TokenLines(lines[..i]) + [LineTokens(lines[i])]
  {
  }

  /** The events of one more line follow those of the lines before it. */
  lemma EventsSnoc(lines: seq<string>, toks: seq<seq<string>>, i: nat, t: seq<string>)
    requires i < |lines| && |toks| == i
    ensures EventsOf(lines[..i + 1], toks + [t]) == EventsOf(lines[..i], toks) + LineEvents(i + 1, lines[i], t)
  {
    assert lines[..i + 1][..i] == lines[..i];
    assert (toks + [t])[..i] == toks;
  }

  /** One SYNTAX issue per frame left on the stack, oldest first, at its opening line. */
  function UnclosedIssues(st: seq<Frame>): seq<Issue> {
    seq(|st|, k requires 0 <= k < |st| => Issue(st[k].line, 1, Unclosed(st[k].expected), Syntax))
  }

  /** `_check_block_balance` as a function of the lines. */
  function BlockBalance(lines: seq<string>): seq<Issue> {
    var r := Run([], Events(lines));
    r.issues + UnclosedIssues(r.stack)
  }

  /** `_check_block_balance`: nested loops over lines and tokens with an explicit stack. */
  method CheckBlockBalance(lines: seq<string>) returns (issues: seq<Issue>)
    ensures issues == BlockBalance(lines)
    ensures AllWellFormed(issues) && AllCoded(issues, Syntax) && LinesWithin(issues, 1, |lines|)
  {
    var stack: seq<Frame> := [];
    issues := [];
    ghost var toks: seq<seq<string>> := [];
    for i := 0 to |lines|
      invariant toks == TokenLines(lines[..i])
      invariant Run([], EventsOf(lines[..i], toks)) == Scan(issues, stack)
    {
      var raw := lines[i];
      var line := StripComments(raw);
      var tokens := Tokenize(line);
      RunNextLine(lines, toks, i, tokens);
      TokenLinesSnoc(lines, i);
      issues, stack := ScanTokens(issues, stack, i + 1, raw, tokens);
      toks := toks + [tokens];
    }
    assert lines[..|lines|] == lines;
    issues := ReportUnclosed(issues, stack);
    BlockBalanceWellFormed(lines);
  }

  /** The final loop of `_check_block_balance`: one issue per frame left, bottom first. */
  method ReportUnclosed(issues0: seq<Issue>, stack: seq<Frame>) returns (issues: seq<Issue>)
    ensures issues == issues0 + UnclosedIssues(stack)
  {
    issues := issues0;
    for k := 0 to |stack|
      invariant issues == issues0 + UnclosedIssues(stack)[..k]
    {
      assert UnclosedIssues(stack)[..k + 1] == UnclosedIssues(stack)[..k] + [UnclosedIssues(stack)[k]];
      issues := issues + [Issue(stack[k].line, 1, Unclosed(stack[k].expected), Syntax)];
    }
    assert UnclosedIssues(stack)[..|stack|] == UnclosedIssues(stack);
  }

  /** The run over one more line continues the run over the lines before it. */
  lemma RunNextLine(lines: seq<string>, toks: seq<seq<string>>, i: nat, tokens: seq<string>)
    requires i < |lines| && |toks| == i
    ensures var r0 := Run([], EventsOf(lines[..i], toks)); var r := Run(r0.stack, LineEvents(i + 1, lines[i], tokens));
      Run([], EventsOf(lines[..i + 1], toks + [tokens])) == Scan(r0.issues + r.issues, r.stack)
  {
    EventsSnoc(lines, toks, i, tokens);
    RunAppend([], EventsOf(lines[..i], toks), LineEvents(i + 1, lines[i], tokens));
  }

  /** The token loop of `_check_block_balance` for line number `idx`: the issues it appends and
      the stack it leaves are those of running the checker over the line's events. */
  method ScanTokens(issues0: seq<Issue>, stack0: seq<Frame>, idx: int, raw: string, tokens: seq<string>)
    returns (issues: seq<Issue>, stack: seq<Frame>)
    ensures var r := Run(stack0, LineEvents(idx, raw, tokens)); issues == issues0 + r.issues && stack == r.stack
  {
    issues, stack := issues0, stack0;
    for j := 0 to |tokens|
      invariant var r := Run(stack0, LineEvents(idx, raw, tokens[..j])); issues == issues0 + r.issues && stack == r.stack
    {
      ghost var evs := LineEvents(idx, raw, tokens[..j]);
      ghost var e := Event(idx, tokens[j], FindColumn(raw, tokens[j]));
      ghost var s := Step(stack, e);
      LineEventsSnoc(idx, raw, tokens, j);
      RunSnoc(stack0, evs, e);
      Assoc(issues0, Run(stack0, evs).issues, s.issues);
      issues, stack := StepToken(issues, stack, idx, raw, tokens[j]);
    }
    assert tokens[..|tokens|] == tokens;
  }

  /** The body of the token loop: one token of line number `idx` pushes, pops or reports. */
  method StepToken(issues0: seq<Issue>, stack0: seq<Frame>, idx: int, raw: string, token: string)
    returns (issues: seq<Issue>, stack: seq<Frame>)
    ensures var s := Step(stack0, Event(idx, token, FindColumn(raw, token)));
      issues == issues0 + s.issues && stack == s.stack
  {
    issues, stack := issues0, stack0;
    if token in BlockPairs {
      stack := stack + [Frame(BlockPairs[token], idx)];
    } else if token in BlockEndings {
      if stack == [] {
        issues := issues + [Issue(idx, FindColumn(raw, token), Unexpected(token), Syntax)];
      } else {
        var top := stack[|stack| - 1];
        if top.expected != token {
          issues := issues + [Issue(idx, FindColumn(raw, token), Expected(top.expected, top.line), Syntax)];
        } else {
          stack := stack[..|stack| - 1];
        }
      }
    }
  }

  /** Running over two event sequences in turn is running over their concatenation. */
  lemma {:induction false} RunAppend(st: seq<Frame>, a: seq<Event>, b: seq<Event>)
    ensures var r1 := Run(st, a); var r2 := Run(r1.stack, b);
      Run(st, a + b) == Scan(r1.issues + r2.issues, r2.stack)
    decreases |b|
  {
    if b == [] {
      assert a + b == a;
    } else {
      var pre, e := b[..|b| - 1], b[|b| - 1];
      assert b == pre + [e];
      Assoc(a, pre, [e]);
      RunAppend(st, a, pre);
      RunSnoc(st, a + pre, e);
      RunSnoc(Run(st, a).stack, pre, e);
      var r1 := Run(st, a);
      var r2 := Run(r1.stack, pre);
      var s := Step(r2.stack, e);
      Assoc(r1.issues, r2.issues, s.issues);
    }
  }

  /** One more event: the step taken from the stack reached so far. */
  lemma RunSnoc(st: seq<Frame>, es: seq<Event>, e: Event)
    ensures var prev := Run(st, es); var s := Step(prev.stack, e);
      Run(st, es + [e]) == Scan(prev.issues + s.issues, s.stack)
  {
    assert (es + [e])[..|es|] == es;
  }

  lemma RunOne(st: seq<Frame>, e: Event)
    ensures Run(st, [e]) == Step(st, e)
  {
    assert [e][..0] == [];
  }

  // ---------------------------------------------------------------------------------------
  // Only keyword tokens matter

  /** The events whose token is a block keyword, in order. */
  function KeywordEvents(es: seq<Event>): (ks: seq<Event>)
    ensures forall k :: 0 <= k < |ks| ==> IsKeyword(ks[k].token)
  {
    if es == [] then []
    else
      var last := es[|es| - 1];
      KeywordEvents(es[..|es| - 1]) + (if IsKeyword(last.token) then [last] else [])
  }

  function TokensOf(es: seq<Event>): seq<string> {
    seq(|es|, k requires 0 <= k < |es| => es[k].token)
  }

  /** Identifiers that are not block keywords leave the checker untouched. */
  lemma {:induction false} RunKeywordsOnly(st: seq<Frame>, es: seq<Event>)
    ensures Run(st, es) == Run(st, KeywordEvents(es))
  {
    if es != [] {
      var pre, last := es[..|es| - 1], es[|es| - 1];
      RunKeywordsOnly(st, pre);
      if IsKeyword(last.token) {
        var ks := KeywordEvents(pre) + [last];
        assert ks[..|ks| - 1] == KeywordEvents(pre);
      } else {
        assert KeywordEvents(es) == KeywordEvents(pre);
      }
    }
  }

  // ---------------------------------------------------------------------------------------
  // Properly nested input is clean

  /** A properly nested arrangement of blocks: a first block with its own nested body,
      followed by the remaining blocks at the same level. */
  datatype Nest = Empty | Block(opener: string, body: Nest, rest: Nest)

  predicate ValidNest(n: Nest) {
    match n
    case Empty => true
    case Block(opener, body, rest) => opener in BlockPairs && ValidNest(body) && ValidNest(rest)
  }

  /** The keyword tokens of a nested arrangement: each opener, its body, its closer. */
  function Emit(n: Nest): seq<string>
    requires ValidNest(n)
  {
    match n
    case Empty => []
    case Block(opener, body, rest) => [opener] + Emit(body) + [BlockPairs[opener]] + Emit(rest)
  }

  lemma TokensOfSlice(ks: seq<Event>, i: int, j: int)
    requires 0 <= i <= j <= |ks|
    ensures TokensOf(ks[i..j]) == TokensOf(ks)[i..j]
  {
  }

  /** An opener, a body that leaves the pushed frame as it found it, and the matching closer:
      nothing is reported and the stack is back where it was. */
  lemma OpenBodyClose(st: seq<Frame>, o: Event, inner: seq<Event>, c: Event)
    requires o.token in BlockPairs && c.token == BlockPairs[o.token]
    requires Run(st + [Frame(BlockPairs[o.token], o.line)], inner) == Scan([], st + [Frame(BlockPairs[o.token], o.line)])
    ensures Run(st, [o] + inner + [c]) == Scan([], st)
  {
    var pushed := st + [Frame(BlockPairs[o.token], o.line)];
    RunOne(st, o);
    RunAppend(st, [o], inner);
    RunSnoc(st, [o] + inner, c);
    assert c.token in BlockEndings;
    assert pushed[..|pushed| - 1] == st;
  }

  lemma {:induction false} NestedRunClean(st: seq<Frame>, ks: seq<Event>, n: Nest)
    requires ValidNest(n) && TokensOf(ks) == Emit(n)
    ensures Run(st, ks) == Scan([], st)
    decreases n
  {
    match n
    case Empty =>
      assert ks == [];
    case Block(opener, body, rest) =>
      var m := |Emit(body)|;
      EmitSplit(ks, n);
      NestedRunClean(st + [Frame(BlockPairs[opener], ks[0].line)], ks[1..m + 1], body);
      NestedRunClean(st, ks[m + 2..], rest);
      BlockThenRest(st, ks, m);
  }

  /** A block that leaves the stack as it found it, then a rest that does too. */
  lemma BlockThenRest(st: seq<Frame>, ks: seq<Event>, m: nat)
    requires m + 2 <= |ks| && ks[0].token in BlockPairs && ks[m + 1].token == BlockPairs[ks[0].token]
    requires var pushed := st + [Frame(BlockPairs[ks[0].token], ks[0].line)];
      Run(pushed, ks[1..m + 1]) == Scan([], pushed)
    requires Run(st, ks[m + 2..]) == Scan([], st)
    ensures Run(st, ks) == Scan([], st)
  {
    var inner, after := ks[1..m + 1], ks[m + 2..];
    OpenBodyClose(st, ks[0], inner, ks[m + 1]);
    Bracket(ks, m);
    RunAppend(st, [ks[0]] + inner + [ks[m + 1]], after);
  }

  /** The events of a block: its opener, the events of its body, its closer, the rest. */
  lemma EmitSplit(ks: seq<Event>, n: Nest)
    requires n.Block? && ValidNest(n) && TokensOf(ks) == Emit(n)
    ensures var m := |Emit(n.body)|;
      m + 2 <= |ks| && ks[0].token == n.opener && ks[m + 1].token == BlockPairs[n.opener]
      && TokensOf(ks[1..m + 1]) == Emit(n.body) && TokensOf(ks[m + 2..]) == Emit(n.rest)
  {
    EmitUnfold(n);
    SplitTokens(ks, n.opener, Emit(n.body), BlockPairs[n.opener], Emit(n.rest));
  }

  lemma EmitUnfold(n: Nest)
    requires n.Block? && ValidNest(n)
    ensures Emit(n) == [n.opener] + Emit(n.body) + [BlockPairs[n.opener]] + Emit(n.rest)
  {
  }

  lemma SplitTokens(ks: seq<Event>, x: string, b: seq<string>, y: string, c: seq<string>)
    requires TokensOf(ks) == [x] + b + [y] + c
    ensures |b| + 2 <= |ks| && ks[0].token == x && ks[|b| + 1].token == y
    ensures TokensOf(ks[1..|b| + 1]) == b && TokensOf(ks[|b| + 2..]) == c
  {
    var e := [x] + b + [y] + c;
    assert e[0] == x && e[|b| + 1] == y && e[1..|b| + 1] == b && e[|b| + 2..] == c;
    TokensOfSlice(ks, 1, |b| + 1);
    TokensOfSlice(ks, |b| + 2, |ks|);
  }

  /** Whatever identifiers surround them, keywords that nest properly, to any depth, raise
      no issue and leave the stack as it was. */
  lemma NestedClean(st: seq<Frame>, es: seq<Event>, n: Nest)
    requires ValidNest(n) && TokensOf(KeywordEvents(es)) == Emit(n)
    ensures Run(st, es) == Scan([], st)
  {
    RunKeywordsOnly(st, es);
    NestedRunClean(st, KeywordEvents(es), n);
  }

  /** A source whose keywords nest properly has no block issue and ends with an empty stack. */
  lemma BalancedSourceClean(lines: seq<string>, n: Nest)
    requires ValidNest(n) && TokensOf(KeywordEvents(Events(lines))) == Emit(n)
    ensures Run([], Events(lines)).stack == []
    ensures BlockBalance(lines) == []
  {
    NestedClean([], Events(lines), n);
  }

  // ---------------------------------------------------------------------------------------
  // Stray and missing closers

  /** With a single keyword among the events, the run is that keyword's step. */
  lemma SingleKeyword(st: seq<Frame>, es: seq<Event>)
    requires |KeywordEvents(es)| == 1
    ensures Run(st, es) == Step(st, KeywordEvents(es)[0])
  {
    var ks := KeywordEvents(es);
    RunKeywordsOnly(st, es);
    assert ks == [ks[0]];
    RunOne(st, ks[0]);
  }

  /** A closer met with an empty stack, after any events: one issue, unexpected, at its own
      line and column; the stack stays empty. */
  lemma UnexpectedWhenEmpty(st: seq<Frame>, es: seq<Event>, e: Event)
    requires Run(st, es).stack == [] && e.token in BlockEndings
    ensures Run(st, es + [e])
      == Scan(Run(st, es).issues + [Issue(e.line, e.column, Unexpected(e.token), Syntax)], [])
  {
    RunSnoc(st, es, e);
    assert e.token !in BlockPairs;
  }

  /** `elseif ... then` opens a second block: with keywords `then`, `then`, `end`, the first
      `then` is never closed and nothing is reported before the end of input. */
  lemma ElseifLeavesFrame(st: seq<Frame>, es: seq<Event>)
    requires TokensOf(KeywordEvents(es)) == ["then", "then", "end"]
    ensures var ks := KeywordEvents(es);
      |ks| == 3 && Run(st, es) == Scan([], st + [Frame("end", ks[0].line)])
  {
    var ks := KeywordEvents(es);
    assert |ks| == |TokensOf(ks)|;
    assert ks[0].token == TokensOf(ks)[0] && ks[1].token == TokensOf(ks)[1] && ks[2].token == TokensOf(ks)[2];
    RunKeywordsOnly(st, es);
    ThenThenEnd(st, ks);
  }

  lemma ThenThenEnd(st: seq<Frame>, ks: seq<Event>)
    requires |ks| == 3 && ks[0].token == "then" && ks[1].token == "then" && ks[2].token == "end"
    ensures Run(st, ks) == Scan([], st + [Frame("end", ks[0].line)])
  {
    var f0 := Frame("end", ks[0].line);
    RunOne(st, ks[0]);
    RunSnoc(st, [ks[0]], ks[1]);
    RunSnoc(st, [ks[0], ks[1]], ks[2]);
    assert [ks[0]] + [ks[1]] == [ks[0], ks[1]];
    assert [ks[0], ks[1]] + [ks[2]] == ks;
    var two := st + [f0] + [Frame("end", ks[1].line)];
    assert two[..|two| - 1] == st + [f0];
  }

  /** A closer with nothing open is reported once, as unexpected, at its own line and the
      column of its first occurrence in the raw line; nothing remains open. */
  lemma LoneCloser(lines: seq<string>)
    requires |KeywordEvents(Events(lines))| == 1
    requires KeywordEvents(Events(lines))[0].token in BlockEndings
    ensures var e := KeywordEvents(Events(lines))[0];
      BlockBalance(lines) == [Issue(e.line, e.column, Unexpected(e.token), Syntax)]
  {
    var e := KeywordEvents(Events(lines))[0];
    SingleKeyword([], Events(lines));
    assert e.token !in BlockPairs;
  }

  /** An opener that is never closed is reported once, at its opening line and column 1. */
  lemma LoneOpener(lines: seq<string>)
    requires |KeywordEvents(Events(lines))| == 1
    requires KeywordEvents(Events(lines))[0].token in BlockPairs
    ensures var e := KeywordEvents(Events(lines))[0];
      BlockBalance(lines) == [Issue(e.line, 1, Unclosed(BlockPairs[e.token]), Syntax)]
  {
    SingleKeyword([], Events(lines));
  }

  /** A closer that does not match the innermost open block is reported against that block,
      which stays open: a later matching closer still closes it, and nothing else is reported. */
  lemma MismatchKeepsFrame(st: seq<Frame>, stray: seq<Event>, closing: seq<Event>)
    requires st != []
    requires |KeywordEvents(stray)| == 1 && KeywordEvents(stray)[0].token in BlockEndings
    requires KeywordEvents(stray)[0].token != st[|st| - 1].expected
    requires |KeywordEvents(closing)| == 1 && KeywordEvents(closing)[0].token == st[|st| - 1].expected
    requires st[|st| - 1].expected in BlockEndings
    ensures var e, top := KeywordEvents(stray)[0], st[|st| - 1];
      Run(st, stray + closing)
      == Scan([Issue(e.line, e.column, Expected(top.expected, top.line), Syntax)], st[..|st| - 1])
  {
    var e, c := KeywordEvents(stray)[0], KeywordEvents(closing)[0];
    SingleKeyword(st, stray);
    assert e.token !in BlockPairs;
    assert Run(st, stray).stack == st;
    SingleKeyword(st, closing);
    assert c.token !in BlockPairs;
    RunAppend(st, stray, closing);
  }

  // ---------------------------------------------------------------------------------------
  // Order of the frames and well-formedness

  predicate FramesSorted(st: seq<Frame>) {
    forall i, j :: 0 <= i < j < |st| ==> st[i].line <= st[j].line
  }

  predicate FramesWithin(st: seq<Frame>, lo: int, hi: int) {
    forall i :: 0 <= i < |st| ==> lo <= st[i].line <= hi
  }

  /** Every open frame waits for one of the closing keywords. */
  predicate FramesExpectClosers(st: seq<Frame>) {
    forall i :: 0 <= i < |st| ==> st[i].expected in BlockEndings
  }

  /** The three messages of the block checker. */
  predicate BlockMessage(m: Message) {
    m.Unexpected? || m.Expected? || m.Unclosed?
  }

  predicate AllBlockMessages(r: seq<Issue>) {
    forall k :: 0 <= k < |r| ==> BlockMessage(r[k].message)
  }

  /** Well-formed SYNTAX issues of the block checker at lines `lo` to `hi`. */
  predicate SyntaxWithin(r: seq<Issue>, lo: int, hi: int) {
    AllWellFormed(r) && AllCoded(r, Syntax) && LinesWithin(r, lo, hi) && AllBlockMessages(r)
  }

  lemma SyntaxWithinAppend(a: seq<Issue>, b: seq<Issue>, lo: int, hi: int)
    requires SyntaxWithin(a, lo, hi) && SyntaxWithin(b, lo, hi)
    ensures SyntaxWithin(a + b, lo, hi)
  {
    forall k | 0 <= k < |a + b|
      ensures WellFormed((a + b)[k]) && (a + b)[k].code == Syntax && lo <= (a + b)[k].line <= hi
        && BlockMessage((a + b)[k].message)
    {
      if k < |a| {
        assert (a + b)[k] == a[k];
      } else {
        assert (a + b)[k] == b[k - |a|];
      }
    }
  }

  /** One token keeps the stack sorted and within the lines seen, and raises issues only at
      its own line. */
  lemma StepInvariant(st: seq<Frame>, e: Event, h: int)
    requires 1 <= h <= e.line && e.column >= 1 && FramesSorted(st) && FramesWithin(st, 1, h)
    requires FramesExpectClosers(st)
    ensures var s := Step(st, e);
      FramesSorted(s.stack) && FramesWithin(s.stack, 1, e.line) && FramesExpectClosers(s.stack)
      && SyntaxWithin(s.issues, e.line, e.line)
  {
  }

  /** Frames are pushed in line order and popped from the top, so the stack stays sorted by
      opening line, and every frame was opened at a line already seen. Issues are raised at
      event lines, at column 1 or later. */
  lemma {:induction false} RunInvariant(st: seq<Frame>, es: seq<Event>, h: int)
    requires 1 <= h && FramesSorted(st) && FramesWithin(st, 1, h) && FramesExpectClosers(st)
    requires EventsSorted(es) && EventsWithin(es, h, if es == [] then h else es[|es| - 1].line)
    ensures var r := Run(st, es); var last := if es == [] then h else es[|es| - 1].line;
      FramesSorted(r.stack) && FramesWithin(r.stack, 1, last) && FramesExpectClosers(r.stack)
      && SyntaxWithin(r.issues, h, last)
  {
    if es != [] {
      var pre, e := es[..|es| - 1], es[|es| - 1];
      var prevLast := if pre == [] then h else pre[|pre| - 1].line;
      assert h <= prevLast <= e.line;
      assert EventsSorted(pre) && EventsWithin(pre, h, prevLast);
      RunInvariant(st, pre, h);
      var prev := Run(st, pre);
      StepInvariant(prev.stack, e, prevLast);
      var s := Step(prev.stack, e);
      RunSnoc(st, pre, e);
      assert pre + [e] == es;
      assert SyntaxWithin(prev.issues, h, e.line) && SyntaxWithin(s.issues, h, e.line);
      SyntaxWithinAppend(prev.issues, s.issues, h, e.line);
    }
  }

  /** Every block issue is well-formed and lies within the source; frames left open are
      listed oldest first, so their lines never decrease. */
  lemma BlockBalanceWellFormed(lines: seq<string>)
    ensures var r := BlockBalance(lines);
      AllWellFormed(r) && AllCoded(r, Syntax) && LinesWithin(r, 1, |lines|) && AllBlockMessages(r)
    ensures var st := Run([], Events(lines)).stack;
      FramesSorted(st) && FramesWithin(st, 1, |lines|) && FramesExpectClosers(st)
  {
    var es := Events(lines);
    ScanWellFormed(es, |lines|);
  }

  lemma ScanWellFormed(es: seq<Event>, n: int)
    requires EventsSorted(es) && EventsWithin(es, 1, n)
    ensures var r := Run([], es);
      SyntaxWithin(r.issues + UnclosedIssues(r.stack), 1, n) && FramesSorted(r.stack) && FramesWithin(r.stack, 1, n)
      && FramesExpectClosers(r.stack)
  {
    var last := if es == [] then 1 else es[|es| - 1].line;
    assert EventsWithin(es, 1, last);
    RunInvariant([], es, 1);
    var r := Run([], es);
    var u := UnclosedIssues(r.stack);
    assert 1 <= n || (es == [] && r.stack == [] && r.issues == []);
    assert SyntaxWithin(r.issues, 1, n) && SyntaxWithin(u, 1, n);
    SyntaxWithinAppend(r.issues, u, 1, n);
  }

  /** The unclosed-block issues come out in non-decreasing order of opening line. */
  lemma UnclosedOrdered(lines: seq<string>)
    ensures var u := UnclosedIssues(Run([], Events(lines)).stack);
      forall i, j :: 0 <= i < j < |u| ==> u[i].line <= u[j].line
  {
    BlockBalanceWellFormed(lines);
  }
}
