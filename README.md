# SenseiLua analyzer, modelled in Dafny

This project models the analysis engine of SenseiLua (`sensei_lua/analyzer.py`) and proves
properties of the model. The engine is a heuristic checker for Lua source text. It takes a
source string, a `prefer_spaces` flag and an `indent_size`, and returns an ordered list of
issues. Each issue has a line, a column, a message and a tag: `FORMAT`, `INDENT` or `SYNTAX`.
Four checks run over the lines of the source, in a fixed order:

- the **final-newline** check: a non-empty source that does not end in `'\n'`;
- the **indentation** classifier: each line's leading spaces and tabs are mixed, tab-only or
  space-only, judged against `prefer_spaces` and `indent_size`;
- the **trailing-whitespace** check: a line that ends in a space or a tab;
- the **block-balance** checker. Each line is first reduced to its code-only view: quoted text
  is blanked and the line is cut at an unquoted `--`. The view is split into words. An explicit
  stack of (expected closer, opening line) frames is driven by the keyword table
  `function`/`do`/`then` → `end` and `repeat` → `until`.

Modules, one per part of `analyzer.py`:

| file | module | models |
|---|---|---|
| `seqs.dfy` | `Seqs` | small sequence facts the proofs cite |
| `issues.dfy` | `Issues` | the `Issue` record, its tags and message texts, look-up of issues by line |
| `pystr.dfy` | `PyStr` | the `str` methods used: `splitlines`, `find`, `lstrip(" \t")`, `rstrip(" \t")` |
| `stripper.dfy` | `Stripper` | `_strip_comments`, a two-state automaton |
| `tokenizer.dfy` | `Tokenizer` | `_tokenize` |
| `indentation.dfy` | `Indentation` | `_check_indentation` |
| `whitespace.dfy` | `Whitespace` | `_check_trailing_whitespace` and the final-newline rule |
| `blocks.dfy` | `Blocks` | `_find_column`, the block tables, `_check_block_balance` |
| `analyzer.dfy` | `Analyzer` | `analyze_source` |

The loops of the source are methods proved against specification functions:

- `StripComments` is proved against `Strip`.
- `Tokenize` is proved against `Words`.
- `CheckBlockBalance` is proved against `BlockBalance`, a left-to-right run of `Step` over the
  token events.
- `AnalyzeSource` is proved against `Analysis`.

The per-line generators `_check_indentation` and `_check_trailing_whitespace` only filter and
emit, so they are functions over the lines.

The specification functions are plain definitions. Lemmas beside them say what they mean:

- `TabIssue`, `WidthIssue` and `LineIndentIssues` are described by `TabIssueRule`,
  `WidthIssueRule`, `LineIndentRules` and `LineIndentAtMostOne`.
- `LineTrailingIssues` and `FinalNewlineIssues` are described by `TrailingRule` and
  `FinalNewlineRule`.
- `LineEvents`, `Step`, `Run` and `BlockBalance` are described by `LineEventsColumns`,
  `StepRule`, `RunBounds`, `RunAppend` and `BlockBalanceWellFormed`.
- `StripFrom` and `Strip` are described by `StripFromAt`, `StripShorter`, `StripNoQuotes` and
  the string and comment lemmas.
- `WordsFrom` and `Words` are described by `WordsFromStep`, `WordsAreWords` and
  `WordsConcat`.
- `Analysis` is described by `AnalysisOrdered`, `AnalysisWellFormed` and `AnalysisByCode`.

Messages are values of a `Message` datatype that records what each f-string interpolates.
`Message.Text` renders the exact text. `IntTextInjective` shows that the rendering of the
interpolated numbers loses nothing.

Behaviour kept as written:

- `elseif … then` pushes a second frame, because `then` is an opener.
- An empty source gets no final-newline issue.
- A backslash inside a string swallows the next character, so an escape pair gives one space
  and the code-only view can be shorter than the line.
- `_find_column` reports the first occurrence of the token anywhere in the raw line. That can
  be inside a longer word, a string or a comment (`FindColumn`, `FindColumnFirst`).
- `str.splitlines` is modelled with Python's full set of line boundaries, including `"\r\n"`
  as one boundary. No restriction is put on the source. The round-trip lemma is stated for
  sources whose only boundary is `'\n'`.

## Model

| member | source | states |
|---|---|---|
| Issues.IntTextInjective | sensei_lua/analyzer.py:94-95 | two numbers with the same decimal text (as an f-string writes an indentation width or an opening line) are equal |
| Issues.NatTextRoundTrip | sensei_lua/analyzer.py:116-118 | reading the decimal text of a line number back gives the number |
| Issues.IntTextSign | sensei_lua/analyzer.py:94-95 | the decimal text starts with '-' exactly for negative numbers |
| Issues.IssuesAtAppend | sensei_lua/analyzer.py:55-57 | looking up the issues of one line in a concatenation looks it up in each part, in order |
| PyStr.SplitLines | sensei_lua/analyzer.py:51 | `splitlines` gives no lines exactly for the empty source, and no line contains a line boundary |
| PyStr.SplitLinesRoundTrip | sensei_lua/analyzer.py:51 | for a source whose only boundary is '\n', joining the lines with '\n' and adding '\n' back exactly when the source ended in one gives the source |
| PyStr.Find | sensei_lua/analyzer.py:163 | `find` gives -1 exactly when the text does not occur, and otherwise the first position where it occurs |
| PyStr.LStrip | sensei_lua/analyzer.py:81 | `lstrip(" \t")` removes a prefix made only of spaces and tabs, and what remains does not start with one |
| PyStr.LeadingBlanks | sensei_lua/analyzer.py:81-82 | counts the spaces and tabs a line starts with: every character before the count is blank, and the one at the count is not |
| PyStr.LStripLeadingBlanks | sensei_lua/analyzer.py:81 | `lstrip(" \t")` removes exactly the leading spaces and tabs, and nothing after them |
| PyStr.RStrip | sensei_lua/analyzer.py:100 | `rstrip(" \t")` removes a suffix made only of spaces and tabs, and what remains does not end with one |
| Stripper.StripComments | sensei_lua/analyzer.py:125-146 | the index/state/buffer loop returns the automaton's view of the line; the view is no longer than the line and has no quote character |
| Stripper.StripFromAt | sensei_lua/analyzer.py:130-145 | the defining step of `StripFrom`, unfolded once, that the loop's invariant follows; at each position: cut at `--` outside strings, a space for an opening quote, a space for an escape pair (skipping two), a space for the closing quote, a space for any other character in a string, the character itself outside strings |
| Stripper.StripShorter | sensei_lua/analyzer.py:125-146 | the automaton `StripFrom`, entered in any state, and so `Strip` from the outside state, never emits more characters than it reads |
| Stripper.StripNoQuotes | sensei_lua/analyzer.py:134-142 | no `'` or `"` survives in what `StripFrom` emits, from any state |
| Stripper.StripPlainPrefix | sensei_lua/analyzer.py:143-144 | characters before any quote or `--` are copied unchanged |
| Stripper.StripComment | sensei_lua/analyzer.py:132-133 | an unquoted `--` after plain code ends the line: only the code before it stays |
| Stripper.StripClosedString | sensei_lua/analyzer.py:134-142 | a closed string literal becomes one space per quote and per character or escape pair, and the automaton is back outside strings after it, so a `--` or a keyword inside it is blanked |
| Stripper.StripAroundString | sensei_lua/analyzer.py:134-144 | plain code followed by a closed literal: the code is kept, the literal blanked, and the rest of the line stripped on its own |
| Stripper.StripOpenString | sensei_lua/analyzer.py:134-142 | a string left open blanks the rest of the line |
| Stripper.StripQuoteFree | sensei_lua/analyzer.py:125-146 | a line without quotes is cut just before its first `--` and is otherwise unchanged |
| Stripper.StripIdentity | sensei_lua/analyzer.py:125-146 | a line with neither quotes nor `--` is returned unchanged |
| Tokenizer.Tokenize | sensei_lua/analyzer.py:149-159 | the buffer loop yields the words of the line; each word is non-empty and made of letters and underscores; their concatenation is exactly the line's letters and underscores in order |
| Tokenizer.WordsFromStep | sensei_lua/analyzer.py:152-157 | the defining step of `WordsFrom`, unfolded once, that the loop's invariant follows; for one character: a letter or underscore extends the word being built; any other character ends it, giving it as a word when it is non-empty |
| Tokenizer.WordsAreWords | sensei_lua/analyzer.py:149-159 | every word `WordsFrom` gives, and so every word of `Words`, is non-empty and made of letters and underscores |
| Tokenizer.WordsConcat | sensei_lua/analyzer.py:149-159 | the words `WordsFrom` gives, concatenated, are the word already started followed by the letters and underscores of the rest of the line, in order |
| Tokenizer.WordsEmptyIff | sensei_lua/analyzer.py:149-159 | a line yields no word exactly when it has no letter or underscore |
| Tokenizer.WordsSeparated | sensei_lua/analyzer.py:154-157 | a non-word character splits the word list in two: no word spans it |
| Tokenizer.WordsOfRun | sensei_lua/analyzer.py:152-159 | a run of word characters with nothing around it is one word |
| Tokenizer.WordsSkip | sensei_lua/analyzer.py:154-155 | separators in front of a line add no word |
| Tokenizer.StringHidesWords | sensei_lua/analyzer.py:107-108 | words inside a closed string literal never become tokens; tokens resume after it |
| Tokenizer.OpenStringHidesWords | sensei_lua/analyzer.py:107-108 | a string left open hides every word after its opening quote |
| Tokenizer.CommentHidesWords | sensei_lua/analyzer.py:107-108 | words after an unquoted `--` never become tokens |
| Indentation.RemoveChar | sensei_lua/analyzer.py:91 | `replace(c, "")` removes every `c`, and leaves the text unchanged exactly when it has no `c` |
| Indentation.OnlySpacesIsCharSet | sensei_lua/analyzer.py:94 | `set(indent) == {" "}` holds exactly when the indent is non-empty and all spaces |
| Indentation.IndentOf | sensei_lua/analyzer.py:81-82 | the indent is the longest all-blank prefix of the line |
| Indentation.IndentOfStrip | sensei_lua/analyzer.py:81-82 | the indent is `line[: len(line) - len(stripped)]` for `stripped = line.lstrip(" \t")`, and `stripped` is the rest of the line after the indent |
| Indentation.BlankIffStripped | sensei_lua/analyzer.py:83-84 | `stripped` is empty, so the line is skipped, exactly when the line is all spaces and tabs |
| Indentation.TabIssueRule | sensei_lua/analyzer.py:88-90 | `TabIssue` gives at most one issue, and one exactly when spaces are preferred and the indent has a tab; it is the tab-indentation INDENT issue at the column of the first tab |
| Indentation.WidthIssueRule | sensei_lua/analyzer.py:91-95 | `WidthIssue` gives the width issue, at column `len(indent)` and naming the size, exactly when the indent is non-empty, all spaces, and not a multiple of the size |
| Indentation.LineIndentRules | sensei_lua/analyzer.py:79-95 | `LineIndentIssues`, the verdict on one line: blank lines pass; a mixed indent yields only the mixed issue at column 1; a tab-only indent yields the tab issue at column 1 exactly when spaces are preferred; a space-only indent yields the width issue at column `len(indent)` exactly when its length is not a multiple of the size |
| Indentation.MixedRule | sensei_lua/analyzer.py:85-87 | a mixed indent yields exactly the mixed issue at column 1 |
| Indentation.TabRule | sensei_lua/analyzer.py:88-93 | a tab-only indent yields the tab issue at column 1 when spaces are preferred, and nothing otherwise |
| Indentation.SpaceRule | sensei_lua/analyzer.py:94-95 | a space-only indent yields the width issue at column `len(indent)` exactly when its length is not a multiple of the size |
| Indentation.LineIndentAtMostOne | sensei_lua/analyzer.py:79-95 | `LineIndentIssues` gives at most one INDENT issue per line, at that line and column 1 or later |
| Indentation.IndentationIssues | sensei_lua/analyzer.py:79-95 | the indentation issues are well-formed INDENT issues within the lines, in strictly increasing line order |
| Indentation.IndentationIssuesAt | sensei_lua/analyzer.py:79-95 | the issues reported at line `k + 1` are exactly the classifier's verdict on that line |
| Indentation.TabsAllowed | sensei_lua/analyzer.py:88 | with tabs allowed, no tab-indentation issue is ever reported |
| Indentation.IndentationMessages | sensei_lua/analyzer.py:86-95 | the indentation check reports only its three messages |
| Whitespace.TrailingRule | sensei_lua/analyzer.py:100-101 | `LineTrailingIssues`: a line is reported exactly when it ends in a space or a tab, once, at column `len(line)` |
| Whitespace.TrailingIdempotent | sensei_lua/analyzer.py:100 | a right-stripped line is never reported |
| Whitespace.TrailingIssues | sensei_lua/analyzer.py:98-101 | the trailing-whitespace issues are well-formed FORMAT issues within the lines, in strictly increasing line order |
| Whitespace.TrailingIssuesAt | sensei_lua/analyzer.py:98-101 | the trailing-whitespace issues at line `k + 1` are exactly the per-line rule's verdict on that line |
| Whitespace.TrailingReportedIff | sensei_lua/analyzer.py:98-101 | line `k + 1` gets a trailing-whitespace issue, at its last column, exactly when it ends in a space or a tab |
| Whitespace.FinalNewlineRule | sensei_lua/analyzer.py:52-53 | `FinalNewlineIssues` gives one final-newline issue exactly when the source is non-empty and does not end in '\n', at (number of lines, length of the last line + 1) |
| Blocks.FindColumn | sensei_lua/analyzer.py:162-164 | the reported column is always 1 or more |
| Blocks.FindColumnFirst | sensei_lua/analyzer.py:162-164 | the column is one past the first occurrence of the token in the raw line, or 1 when the token does not occur |
| Blocks.LineEventsColumns | sensei_lua/analyzer.py:109 | `LineEvents` gives one event per token of the line, in token order, each at that line and at one past the first occurrence of its token in the raw line, or at column 1 when it does not occur |
| Blocks.Events | sensei_lua/analyzer.py:105-109 | the token events of all lines come in line order, at lines 1 to the number of lines, columns 1 or more |
| Blocks.CheckBlockBalance | sensei_lua/analyzer.py:104-122 | the nested loops with an explicit stack report the run of the checker over all token events followed by one issue per frame left open; every issue is a well-formed SYNTAX issue within the lines |
| Blocks.ScanTokens | sensei_lua/analyzer.py:109-120 | the token loop of one line appends the issues and leaves the stack of running the checker over that line's events |
| Blocks.StepToken | sensei_lua/analyzer.py:110-120 | one token pushes a frame for an opener, reports an unexpected closer on an empty stack, reports a mismatch against the top frame without popping it, and pops a matching frame |
| Blocks.ReportUnclosed | sensei_lua/analyzer.py:121-122 | the final loop appends one unclosed-block issue per frame left, bottom first |
| Blocks.StepRule | sensei_lua/analyzer.py:110-120 | `Step`, one token: at most one issue, and one exactly when the token is a closer and either no block is open (unexpected) or the innermost block expects another closer (expected, naming that block); the issue is a SYNTAX issue at the token's line and column; an opener pushes its frame, a matching closer pops the top frame, anything else leaves the stack alone |
| Blocks.RunBounds | sensei_lua/analyzer.py:105-120 | `Run` over `n` events raises at most `n` issues and grows the stack by at most `n` frames |
| Blocks.RunAppend | sensei_lua/analyzer.py:105-120 | scanning two runs of tokens in turn is scanning their concatenation: issues concatenate and the stack carries over |
| Blocks.RunKeywordsOnly | sensei_lua/analyzer.py:110-112 | identifiers that are not block keywords leave the checker untouched |
| Blocks.NestedClean | sensei_lua/analyzer.py:104-122 | keywords that nest properly, to any depth, raise no issue and leave the stack as it was, whatever identifiers surround them |
| Blocks.BalancedSourceClean | sensei_lua/analyzer.py:104-122 | a source whose keywords nest properly ends with an empty stack and has no block issue |
| Blocks.UnexpectedWhenEmpty | sensei_lua/analyzer.py:113-115 | a closer met with an empty stack adds exactly one unexpected issue at its line and column, and the stack stays empty |
| Blocks.ElseifLeavesFrame | sensei_lua/analyzer.py:33 | with keywords `then`, `then`, `end` (an `if … elseif … end`), the first frame stays open and nothing is reported before the end of input |
| Blocks.LoneCloser | sensei_lua/analyzer.py:113-115 | a source whose only keyword is a closer gets exactly one unexpected issue, at that keyword's line and column |
| Blocks.LoneOpener | sensei_lua/analyzer.py:110-122 | a source whose only keyword is an opener gets exactly one unclosed issue, at its line and column 1 |
| Blocks.MismatchKeepsFrame | sensei_lua/analyzer.py:116-120 | a closer that differs from the top frame's is reported with that frame's expected closer and opening line, the frame is not popped, and a later matching closer still pops it without a further issue |
| Blocks.StepInvariant | sensei_lua/analyzer.py:110-120 | one token keeps the frames sorted by opening line, within the lines seen and each waiting for `end` or `until`, and reports only at its own line |
| Blocks.RunInvariant | sensei_lua/analyzer.py:105-120 | over any event sequence in line order the frames stay sorted and wait only for closers, and the issues stay well-formed SYNTAX issues at event lines |
| Blocks.BlockBalanceWellFormed | sensei_lua/analyzer.py:104-122 | every issue of `BlockBalance` is a well-formed SYNTAX issue within the lines with one of the three block messages; the frames left are sorted by opening line and each waits for `end` or `until` |
| Blocks.UnclosedOrdered | sensei_lua/analyzer.py:121-122 | the unclosed-block issues come out oldest first: their lines never decrease |
| Analyzer.AnalyzeSource | sensei_lua/analyzer.py:47-58 | the append and the three extends build the report of the four checks in their fixed order, and every issue in it is well-formed |
| Analyzer.AnalysisOrdered | sensei_lua/analyzer.py:52-57 | the issues of `Analysis` come check by check: final newline, indentation, trailing whitespace, block balance |
| Analyzer.FinalNewlineFirst | sensei_lua/analyzer.py:52-53 | a non-empty source not ending in '\n' gets the final-newline issue first, at (number of lines, length of the last line + 1); any final-newline issue is that one |
| Analyzer.AnalysisWellFormed | sensei_lua/analyzer.py:47-58 | every issue of `Analysis` has line and column 1 or more, one of the three used tags, and a line within the source |
| Analyzer.AnalysisByCode | sensei_lua/analyzer.py:47-58 | in `Analysis`, the INDENT issues are exactly the indentation check's, the SYNTAX issues exactly the block checker's, and the FORMAT issues the final-newline issue followed by the trailing-whitespace ones |
| Analyzer.OfCode | tests/test_analyzer.py:8-26 | the issues of one tag, as the tests pick them out by `issue.code`: no more issues than the report has, all with that tag |
| Analyzer.OfCodeMembers | tests/test_analyzer.py:8-26 | an issue is among those selected for a tag exactly when it is in the report and carries that tag |
| Analyzer.IndentPerLine | sensei_lua/analyzer.py:79-95 | each line carries at most one INDENT issue in the report: the classifier's verdict on it |
| Analyzer.FormatPerLine | sensei_lua/analyzer.py:47-58 | the FORMAT issues at a line are the final-newline issue when it falls there, then a trailing-whitespace issue exactly when the line ends in a space or a tab |
| Analyzer.NestedSourceHasNoSyntaxIssue | sensei_lua/analyzer.py:104-122 | a source whose keywords nest properly gets no SYNTAX issue in the report |
| Analyzer.SingleLine | sensei_lua/analyzer.py:51 | a non-empty source without a line boundary splits into itself |
| Analyzer.HelloWorldMissesNewline | tests/test_analyzer.py:8-10 | `print('hello world')` with the default options gets the final-newline issue first, at line 1, column 21 |
| Analyzer.NewlineEndedLine | sensei_lua/analyzer.py:51 | a non-empty line without a boundary, followed by one '\n', splits into that single line |
| Analyzer.TrailingSpacesReported | tests/test_analyzer.py:13-14 | the source `print('hi')` followed by two spaces and '\n' gets the trailing-whitespace FORMAT issue, at line 1, column 13 |
| Analyzer.OneLineTrailing | sensei_lua/analyzer.py:51-56 | for a source that is one line ended by '\n', every trailing-whitespace issue of that line is in the report |
| Analyzer.PrintableNoBreak | sensei_lua/analyzer.py:51 | text made of printable ASCII characters holds none of the line boundaries `splitlines` splits at |

## Left out

- `analyze_file` (sensei_lua/analyzer.py:40-44) reads and decodes a file. That is I/O; its result is passed on to `analyze_source` unchanged.
- `format_issues` (sensei_lua/analyzer.py:61-76) and `Issue.__str__` (:26-27) only render issues as text with optional ANSI colours. `Message.Text` gives the message texts themselves.
- `sensei_lua/__main__.py` is the command-line front end: argument parsing, path checks, printing and exit codes. `sensei_lua/__init__.py` only re-exports names.
- Tokenizer.Tokenize: `str.isalpha` is modelled as the ASCII letters. A non-ASCII letter ends a word in the model but not in Python, because Unicode character classes are outside this model.
- Analyzer.AnalyzeSource: requires `indent_size != 0` for every input. Python raises `ZeroDivisionError` only when a line's indent is non-empty and all spaces. The exception path is not modelled.
- The checks are Python generators that `analyze_source` consumes at once with `extend`. They are modelled as functions that return the whole sequence, so laziness is not modelled.
- Blocks.ScanTokens, Blocks.StepToken and Blocks.ReportUnclosed: they are the inner token loop, the body of that loop and the final loop of the single generator `_check_block_balance`, written as separate methods. The `continue` statements after a reported issue become `else` branches with the same effect.
- Blocks.MismatchKeepsFrame: it requires the top frame's expected word to be a closer. Every stack the checker builds satisfies this: `RunInvariant` and `BlockBalanceWellFormed` prove `FramesExpectClosers` for it.
- The tests at tests/test_analyzer.py:17-69 use multi-line sources and are not worked out as concrete lemmas. The two one-line tests are: `HelloWorldMissesNewline` (:8-10) and `TrailingSpacesReported` (:13-14). The rules the other tests exercise are proved for all inputs: `LineIndentRules`, `TrailingReportedIff`, `BalancedSourceClean`, `MismatchKeepsFrame`, `LoneOpener` and `TabsAllowed`.
