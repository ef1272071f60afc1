/** The word tokenizer: maximal runs of letters and underscores, left to right. */
module Tokenizer {
  import opened Seqs
  import opened Stripper

  /** A character that can be part of a word: an ASCII letter or an underscore. */
  predicate IsWordChar(c: char) {
    ('a' <= c <= 'z') || ('A' <= c <= 'Z') || c == '_'
  }

  predicate AllWordChars(s: string) {
    forall k :: 0 <= k < |s| ==> IsWordChar(s[k])
  }

  predicate NoWordChars(s: string) {
    forall k :: 0 <= k < |s| ==> !IsWordChar(s[k])
  }

  /** The word characters of `s`, in order, with everything else dropped. */
  function WordChars(s: string): string {
    if s == [] then [] else (if IsWordChar(s[0]) then [s[0]] else []) + WordChars(s[1..])
  }

  function Concat(ts: seq<string>): string {
    if ts == [] then [] else ts[0] + Concat(ts[1..])
  }

  /** The words of `s`, when the word `word` has already been started before it. */
  function WordsFrom(s: string, word: string): seq<string>
    decreases |s|
  {
    if s == [] then (if word == [] then [] else [word])
    else if IsWordChar(s[0]) then WordsFrom(s[1..], word + [s[0]])
    else (if word == [] then [] else [word]) + WordsFrom(s[1..], [])
  }

  /** The words of a line. */
  function Words(s: string): seq<string> {
    WordsFrom(s, [])
  }

  /** `_tokenize`: one pass over the line with a word buffer that is flushed at each separator. */
  method Tokenize(line: string) returns (tokens: seq<string>)
    ensures tokens == Words(line)
    ensures forall k :: 0 <= k < |tokens| ==> tokens[k] != [] && AllWordChars(tokens[k])
    ensures Concat(tokens) == WordChars(line)
  {
    tokens := [];
    var word: string := [];
    for i := 0 to |line|
      invariant tokens + WordsFrom(line[i..], word) == Words(line)
    {
      WordsFromStep(line[i..], word);
      assert line[i..][1..] == line[i + 1..];
      var ch := line[i];
      if IsWordChar(ch) {
        word := word + [ch];
      } else if word != [] {
        Assoc(tokens, [word], WordsFrom(line[i + 1..], []));
        tokens := tokens + [word];
        word := [];
      }
    }
    if word != [] {
      tokens := tokens + [word];
    }
    WordsAreWords(line, []);
    WordsConcat(line, []);
  }

  /** One character of the word scan: it extends the word or ends it. */
  lemma WordsFromStep(s: string, word: string)
    requires s != []
    ensures IsWordChar(s[0]) ==> WordsFrom(s, word) == WordsFrom(s[1..], word + [s[0]])
    ensures !IsWordChar(s[0]) ==> WordsFrom(s, word) == (if word == [] then [] else [word]) + WordsFrom(s[1..], [])
  {
  }

  lemma {:induction false} WordsAreWords(s: string, word: string)
    requires AllWordChars(word)
    ensures forall k :: 0 <= k < |WordsFrom(s, word)| ==>
      WordsFrom(s, word)[k] != [] && AllWordChars(WordsFrom(s, word)[k])
    decreases |s|
  {
    if s != [] {
      if IsWordChar(s[0]) {
        WordsAreWords(s[1..], word + [s[0]]);
      } else {
        WordsAreWords(s[1..], []);
      }
    }
  }

  lemma ConcatAppend(a: seq<string>, b: seq<string>)
    ensures Concat(a + b) == Concat(a) + Concat(b)
  {
    if a != [] {
      assert (a + b)[0] == a[0] && (a + b)[1..] == a[1..] + b;
      ConcatAppend(a[1..], b);
    } else {
      assert a + b == b;
    }
  }

  /** Concatenating the words gives back exactly the word characters, in order. */
  lemma {:induction false} WordsConcat(s: string, word: string)
    ensures Concat(WordsFrom(s, word)) == word + WordChars(s)
    decreases |s|
  {
    if s != [] {
      if IsWordChar(s[0]) {
        WordsConcat(s[1..], word + [s[0]]);
      } else {
        WordsConcat(s[1..], []);
        var head := if word == [] then [] else [word];
        ConcatAppend(head, WordsFrom(s[1..], []));
      }
    }
  }

  /** A line yields no words exactly when it has no letter or underscore. */
  lemma WordsEmptyIff(s: string)
    ensures Words(s) == [] <==> WordChars(s) == []
  {
    WordsConcat(s, []);
    WordsAreWords(s, []);
    var ts := Words(s);
    if ts != [] {
      assert Concat(ts) == ts[0] + Concat(ts[1..]);
    }
  }

  lemma {:induction false} WordsFromSeparated(u: string, c: char, v: string, word: string)
    requires !IsWordChar(c)
    ensures WordsFrom(u + [c] + v, word) == WordsFrom(u, word) + Words(v)
    decreases |u|
  {
    var s := u + [c] + v;
    if u == [] {
      assert s[1..] == v;
    } else {
      assert s[1..] == u[1..] + [c] + v;
      if IsWordChar(u[0]) {
        WordsFromSeparated(u[1..], c, v, word + [u[0]]);
      } else {
        WordsFromSeparated(u[1..], c, v, []);
      }
    }
  }

  /** A separator splits the word list: no word spans it, so words are maximal runs. */
  lemma WordsSeparated(u: string, c: char, v: string)
    requires !IsWordChar(c)
    ensures Words(u + [c] + v) == Words(u) + Words(v)
  {
    WordsFromSeparated(u, c, v, []);
  }

  lemma {:induction false} WordsFromRun(w: string, word: string)
    requires AllWordChars(w) && word + w != []
    ensures WordsFrom(w, word) == [word + w]
    decreases |w|
  {
    if w != [] {
      assert IsWordChar(w[0]);
      assert word + w == (word + [w[0]]) + w[1..];
      assert AllWordChars(w[1..]) by {
        forall k | 0 <= k < |w| - 1 ensures IsWordChar(w[1..][k]) {
          assert w[1..][k] == w[k + 1];
        }
      }
      WordsFromRun(w[1..], word + [w[0]]);
    } else {
      assert word + w == word;
    }
  }

  /** A run of word characters with nothing around it is one word. */
  lemma WordsOfRun(w: string)
    requires w != [] && AllWordChars(w)
    ensures Words(w) == [w]
  {
    WordsFromRun(w, []);
    assert [] + w == w;
  }

  /** Separators in front of a line contribute nothing. */
  lemma {:induction false} WordsSkip(u: string, v: string)
    requires NoWordChars(u)
    ensures Words(u + v) == Words(v)
    decreases |u|
  {
    if u != [] {
      assert (u + v)[0] == u[0] && (u + v)[1..] == u[1..] + v;
      assert !IsWordChar(u[0]);
      assert NoWordChars(u[1..]) by {
        forall k | 0 <= k < |u| - 1 ensures !IsWordChar(u[1..][k]) {
          assert u[1..][k] == u[k + 1];
        }
      }
      WordsSkip(u[1..], v);
    } else {
      assert u + v == v;
    }
  }

  /** The tokens the block checker sees on a raw line. */
  function LineTokens(raw: string): seq<string> {
    Words(Strip(raw))
  }

  lemma WordsCodeThenBlanks(code: string, n: nat, tail: string)
    requires n >= 1
    ensures Words(code + Spaces(n) + tail) == Words(code) + Words(tail)
  {
    var blanks := Spaces(n - 1);
    assert code + Spaces(n) + tail == code + [' '] + (blanks + tail);
    WordsSeparated(code, ' ', blanks + tail);
    WordsSkip(blanks, tail);
  }

  /** Words inside a closed string literal never become tokens; tokens resume after it. */
  lemma StringHidesWords(code: string, q: char, body: string, rest: string)
    requires IsQuote(q) && StringBody(body, q, false)
    requires PlainPrefix(code, code + [q] + body + [q] + rest)
    ensures LineTokens(code + [q] + body + [q] + rest) == Words(code) + LineTokens(rest)
  {
    StripAroundString(code, q, body, rest);
    WordsCodeThenBlanks(code, BodyWidth(body) + 2, Strip(rest));
  }

  /** A string left open hides every word after its opening quote. */
  lemma OpenStringHidesWords(code: string, q: char, body: string)
    requires IsQuote(q) && StringBody(body, q, true)
    requires PlainPrefix(code, code + [q] + body)
    ensures LineTokens(code + [q] + body) == Words(code)
  {
    var tail := [q] + body;
    assert code + [q] + body == code + tail;
    StripPlainPrefix(code, tail);
    StripOpenString(q, body);
    WordsCodeThenBlanks(code, BodyWidth(body) + 1, []);
    assert code + Spaces(BodyWidth(body) + 1) + [] == code + Spaces(BodyWidth(body) + 1);
    assert Words([]) == [];
  }

  /** Words after an unquoted `--` never become tokens. */
  lemma CommentHidesWords(code: string, rest: string)
    requires PlainPrefix(code, code + "--" + rest)
    ensures LineTokens(code + "--" + rest) == Words(code)
  {
    StripComment(code, rest);
  }
}
