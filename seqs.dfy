/** Small facts about sequences that the proofs cite by name. */
module Seqs {
  /** Concatenation is associative. */
  lemma Assoc<T>(a: seq<T>, b: seq<T>, c: seq<T>)
    ensures (a + b) + c == a + (b + c)
  {
  }

  /** A sequence is what comes before position `k`, the element there, and what follows. */
  lemma Around<T>(s: seq<T>, k: nat)
    requires k < |s|
    ensures s == s[..k] + [s[k]] + s[k + 1..]
  {
    assert s[..k] + [s[k]] == s[..k + 1];
    assert s[..k + 1] + s[k + 1..] == s;
  }

  /** A sequence cut after its first element and around position `m + 1`. */
  lemma Bracket<T>(s: seq<T>, m: nat)
    requires m + 2 <= |s|
    ensures s == [s[0]] + s[1..m + 1] + [s[m + 1]] + s[m + 2..]
  {
    assert s[..m + 2] == [s[0]] + s[1..m + 1] + [s[m + 1]];
    assert s == s[..m + 2] + s[m + 2..];
  }
}
