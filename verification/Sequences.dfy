/** Facts about sequences that the solver does not find reliably. */
module Sequences {

  lemma Assoc<T>(a: seq<T>, b: seq<T>, c: seq<T>)
    ensures a + b + c == a + (b + c)
  {}

  lemma CutAt<T>(s: seq<T>, j: nat)
    requires j < |s|
    ensures s[..j + 1] == s[..j] + [s[j]]
    ensures s[j..] == [s[j]] + s[j + 1..]
  {}

  /** A sequence around one of its elements. */
  lemma Around<T>(s: seq<T>, j: nat)
    requires j < |s|
    ensures s == s[..j] + [s[j]] + s[j + 1..]
  {
    CutAt(s, j);
    assert s == s[..j + 1] + s[j + 1..];
  }
}
