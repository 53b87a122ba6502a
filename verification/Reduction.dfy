/** What a test case may lose while it is minimized, and when nothing more can go. */
module Reduction {
  import opened Varint
  import opened Sequences

  /** The byte that everything is normalized to, the digit `0`. */
  const ZERO: Byte := 48

  /** Whether the target still behaves as it should on an input. */
  type Oracle = seq<Byte> -> bool

  /** `s` without up to `n` elements from `p` on. */
  function Without<T>(s: seq<T>, p: nat, n: nat): (r: seq<T>)
    requires p <= |s|
    ensures |r| == if p + n < |s| then |s| - n else p
  {
    if p + n < |s| then s[..p] + s[p + n..] else s[..p]
  }

  /** Deleting the second of two equal blocks in a row gives the same as deleting the first. */
  lemma EqualBlocks<T>(s: seq<T>, p: nat, n: nat)
    requires n <= p && p + n <= |s| && s[p - n..p] == s[p..p + n]
    ensures Without(s, p, n) == Without(s, p - n, n)
  {
    assert s[..p] == s[..p - n] + s[p - n..p];
    assert s[p..] == s[p..p + n] + s[p + n..];
    Assoc(s[..p - n], s[p..p + n], s[p + n..]);
    if p + n == |s| {
      assert s[p + n..] == [];
      assert s[..p - n] + s[p..p + n] + [] == s[..p - n] + s[p..p + n];
    }
  }

  /** Some bytes of `a` have become zeros. */
  predicate Zeroed(a: seq<Byte>, b: seq<Byte>) {
    |a| == |b| && forall p :: 0 <= p < |a| ==> b[p] == a[p] || b[p] == ZERO
  }

  function NonZeros(s: seq<Byte>): nat {
    if s == [] then 0 else (if s[0] == ZERO then 0 else 1) + NonZeros(s[1..])
  }

  lemma {:induction false} ZeroedCount(a: seq<Byte>, b: seq<Byte>)
    requires Zeroed(a, b)
    ensures NonZeros(b) <= NonZeros(a)
    ensures a != b ==> NonZeros(b) < NonZeros(a)
    decreases |a|
  {
    if a != [] {
      ZeroedCount(a[1..], b[1..]);
      if a != b {
        assert a == [a[0]] + a[1..] && b == [b[0]] + b[1..];
      }
    }
  }

  // ----- where the bytes come from -----

  predicate Increasing(origin: seq<nat>) {
    forall i, j :: 0 <= i < j < |origin| ==> origin[i] < origin[j]
  }

  /** `data` comes from `orig` by deleting bytes and zeroing others: byte `i` was at `origin[i]`. */
  predicate ComesFrom(orig: seq<Byte>, data: seq<Byte>, origin: seq<nat>) {
    |origin| == |data| && Increasing(origin)
    && forall i :: 0 <= i < |data| ==> origin[i] < |orig| && (data[i] == orig[origin[i]] || data[i] == ZERO)
  }

  lemma ComesFromItself(orig: seq<Byte>)
    ensures ComesFrom(orig, orig, seq(|orig|, i => i))
  {}

  lemma ComesFromWithout(orig: seq<Byte>, data: seq<Byte>, origin: seq<nat>, p: nat, n: nat)
    requires ComesFrom(orig, data, origin) && p <= |data|
    ensures ComesFrom(orig, Without(data, p, n), Without(origin, p, n))
  {
    var d, o := Without(data, p, n), Without(origin, p, n);
    forall i | 0 <= i < |d|
      ensures var k := if i < p then i else i + n; k < |data| && d[i] == data[k] && o[i] == origin[k]
    {}
  }

  lemma ComesFromZeroed(orig: seq<Byte>, data: seq<Byte>, origin: seq<nat>, next: seq<Byte>)
    requires ComesFrom(orig, data, origin) && Zeroed(data, next)
    ensures ComesFrom(orig, next, origin)
  {}

  // ----- minimality -----

  /** No single byte can go. */
  ghost predicate OneMinimal(accept: Oracle, s: seq<Byte>) {
    forall p :: 0 <= p < |s| ==> !accept(Without(s, p, 1))
  }

  /** Where block number `j` starts. */
  function Nth(j: nat, n: nat): nat {
    j * n
  }

  /** No block of length `n` can go, counted from the front. */
  ghost predicate BlockMinimal(accept: Oracle, s: seq<Byte>, n: nat) {
    forall j: nat :: Nth(j, n) < |s| ==> !accept(Without(s, Nth(j, n), n))
  }

  lemma BlocksOfOne(accept: Oracle, s: seq<Byte>)
    requires BlockMinimal(accept, s, 1)
    ensures OneMinimal(accept, s)
  {
    forall p | 0 <= p < |s|
      ensures !accept(Without(s, p, 1))
    {
      assert Nth(p, 1) == p;
    }
  }

  lemma NthGrows(k: nat, j: nat, n: nat)
    requires k <= j
    ensures Nth(k, n) <= Nth(j, n)
  {
    assert Nth(j, n) == Nth(k, n) + (j - k) * n;
  }

  lemma NthNext(j: nat, n: nat)
    ensures Nth(j + 1, n) == Nth(j, n) + n
  {}

  /** No block can go whose length is a power of two up to about a sixteenth of the input. */
  ghost predicate Trimmed(accept: Oracle, s: seq<Byte>) {
    exists k: nat :: Pow2(k) >= |s| / 16 && (|s| / 16 > 1 ==> Pow2(k) < 2 * (|s| / 16)) && AllTrimmed(accept, s, 0, k)
  }

  ghost predicate AllTrimmed(accept: Oracle, s: seq<Byte>, from: nat, to: nat) {
    forall i: nat :: from <= i <= to ==> BlockMinimal(accept, s, Pow2(i))
  }

  /** No byte can become a zero. */
  ghost predicate CharMinimal(accept: Oracle, s: seq<Byte>) {
    forall p :: 0 <= p < |s| && s[p] != ZERO ==> !accept(s[p := ZERO])
  }

  /** `s` with every `c` a zero. */
  function Replaced(s: seq<Byte>, c: Byte): (r: seq<Byte>)
    ensures Zeroed(s, r)
  {
    seq(|s|, i requires 0 <= i < |s| => if s[i] == c then ZERO else s[i])
  }

  /** No symbol can be replaced throughout. */
  ghost predicate SymbolMinimal(accept: Oracle, s: seq<Byte>) {
    forall c: Byte :: c in s && c != ZERO ==> !accept(Replaced(s, c))
  }

  /** `next_p2`: the first power of two that is not less. */
  method NextP2(val: nat) returns (ret: nat)
    ensures ret >= 1 && ret >= val && (val > 1 ==> ret < 2 * val) && exists k: nat :: ret == Pow2(k)
  {
    ret := 1;
    ghost var k: nat := 0;
    while val > ret
      invariant ret >= 1 && ret == Pow2(k) && (ret > 1 ==> ret < 2 * val)
      decreases val - ret
    {
      ret := 2 * ret;
      k := k + 1;
    }
  }
}
