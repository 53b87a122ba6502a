/** Bytes, little-endian words and the variable-length integers of `common/cs_varint.c`. */
module Varint {

  type Byte = b: int | 0 <= b < 256

  const U64: nat := 0x1_0000_0000_0000_0000
  const INT_MAX: nat := 0x7fff_ffff

  function Pow2(n: nat): (r: nat)
    ensures r > 0
  {
    if n == 0 then 1 else 2 * Pow2(n - 1)
  }

  lemma {:induction false} Pow2Add(m: nat, n: nat)
    ensures Pow2(m + n) == Pow2(m) * Pow2(n)
  {
    if m > 0 {
      Pow2Add(m - 1, n);
    }
  }

  lemma Pow2At64()
    ensures Pow2(64) == U64
  {
    assert Pow2(8) == 256;
    Pow2Add(8, 8);
    Pow2Add(16, 16);
    Pow2Add(32, 32);
  }

  // ----- fixed-width little-endian words -----

  /** The number whose little-endian bytes are `s`. */
  function FromBytes(s: seq<Byte>): nat {
    if s == [] then 0 else s[0] + 256 * FromBytes(s[1..])
  }

  /** The low `n` bytes of `x`, least significant first. */
  function ToBytes(x: nat, n: nat): (s: seq<Byte>)
    ensures |s| == n
  {
    if n == 0 then [] else [x % 256] + ToBytes(x / 256, n - 1)
  }

  lemma LowByte(low: nat, high: nat)
    requires low < 256
    ensures (low + 256 * high) % 256 == low && (low + 256 * high) / 256 == high
  {}

  lemma {:induction false} ToBytesOfFromBytes(s: seq<Byte>)
    ensures ToBytes(FromBytes(s), |s|) == s
  {
    if s != [] {
      LowByte(s[0], FromBytes(s[1..]));
      ToBytesOfFromBytes(s[1..]);
    }
  }

  lemma {:induction false} FromBytesOfToBytes(x: nat, n: nat)
    requires x < Pow2(8 * n)
    ensures FromBytes(ToBytes(x, n)) == x
  {
    if n > 0 {
      Pow2Add(8, 8 * (n - 1));
      assert Pow2(8) == 256;
      FromBytesOfToBytes(x / 256, n - 1);
    }
  }

  // ----- variable-length integers -----

  /** The encoding of `num`: seven bits a byte, low group first, top bit set on all but the last. */
  function Encode(num: nat): (s: seq<Byte>)
    ensures |s| >= 1
  {
    if num < 128 then [num] else [num % 128 + 128] + Encode(num / 128)
  }

  /** The value and the length that decoding reads off `s`, accumulated from bit position `shift` up.
      Bits shifted past bit 63 are lost, and a tenth byte always ends the number. */
  function DecodeFrom(s: seq<Byte>, shift: nat): (r: (nat, nat))
    requires Decodable(s, shift)
    requires shift < 64
    ensures 1 <= r.1 <= |s|
    decreases 64 - shift
  {
    var part := Group(s[0], shift);
    if shift + 7 < 64 && s[0] >= 128 then
      var rest := DecodeFrom(s[1..], shift + 7);
      (part + rest.0, rest.1 + 1)
    else
      (part, 1)
  }

  /** The seven payload bits of a byte, shifted inside a 64-bit word. */
  function Group(b: Byte, shift: nat): nat {
    (b % 128) * Pow2(shift) % U64
  }

  /** Decoding `s` stays inside `s`. */
  predicate Decodable(s: seq<Byte>, shift: nat)
    decreases |s|
  {
    |s| > 0 && (s[0] >= 128 && shift + 7 < 64 ==> Decodable(s[1..], shift + 7))
  }

  function Decode(s: seq<Byte>): (r: (nat, nat))
    requires Decodable(s, 0)
    ensures 1 <= r.1 <= |s|
  {
    DecodeFrom(s, 0)
  }

  /** Splitting off the low seven bits of a number shifted into a 64-bit word. */
  lemma SplitSeven(num: nat, shift: nat)
    requires num * Pow2(shift) < U64
    ensures (num % 128) * Pow2(shift) % U64 == (num % 128) * Pow2(shift)
    ensures num * Pow2(shift) == (num % 128) * Pow2(shift) + (num / 128) * Pow2(shift + 7)
    ensures num >= 128 ==> shift + 7 < 64
  {
    var w := Pow2(shift);
    Pow2Add(shift, 7);
    assert Pow2(7) == 128;
    Distribute(num, w);
    if num >= 128 && shift + 7 >= 64 {
      Pow2At64();
      Pow2Add(64, shift + 7 - 64);
      Scale(U64, Pow2(shift + 7 - 64));
      Scale(w * 128, num / 128);
    }
  }

  lemma Distribute(num: nat, w: nat)
    ensures num * w == (num % 128) * w + (num / 128) * (w * 128)
    ensures (num % 128) * w >= 0 && (num / 128) * (w * 128) >= 0
  {
    var q, r := num / 128, num % 128;
    assert (128 * q + r) * w == q * (w * 128) + r * w;
  }

  lemma Scale(x: nat, k: nat)
    requires k >= 1
    ensures x * k >= x && k * x >= x
  {}

  lemma {:induction false} DecodeFromEncode(num: nat, rest: seq<Byte>, shift: nat)
    requires shift < 64 && num * Pow2(shift) < U64
    ensures Decodable(Encode(num) + rest, shift)
    ensures DecodeFrom(Encode(num) + rest, shift) == (num * Pow2(shift), |Encode(num)|)
    decreases num
  {
    var s := Encode(num) + rest;
    SplitSeven(num, shift);
    assert s[0] % 128 == num % 128;
    if num >= 128 {
      assert s[1..] == Encode(num / 128) + rest;
      DecodeFromEncode(num / 128, rest, shift + 7);
    }
  }

  /** Decoding what was encoded returns the number and consumes exactly its encoding, whatever follows. */
  lemma RoundTrip(num: nat, rest: seq<Byte>)
    requires num < U64
    ensures Decodable(Encode(num) + rest, 0)
    ensures Decode(Encode(num) + rest) == (num, |Encode(num)|)
  {
    DecodeFromEncode(num, rest, 0);
  }

  /** An encoding is never longer than `n` bytes when the number has at most `7 * n` bits. */
  lemma {:induction false} EncodeLength(num: nat, n: nat)
    requires n > 0 && num < Pow2(7 * n)
    ensures |Encode(num)| <= n
  {
    if num >= 128 {
      assert Pow2(7) == 128;
      if n > 1 {
        Pow2Add(7, 7 * (n - 1));
        EncodeLength(num / 128, n - 1);
      }
    }
  }

  /** The number whose digits to base 128 are `groups`, lowest first. */
  function FromGroups(groups: seq<Byte>): nat {
    if groups == [] then 0 else groups[0] + 128 * FromGroups(groups[1..])
  }

  /** Digits below 128 of which the highest is not zero, unless it is the only one. */
  predicate Digits(groups: seq<Byte>) {
    groups != [] && (forall i :: 0 <= i < |groups| ==> groups[i] < 128) && (|groups| > 1 ==> groups[|groups| - 1] != 0)
  }

  /** A number is written digit by digit, lowest first, with 128 added to all but the last. */
  lemma {:induction false} EncodeDigits(groups: seq<Byte>)
    requires Digits(groups)
    ensures |Encode(FromGroups(groups))| == |groups|
    ensures forall i :: 0 <= i < |groups| ==>
              Encode(FromGroups(groups))[i] == groups[i] + if i < |groups| - 1 then 128 else 0
  {
    var low, rest := groups[0], groups[1..];
    if rest == [] {
      assert FromGroups(rest) == 0;
    } else {
      EncodeDigits(rest);
      PositiveGroups(rest);
      LowDigit(low, FromGroups(rest));
      assert Encode(FromGroups(groups)) == [low + 128] + Encode(FromGroups(rest));
    }
  }

  lemma {:induction false} PositiveGroups(groups: seq<Byte>)
    requires groups != [] && groups[|groups| - 1] != 0
    ensures FromGroups(groups) > 0
  {
    if |groups| > 1 {
      PositiveGroups(groups[1..]);
    }
  }

  lemma LowDigit(low: nat, high: nat)
    requires low < 128
    ensures (low + 128 * high) % 128 == low && (low + 128 * high) / 128 == high
  {}

  /** `cs_varint_llen`. */
  method Llen(num: nat) returns (n: nat)
    ensures n == |Encode(num)|
  {
    n := 1;
    var rest: nat := num / 128;
    while rest != 0
      invariant |Encode(num)| == n + (if rest == 0 then 0 else |Encode(rest)|)
      decreases rest
    {
      n := n + 1;
      rest := rest / 128;
    }
  }

  /** `cs_varint_encode`, writing into `p` from index `at`. */
  method EncodeAt(num: nat, p: array<Byte>, at: nat) returns (llen: nat)
    requires at + |Encode(num)| <= p.Length
    modifies p
    ensures llen == |Encode(num)|
    ensures p[..] == old(p[..at]) + Encode(num) + old(p[at + |Encode(num)|..])
  {
    llen := Llen(num);
    var rest: nat, i := num, 0;
    while i < llen
      invariant 0 <= i <= llen
      invariant i < llen ==> Encode(num)[i..] == Encode(rest)
      invariant forall k :: 0 <= k < i ==> p[at + k] == Encode(num)[k]
      invariant forall k :: 0 <= k < p.Length && !(at <= k < at + i) ==> p[k] == old(p[k])
    {
      assert Encode(num)[i] == Encode(rest)[0];
      p[at + i] := rest % 128 + (if i < llen - 1 then 128 else 0);
      assert i < llen - 1 ==> Encode(num)[i + 1..] == Encode(num)[i..][1..] == Encode(rest)[1..];
      rest := rest / 128;
      i := i + 1;
    }
  }

  /** One byte of a decoding run. */
  lemma DecodeStep(p: seq<Byte>, i: nat, shift: nat)
    requires i <= |p| && shift < 64 && Decodable(p[i..], shift)
    ensures i < |p|
    ensures shift + 7 < 64 && p[i] >= 128 ==> Decodable(p[i + 1..], shift + 7)
    ensures DecodeFrom(p[i..], shift) ==
            if shift + 7 < 64 && p[i] >= 128 then
              var rest := DecodeFrom(p[i + 1..], shift + 7);
              (Group(p[i], shift) + rest.0, rest.1 + 1)
            else
              (Group(p[i], shift), 1)
  {
    assert p[i..][1..] == p[i + 1..];
  }

  /** `cs_varint_decode`: a do-while loop over the bytes at `p`, on 64-bit words. */
  method DecodeAt(p: seq<Byte>) returns (num: nat, llen: nat)
    requires Decodable(p, 0)
    ensures num == Decode(p).0 && llen == Decode(p).1
  {
    var i, shift := 0, 0;
    num := 0;
    ghost var left := Decode(p);
    assert p[0..] == p;
    while true
      invariant i <= |p| && shift < 64
      invariant Decodable(p[i..], shift) && left == DecodeFrom(p[i..], shift)
      invariant Decode(p).0 == num + left.0 && Decode(p).1 == i + left.1
      decreases 64 - shift
    {
      DecodeStep(p, i, shift);
      var low := Group(p[i], shift);
      num := num + low;
      i := i + 1;
      shift := shift + 7;
      if !(shift < 64 && p[i - 1] >= 128) {
        return num, i;
      }
      left := DecodeFrom(p[i..], shift);
    }
  }
}
