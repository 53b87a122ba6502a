/** `minimize` of afl-tmin: deleting and zeroing bytes of a buffer for as long as the target agrees. */
module Minimizer {
  import opened Varint
  import opened Reduction

  const TMIN_SET_STEPS: nat := 128
  const TMIN_SET_MIN_SIZE: nat := 4
  const TRIM_START_STEPS: nat := 16

  method Memcpy(dst: array<Byte>, at: nat, src: array<Byte>, from: nat, n: nat)
    requires dst != src && at + n <= dst.Length && from + n <= src.Length
    modifies dst
    ensures dst[..] == old(dst[..at]) + src[from..from + n] + old(dst[at + n..])
  {
    var i := 0;
    while i < n
      invariant 0 <= i <= n
      invariant dst[..at] == old(dst[..at]) && dst[at..at + i] == src[from..from + i] && dst[at + i..] == old(dst[at + i..])
    {
      dst[at + i] := src[from + i];
      i := i + 1;
    }
    assert dst[..] == dst[..at] + dst[at..at + n] + dst[at + n..];
  }

  /** `memset` with the digit `0`. */
  method Zero(dst: array<Byte>, at: nat, n: nat)
    requires at + n <= dst.Length
    modifies dst
    ensures Zeroed(old(dst[..]), dst[..])
    ensures forall p :: 0 <= p < dst.Length ==> dst[p] == if at <= p < at + n then ZERO else old(dst[p])
  {
    var i := 0;
    while i < n
      invariant 0 <= i <= n
      invariant forall p :: 0 <= p < dst.Length ==> dst[p] == if at <= p < at + i then ZERO else old(dst[p])
    {
      dst[at + i] := ZERO;
      i := i + 1;
    }
  }

  /** The loop that zeroes one symbol. */
  method ZeroSymbol(dst: array<Byte>, n: nat, c: Byte)
    requires n <= dst.Length
    modifies dst
    ensures dst[..n] == Replaced(old(dst[..n]), c)
  {
    var r := 0;
    while r < n
      invariant 0 <= r <= n
      invariant forall p :: 0 <= p < n ==> dst[p] == if p < r && old(dst[p]) == c then ZERO else old(dst[p])
    {
      if dst[r] == c {
        dst[r] := ZERO;
      }
      r := r + 1;
    }
  }

  class Tmin {
    const accept: Oracle
    const inData: array<Byte>
    const tmpBuf: array<Byte>
    var inLen: nat
    ghost const orig: seq<Byte>
    ghost var origin: seq<nat>

    /** `run_target` is taken to answer the same for the same input. */
    constructor (input: array<Byte>, accept: Oracle)
      ensures Valid() && orig == input[..] == Data() && inData == input && this.accept == accept && fresh(tmpBuf)
    {
      this.accept := accept;
      inData, inLen, orig := input, input.Length, input[..];
      tmpBuf := new Byte[input.Length];
      origin := seq(input.Length, i => i);
      new;
      assert inData[..inLen] == input[..];
      ComesFromItself(orig);
    }

    function Data(): (s: seq<Byte>)
      reads this, inData
      requires inLen <= inData.Length
      ensures |s| == inLen
    {
      inData[..inLen]
    }

    /** The buffer holds an accepted input, if the original was one, that is what remains of the original. */
    ghost predicate Valid()
      reads this, inData, tmpBuf
    {
      inData != tmpBuf && inData.Length == tmpBuf.Length && inLen <= inData.Length
      && ComesFrom(orig, Data(), origin) && (accept(orig) ==> accept(Data()))
    }

    method RunTarget(len: nat) returns (res: bool)
      requires len <= tmpBuf.Length
      ensures res == accept(tmpBuf[..len])
    {
      res := accept(tmpBuf[..len]);
    }

    /** Taking over a candidate in which some bytes have become zeros. */
    method TakeZeroed(ghost was: seq<Byte>)
      requires Valid() && was == Data() && Zeroed(was, tmpBuf[..inLen]) && accept(tmpBuf[..inLen])
      modifies inData
      ensures Valid() && Data() == tmpBuf[..inLen]
    {
      Memcpy(inData, 0, tmpBuf, 0, inLen);
      assert Data() == tmpBuf[0..inLen];
      ComesFromZeroed(orig, was, origin, tmpBuf[..inLen]);
    }

    /** Taking over a candidate without some block. */
    method TakeShorter(p: nat, n: nat)
      requires Valid() && p < inLen && n > 0
      requires tmpBuf[..|Without(Data(), p, n)|] == Without(Data(), p, n) && accept(Without(Data(), p, n))
      modifies this`inLen, this`origin, inData
      ensures Valid() && Data() == Without(old(Data()), p, n) && inLen < old(inLen)
    {
      ghost var next := Without(Data(), p, n);
      var len := if p + n < inLen then inLen - n else p;
      ComesFromWithout(orig, Data(), origin, p, n);
      Memcpy(inData, 0, tmpBuf, 0, len);
      inLen := len;
      origin := Without(origin, p, n);
      assert Data() == tmpBuf[0..len];
    }

    // ----- stage 0 -----

    /** Whether a block holds anything but zeros. */
    method HasNonZero(at: nat, n: nat) returns (r: bool)
      requires at + n <= inData.Length
      ensures r <==> exists p :: at <= p < at + n && inData[p] != ZERO
    {
      var i := 0;
      while i < n
        invariant 0 <= i <= n
        invariant forall p :: at <= p < at + i ==> inData[p] == ZERO
      {
        if inData[at + i] != ZERO {
          return true;
        }
        i := i + 1;
      }
      return false;
    }

    /** One-time block normalization. */
    method NormalizeBlocks()
      requires Valid()
      modifies inData, tmpBuf
      ensures Valid() && Zeroed(old(Data()), Data())
    {
      hide ComesFrom;
      var setLen := NextP2(inLen / TMIN_SET_STEPS);
      if setLen < TMIN_SET_MIN_SIZE {
        setLen := TMIN_SET_MIN_SIZE;
      }
      var setPos := 0;
      while setPos < inLen
        invariant Valid() && setLen > 0 && Zeroed(old(Data()), Data())
        decreases inLen - setPos
      {
        var useLen := if setLen < inLen - setPos then setLen else inLen - setPos;
        var some := HasNonZero(setPos, useLen);
        if some {
          ghost var was := Data();
          Memcpy(tmpBuf, 0, inData, 0, inLen);
          assert tmpBuf[..inLen] == was;
          Zero(tmpBuf, setPos, useLen);
          var res := RunTarget(inLen);
          if res {
            TakeZeroed(was);
          }
        }
        setPos := setPos + setLen;
      }
    }

    // ----- stage 1 -----

    /** The input without one block, in the other buffer. */
    method BuildShorter(p: nat, n: nat, tailLen: nat)
      requires Valid() && p < inLen && n > 0 && tailLen == if p + n < inLen then inLen - p - n else 0
      modifies tmpBuf
      ensures tmpBuf[..p + tailLen] == Without(Data(), p, n)
    {
      Memcpy(tmpBuf, 0, inData, 0, p);
      ghost var head := tmpBuf[..p];
      assert head == inData[..p];
      if p + n < inLen {
        Memcpy(tmpBuf, p, inData, p + n, tailLen);
        assert tmpBuf[..p + tailLen] == inData[..p] + inData[p + n..p + n + tailLen];
        assert inData[p + n..inLen] == Data()[p + n..] && inData[..p] == Data()[..p];
      } else {
        assert inData[..p] == Data()[..p];
      }
    }

    /** One sweep that tries to delete every block of a given length. A block that equals the one in front of
        it is not tried, since that one could not go either. */
    method DeleteBlocks(delLen: nat) returns (changed: bool)
      requires Valid() && delLen > 0
      modifies this`inLen, this`origin, inData, tmpBuf
      ensures Valid() && inLen <= old(inLen)
      ensures changed ==> inLen < old(inLen)
      ensures !changed ==> Data() == old(Data()) && BlockMinimal(accept, Data(), delLen)
    {
      hide ComesFrom, Without, Nth;
      changed := false;
      var delPos, prevDel := 0, true;
      ghost var done: nat := 0;
      assert Nth(0, delLen) == 0 by {
        NthZero(delLen);
      }
      while delPos < inLen
        invariant Valid() && inLen <= old(inLen)
        invariant changed ==> inLen < old(inLen)
        invariant !changed ==> Data() == old(Data())
        invariant !prevDel ==> delLen <= delPos && delPos - delLen < inLen && !accept(Without(Data(), delPos - delLen, delLen))
        invariant prevDel && !changed ==> delPos == 0
        invariant !changed ==> delPos == Nth(done, delLen)
                               && forall j: nat :: j < done && Nth(j, delLen) < inLen ==> !accept(Without(Data(), Nth(j, delLen), delLen))
        decreases inLen, inLen - delPos
      {
        var tailLen := if inLen - delPos - delLen < 0 then 0 else inLen - delPos - delLen;
        if !prevDel && tailLen != 0 && inData[delPos - delLen..delPos] == inData[delPos..delPos + delLen] {
          SkipEqual(delPos, delLen);
          NthNext(done, delLen);
          delPos, done := delPos + delLen, done + 1;
        } else {
          prevDel := false;
          BuildShorter(delPos, delLen, tailLen);
          WithoutLength(Data(), delPos, delLen);
          var res := RunTarget(delPos + tailLen);
          if res {
            TakeShorter(delPos, delLen);
            prevDel := true;
            changed := true;
          } else {
            NthNext(done, delLen);
            delPos, done := delPos + delLen, done + 1;
          }
        }
      }
      if !changed {
        forall j: nat | Nth(j, delLen) < inLen
          ensures !accept(Without(Data(), Nth(j, delLen), delLen))
        {
          if done <= j {
            NthGrows(done, j, delLen);
          }
        }
      }
    }

    lemma NthZero(n: nat)
      ensures Nth(0, n) == 0
    {}

    lemma SkipEqual(p: nat, n: nat)
      requires inLen <= inData.Length && n <= p && p + n <= inLen && inData[p - n..p] == inData[p..p + n]
      ensures Without(Data(), p, n) == Without(Data(), p - n, n)
    {
      assert Data()[p - n..p] == inData[p - n..p] && Data()[p..p + n] == inData[p..p + n];
      EqualBlocks(Data(), p, n);
    }

    lemma WithoutLength(s: seq<Byte>, p: nat, n: nat)
      requires p <= |s|
      ensures |Without(s, p, n)| == if p + n < |s| then |s| - n else p
    {}

    /** Sweeps with ever shorter blocks, down to single bytes. */
    method DeletionStage() returns (changed: bool)
      requires Valid()
      modifies this`inLen, this`origin, inData, tmpBuf
      ensures Valid() && inLen <= old(inLen)
      ensures changed ==> inLen < old(inLen)
      ensures !changed ==> Data() == old(Data()) && OneMinimal(accept, Data()) && Trimmed(accept, Data())
    {
      hide ComesFrom, BlockMinimal, OneMinimal;
      var delLen := NextP2(inLen / TRIM_START_STEPS);
      ghost var k: nat :| delLen == Pow2(k);
      ghost var i: nat, first := k, delLen;
      changed := DeleteBlocks(delLen);
      while delLen > 1 && inLen >= 1
        invariant Valid() && delLen == Pow2(i) && i <= k && inLen <= old(inLen)
        invariant changed ==> inLen < old(inLen)
        invariant !changed ==> Data() == old(Data()) && AllTrimmed(accept, Data(), i, k)
        decreases delLen
      {
        i := i - 1;
        delLen := delLen / 2;
        var more := DeleteBlocks(delLen);
        changed := changed || more;
      }
      if !changed {
        Exhausted(i, k);
        assert first == Pow2(k) && BlockMinimal(accept, Data(), Pow2(0)) && Pow2(0) == 1;
        BlocksOfOne(accept, Data());
      }
    }

    /** Down to single bytes, or nothing is left. */
    lemma Exhausted(i: nat, k: nat)
      requires inLen <= inData.Length && i <= k && AllTrimmed(accept, Data(), i, k) && (Pow2(i) == 1 || inLen == 0)
      ensures AllTrimmed(accept, Data(), 0, k)
    {
      if Pow2(i) == 1 {
        assert i == 0;
      }
    }

    // ----- stage 2 -----

    /** How often each byte occurs: `alpha_map`. Only whether it occurs matters. */
    method CountSymbols() returns (alphaMap: array<nat>)
      requires inLen <= inData.Length
      ensures fresh(alphaMap) && alphaMap.Length == 256
      ensures forall c: Byte :: alphaMap[c] > 0 <==> c in Data()
    {
      alphaMap := new nat[256](i => 0);
      var i := 0;
      while i < inLen
        invariant 0 <= i <= inLen
        invariant forall c: Byte :: alphaMap[c] > 0 <==> c in inData[..i]
      {
        assert inData[..i + 1] == inData[..i] + [inData[i]];
        alphaMap[inData[i]] := alphaMap[inData[i]] + 1;
        i := i + 1;
      }
    }

    /** The input with one symbol zeroed throughout, in the other buffer. */
    method BuildReplaced(c: Byte)
      requires Valid()
      modifies tmpBuf
      ensures tmpBuf[..inLen] == Replaced(Data(), c)
    {
      hide ComesFrom, Replaced;
      Memcpy(tmpBuf, 0, inData, 0, inLen);
      assert tmpBuf[..inLen] == Data();
      ZeroSymbol(tmpBuf, inLen, c);
    }

    /** Alphabet minimization. */
    method SymbolStage() returns (changed: bool)
      requires Valid()
      modifies inData, tmpBuf
      ensures Valid() && Zeroed(old(Data()), Data()) && (changed <==> Data() != old(Data()))
      ensures !changed ==> SymbolMinimal(accept, Data())
    {
      hide ComesFrom, Replaced;
      ghost var was := Data();
      var alphaMap := CountSymbols();
      changed := false;
      var i := 0;
      while i < 256
        invariant 0 <= i <= 256 && Valid() && Zeroed(was, Data()) && (changed <==> Data() != was)
        invariant forall c: Byte :: alphaMap[c] > 0 <==> c in was
        invariant forall p :: 0 <= p < inLen && Data()[p] != was[p] ==> was[p] < i
        invariant !changed ==> forall c: Byte :: c < i && c in was && c != ZERO ==> !accept(Replaced(was, c))
      {
        if i != ZERO && alphaMap[i] > 0 {
          BuildReplaced(i);
          var res := RunTarget(inLen);
          if res {
            ReplacedChanges(was, Data(), i);
            TakeZeroed(Data());
            changed := true;
          }
        }
        i := i + 1;
      }
    }

    // ----- stage 3 -----

    /** Character minimization; the other buffer follows what is kept. */
    method CharStage() returns (changed: bool)
      requires Valid()
      modifies inData, tmpBuf
      ensures Valid() && Zeroed(old(Data()), Data()) && (changed <==> Data() != old(Data()))
      ensures !changed ==> CharMinimal(accept, Data())
    {
      hide ComesFrom, Tried, CharMinimal, Zeroed;
      ghost var was := Data();
      TriedNone(accept, was);
      changed := false;
      Memcpy(tmpBuf, 0, inData, 0, inLen);
      assert tmpBuf[..inLen] == was;
      var i := 0;
      while i < inLen
        invariant 0 <= i <= inLen == |was| && Valid() && tmpBuf[..inLen] == Data()
        invariant Tried(accept, was, Data(), i, changed)
      {
        changed := TryChar(i, was, changed);
        i := i + 1;
      }
      TriedAll(accept, was, Data(), changed);
    }

    /** One byte of the character stage. */
    method TryChar(i: nat, ghost was: seq<Byte>, before: bool) returns (changed: bool)
      requires Valid() && i < inLen == |was| && tmpBuf[..inLen] == Data() && Tried(accept, was, Data(), i, before)
      modifies inData, tmpBuf
      ensures Valid() && tmpBuf[..inLen] == Data() && Tried(accept, was, Data(), i + 1, changed)
    {
      hide ComesFrom;
      changed := before;
      var orig := tmpBuf[i];
      ghost var data := Data();
      assert orig == data[i];
      if orig == ZERO {
        return;
      }
      tmpBuf[i] := ZERO;
      assert tmpBuf[..inLen] == data[i := ZERO];
      var res := RunTarget(inLen);
      if res {
        ComesFromZeroed(this.orig, data, origin, data[i := ZERO]);
        inData[i] := ZERO;
        assert Data() == data[i := ZERO];
        changed := true;
      } else {
        tmpBuf[i] := orig;
        assert tmpBuf[..inLen] == data[i := ZERO][i := orig] == data;
      }
    }

    // ----- all stages -----

    /** `minimize`. On every exit no single byte of the result can be deleted; if one pass sufficed, no byte and
        no symbol can be zeroed either. The result is accepted if the original was, and it is what remains of the
        original after deleting and zeroing bytes. It comes to an end for every oracle: a pass that changes
        something leaves fewer bytes, or as many with fewer of them non-zero. */
    method Minimize() returns (passes: nat)
      requires Valid()
      modifies this`inLen, this`origin, inData, tmpBuf
      ensures Valid() && inLen <= old(inLen)
      ensures OneMinimal(accept, Data()) && Trimmed(accept, Data())
      ensures passes == 1 ==> SymbolMinimal(accept, Data()) && CharMinimal(accept, Data())
    {
      hide ComesFrom, OneMinimal, SymbolMinimal, CharMinimal, Zeroed, Trimmed;
      NormalizeBlocks();
      passes := 0;
      while true
        invariant Valid() && inLen <= old(inLen)
        decreases inLen, NonZeros(Data())
      {
        passes := passes + 1;
        var changed := DeletionStage();
        if passes > 1 && !changed {
          return;
        }
        ghost var d1 := Data();
        var symbols := SymbolStage();
        ghost var d2 := Data();
        ZeroedCount(d1, d2);
        var chars := CharStage();
        ZeroedCount(d2, Data());
        if !changed && !symbols && !chars {
          return;
        }
      }
    }
  }

  /** The character stage has come to `i`, from `was` to `now`. */
  ghost predicate Tried(accept: Oracle, was: seq<Byte>, now: seq<Byte>, i: nat, changed: bool) {
    Zeroed(was, now) && (changed <==> now != was) && (forall p :: i <= p < |was| ==> now[p] == was[p])
    && (!changed ==> forall p :: 0 <= p < i && p < |was| && was[p] != ZERO ==> !accept(was[p := ZERO]))
  }

  lemma TriedNone(accept: Oracle, s: seq<Byte>)
    ensures Tried(accept, s, s, 0, false)
  {}

  lemma TriedAll(accept: Oracle, was: seq<Byte>, now: seq<Byte>, changed: bool)
    requires Tried(accept, was, now, |was|, changed)
    ensures Zeroed(was, now) && (changed <==> now != was) && (!changed ==> CharMinimal(accept, now))
  {}

  /** Zeroing a symbol that still occurs changes the input. */
  lemma ReplacedChanges(was: seq<Byte>, now: seq<Byte>, c: Byte)
    requires Zeroed(was, now) && c in was && c != ZERO
    requires forall p :: 0 <= p < |was| && now[p] != was[p] ==> was[p] < c
    ensures Zeroed(was, Replaced(now, c)) && Replaced(now, c) != was
    ensures forall p :: 0 <= p < |was| && Replaced(now, c)[p] != was[p] ==> was[p] <= c
    ensures Zeroed(now, Replaced(now, c))
  {
    var p :| 0 <= p < |was| && was[p] == c;
    assert Replaced(now, c)[p] == ZERO;
  }
}
