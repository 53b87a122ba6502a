/** What happens to the jumps of a program when a later patch makes its code move. */
module Patching {
  import opened Varint
  import opened Bytecode
  import opened Grammar

  /** Where the byte at `at` lies once the one byte at `off` has become `len` bytes. */
  function Moved(at: int, off: nat, len: nat): int {
    if at <= off then at else at + len - 1
  }

  /** The place a jump leads to whose operand lies at `at`. */
  function Target(code: seq<Byte>, at: nat): int
    requires ReadOperand(code, at).Operand?
  {
    ReadOperand(code, at).next + Signed(ReadOperand(code, at).n, 32)
  }

  lemma PatchParts(code: seq<Byte>, off: nat, v: nat)
    requires off < |code|
    ensures var p, len := Patch(code, off, v), |Encode(v)|;
            |p| == |code| + len - 1 && p[..off] == code[..off] && p[off + len..] == code[off + 1..]
            && p[off..off + len] == Encode(v)
  {
    hide Encode;
  }

  /** The bytes keep their order: each is found again where it moved to. */
  lemma BytesMove(code: seq<Byte>, off: nat, v: nat, i: nat)
    requires off < |code| && i < |code| && i != off
    ensures 0 <= Moved(i, off, |Encode(v)|) < |Patch(code, off, v)|
    ensures Patch(code, off, v)[Moved(i, off, |Encode(v)|)] == code[i]
  {
    hide Encode;
  }

  /** The patched jump leads where the patch says. */
  lemma PatchedTarget(code: seq<Byte>, off: nat, v: nat)
    requires off < |code| && v <= INT_MAX
    ensures ReadOperand(Patch(code, off, v), off) == Operand(v, off + |Encode(v)|)
    ensures Target(Patch(code, off, v), off) == Moved(off + 1, off, |Encode(v)|) + v
  {
    hide Encode, Patch, ReadOperand, Signed;
    PatchParts(code, off, v);
    OperandLies(Patch(code, off, v), off, v);
    SmallIsSigned(v);
  }

  lemma TakeThenSlice(p: seq<Byte>, q: seq<Byte>, off: nat, a: nat, b: nat)
    requires a <= b <= off <= |p| && off <= |q| && p[..off] == q[..off]
    ensures p[a..b] == q[a..b]
  {
    assert p[a..b] == p[..off][a..b] && q[a..b] == q[..off][a..b];
  }

  lemma DropThenSlice(p: seq<Byte>, off: nat, a: nat, b: nat)
    requires a <= b && off + b <= |p|
    ensures p[off..][a..b] == p[off + a..off + b]
  {}

  /** An operand that does not contain the patched byte is read as before. */
  lemma OperandMoves(code: seq<Byte>, off: nat, v: nat, at: nat, n: nat)
    requires off < |code| && n < U64 && Lies(code, at, Encode(n)) && !(at <= off < at + |Encode(n)|)
    ensures 0 <= Moved(at, off, |Encode(v)|)
    ensures ReadOperand(code, at) == Operand(n, at + |Encode(n)|)
    ensures ReadOperand(Patch(code, off, v), Moved(at, off, |Encode(v)|))
         == Operand(n, Moved(at, off, |Encode(v)|) + |Encode(n)|)
  {
    hide Encode, Patch, ReadOperand;
    PatchParts(code, off, v);
    OperandLies(code, at, n);
    var p, len := Patch(code, off, v), |Encode(v)|;
    if at + |Encode(n)| <= off {
      TakeThenSlice(p, code, off, at, at + |Encode(n)|);
    } else {
      var b := at - off - 1;
      DropThenSlice(code, off + 1, b, b + |Encode(n)|);
      DropThenSlice(p, off + len, b, b + |Encode(n)|);
    }
    OperandLies(p, Moved(at, off, len), n);
  }

  /** An earlier jump over `n` bytes still leads to the same instruction after a patch exactly when the patch
      moved nothing, or the patched byte does not lie strictly inside the bytes it jumps over. */
  lemma JumpSurvives(code: seq<Byte>, off: nat, v: nat, at: nat, n: nat)
    requires off < |code| && n <= INT_MAX && Lies(code, at, Encode(n)) && !(at <= off < at + |Encode(n)|)
    ensures 0 <= Moved(at, off, |Encode(v)|)
    ensures ReadOperand(Patch(code, off, v), Moved(at, off, |Encode(v)|)).Operand? && ReadOperand(code, at).Operand?
    ensures Target(Patch(code, off, v), Moved(at, off, |Encode(v)|)) == Moved(Target(code, at), off, |Encode(v)|)
       <==> |Encode(v)| == 1 || !(at + |Encode(n)| <= off < at + |Encode(n)| + n)
  {
    hide Encode, Patch, ReadOperand, Signed, Lies;
    OperandMoves(code, off, v, at, n);
    SmallIsSigned(n);
  }
}
