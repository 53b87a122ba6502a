/** What the parser has established about the tokens it consumed and the code it emitted. */
module Grammar {
  import opened Varint
  import opened Sequences
  import opened Bytecode
  import opened Tokens
  import opened Syntax

  /** The kind of the token at `i`; the end of the input lies on both sides. */
  function KindIn(toks: seq<Token>, i: int): nat {
    if 0 <= i < |toks| then Kind(toks[i]) else TOK_EOF
  }

  predicate CleanToken(t: Token) {
    t.Plain? ==> (TOK_EOF < t.tok < TOK_NUM || TOK_IDENT < t.tok)
  }

  /** No token pretends to be the end of the input, or a literal or an identifier without its text. */
  predicate Clean(toks: seq<Token>) {
    forall i :: 0 <= i < |toks| ==> CleanToken(toks[i])
  }

  /** The tokens from `start` to `pos` write `e`, its code has been appended to `base`, and it is a tree of
      the grammar at `level` whose identifiers are read or updated as their neighbours demand. */
  ghost predicate Parsed(toks: seq<Token>, start: int, pos: int, base: seq<Byte>, done: seq<Byte>, e: Expr, level: nat) {
    0 <= start < pos <= |toks| && toks[start..pos] == Written(e) && done == base + Code(e) && Fits(e, level)
    && Placed(e, KindIn(toks, start - 1), KindIn(toks, pos))
  }

  lemma PlainAt(toks: seq<Token>, i: int)
    requires Clean(toks) && KindIn(toks, i) != TOK_EOF && (KindIn(toks, i) < TOK_NUM || KindIn(toks, i) > TOK_IDENT)
    ensures 0 <= i < |toks| && toks[i] == Plain(KindIn(toks, i))
  {}

  lemma Spread(toks: seq<Token>, a: int, b: int, c: int)
    requires 0 <= a <= b <= c <= |toks|
    ensures toks[a..c] == toks[a..b] + toks[b..c]
  {}

  /** Two stretches of tokens around one token. */
  lemma Around3(toks: seq<Token>, a: int, b: int, c: int, t: Token)
    requires 0 <= a <= b < c <= |toks| && toks[b] == t
    ensures toks[a..c] == toks[a..b] + [t] + toks[b + 1..c]
  {}

  lemma ParsedAtoms(toks: seq<Token>, p: int, base: seq<Byte>, e: Expr)
    requires 0 <= p < |toks| && (e.Lit? || e.Ident? || e.Ref?)
    requires Written(e) == [toks[p]] && (e.Ident? || e.Ref? ==> (e.Ref? <==> Updates(KindIn(toks, p - 1), KindIn(toks, p + 1))))
    ensures Parsed(toks, p, p + 1, base, base + Code(e), e, PRIMARY_LEVEL)
  {
    assert toks[p..p + 1] == [toks[p]];
  }

  /** A tree that fits a tight level fits a looser one. */
  lemma Loosen(toks: seq<Token>, start: int, pos: int, base: seq<Byte>, done: seq<Byte>, e: Expr, level: nat, tighter: nat)
    requires Parsed(toks, start, pos, base, done, e, tighter) && level <= tighter
    ensures Parsed(toks, start, pos, base, done, e, level)
  {
    hide Code, Written, Placed;
  }

  lemma ParsedParen(toks: seq<Token>, p: int, q: int, base: seq<Byte>, done: seq<Byte>, e: Expr)
    requires Clean(toks) && KindIn(toks, p) == TOK_OPEN_PAREN && KindIn(toks, q) == TOK_CLOSE_PAREN
    requires Parsed(toks, p + 1, q, base, done, e, ASSIGN_LEVEL)
    ensures Parsed(toks, p, q + 1, base, done, Paren(e), PRIMARY_LEVEL)
  {
    hide Clean;
    PlainAt(toks, p);
    PlainAt(toks, q);
    Between(toks, p, q);
  }

  lemma Between(toks: seq<Token>, p: int, q: int)
    requires 0 <= p < q < |toks|
    ensures toks[p..q + 1] == [toks[p]] + toks[p + 1..q] + [toks[q]]
  {}

  lemma ParsedUnary(toks: seq<Token>, p: int, q: int, base: seq<Byte>, done: seq<Byte>, op: nat, e: Expr)
    requires Clean(toks) && KindIn(toks, p) == op && IsUnary(op)
    requires Parsed(toks, p + 1, q, base, done, e, UNARY_LEVEL)
    ensures Parsed(toks, p, q, base, done + Asm(Instr.Expr(OpByte(UnaryCode(op)))), Unary(op, e), UNARY_LEVEL)
  {
    hide Code, Written, Fits, Placed, Clean, Asm, UnaryCode, OpByte;
    PlainAt(toks, p);
    UnaryParts(op, e);
    Front(toks, p, q);
    Assoc(base, Code(e), Asm(Instr.Expr(OpByte(UnaryCode(op)))));
    UnaryFits(op, e, KindIn(toks, p - 1), KindIn(toks, q));
  }

  lemma Front(toks: seq<Token>, a: int, c: int)
    requires 0 <= a < c <= |toks|
    ensures toks[a..c] == [toks[a]] + toks[a + 1..c]
  {}

  lemma UnaryParts(op: nat, e: Expr)
    requires IsUnary(op)
    ensures Code(Unary(op, e)) == Code(e) + Asm(Instr.Expr(OpByte(UnaryCode(op))))
    ensures Written(Unary(op, e)) == [Plain(op)] + Written(e)
  {}

  lemma UnaryFits(op: nat, e: Expr, prev: nat, next: nat)
    requires IsUnary(op) && Fits(e, UNARY_LEVEL) && Placed(e, op, next)
    ensures Fits(Unary(op, e), UNARY_LEVEL) && Placed(Unary(op, e), prev, next)
  {}

  lemma ParsedPostfix(toks: seq<Token>, p: int, q: int, base: seq<Byte>, done: seq<Byte>, op: nat, e: Expr)
    requires Clean(toks) && KindIn(toks, q) == op && IsCrement(op)
    requires Parsed(toks, p, q, base, done, e, PRIMARY_LEVEL)
    ensures Parsed(toks, p, q + 1, base, done + Asm(Instr.Expr(OpByte(PostfixCode(op)))), Postfix(op, e), UNARY_LEVEL)
  {
    hide Clean;
    PlainAt(toks, q);
    assert toks[p..q + 1] == toks[p..q] + [toks[q]];
    Assoc(base, Code(e), Asm(Instr.Expr(OpByte(PostfixCode(op)))));
  }

  lemma BinaryParts(op: nat, l: Expr, r: Expr)
    requires IsBinary(op)
    ensures Code(Binary(op, l, r)) == Code(l) + Code(r) + Asm(Instr.Expr(OpByte(op)))
    ensures Written(Binary(op, l, r)) == Written(l) + [Plain(op)] + Written(r)
  {}

  lemma BinaryFits(level: nat, op: nat, l: Expr, r: Expr, prev: nat, next: nat)
    requires 4 <= level < UNARY_LEVEL && OpAt(level, op) && Fits(l, level) && Fits(r, level + 1)
    requires Placed(l, prev, op) && Placed(r, op, next)
    ensures Fits(Binary(op, l, r), level) && Placed(Binary(op, l, r), prev, next)
  {}

  /** An operator between a tree of its level on the left and a tighter one on the right. */
  lemma ParsedBinary(toks: seq<Token>, start: int, p: int, q: int, base: seq<Byte>, d1: seq<Byte>, d2: seq<Byte>,
                     level: nat, op: nat, l: Expr, r: Expr)
    requires Clean(toks) && 4 <= level < UNARY_LEVEL && OpAt(level, op) && KindIn(toks, p) == op
    requires Parsed(toks, start, p, base, d1, l, level) && Parsed(toks, p + 1, q, d1, d2, r, level + 1)
    ensures Parsed(toks, start, q, base, d2 + Asm(Instr.Expr(OpByte(op))), Binary(op, l, r), level)
  {
    hide Code, Written, Fits, Placed, Clean, Asm, OpByte;
    PlainAt(toks, p);
    BinaryParts(op, l, r);
    Around3(toks, start, p, q, Plain(op));
    Gather(base, Code(l), Code(r), Asm(Instr.Expr(OpByte(op))));
    BinaryFits(level, op, l, r, KindIn(toks, start - 1), KindIn(toks, q));
  }

  lemma Gather(base: seq<Byte>, a: seq<Byte>, b: seq<Byte>, c: seq<Byte>)
    ensures base + a + b + c == base + (a + b + c)
  {}

  lemma ParsedAssign(toks: seq<Token>, start: int, p: int, q: int, base: seq<Byte>, d1: seq<Byte>, d2: seq<Byte>,
                     op: nat, l: Expr, r: Expr)
    requires Clean(toks) && IsAssignOp(op) && KindIn(toks, p) == op
    requires Parsed(toks, start, p, base, d1, l, TERNARY_LEVEL) && Parsed(toks, p + 1, q, d1, d2, r, ASSIGN_LEVEL)
    ensures Parsed(toks, start, q, base, d2 + Asm(Instr.Expr(OpByte(op))), Assign(op, l, r), ASSIGN_LEVEL)
  {
    hide Code, Written, Fits, Placed, Clean, Asm, OpByte, OpAt;
    PlainAt(toks, p);
    AssignParts(op, l, r, KindIn(toks, start - 1), KindIn(toks, q));
    Around3(toks, start, p, q, Plain(op));
    Gather(base, Code(l), Code(r), Asm(Instr.Expr(OpByte(op))));
  }

  lemma AssignParts(op: nat, l: Expr, r: Expr, prev: nat, next: nat)
    requires IsAssignOp(op) && Fits(l, TERNARY_LEVEL) && Fits(r, ASSIGN_LEVEL) && Placed(l, prev, op) && Placed(r, op, next)
    ensures Code(Assign(op, l, r)) == Code(l) + Code(r) + Asm(Instr.Expr(OpByte(op)))
    ensures Written(Assign(op, l, r)) == Written(l) + [Plain(op)] + Written(r)
    ensures Fits(Assign(op, l, r), ASSIGN_LEVEL) && Placed(Assign(op, l, r), prev, next)
  {}

  // ----- patching -----

  /** `mjs_bcode_insert_offset`: the one byte reserved at `off` gives way to the encoding of `v`. */
  function Patch(code: seq<Byte>, off: nat, v: nat): seq<Byte>
    requires off < |code|
  {
    code[..off] + Encode(v) + code[off + 1..]
  }

  /** Patching the byte between two stretches of code. */
  lemma PatchBetween(a: seq<Byte>, b: Byte, c: seq<Byte>, v: nat)
    ensures Patch(a + [b] + c, |a|, v) == a + Encode(v) + c
  {
    var s := a + [b] + c;
    assert s[..|a|] == a && s[|a| + 1..] == c;
  }

  lemma LogicalParts(level: nat, op: nat, l: Expr, r: Expr, prev: nat, next: nat)
    requires (level == OR_LEVEL || level == AND_LEVEL) && OpAt(level, op) && Fits(l, level + 1) && Fits(r, level)
    requires Placed(l, prev, op) && Placed(r, op, next)
    ensures Code(Logical(op, l, r)) == Code(l) + SkipCode(op, |Code(r)|) + Code(r)
    ensures Written(Logical(op, l, r)) == Written(l) + [Plain(op)] + Written(r)
    ensures Fits(Logical(op, l, r), level) && Placed(Logical(op, l, r), prev, next)
  {}

  function JumpByte(op: nat): Byte {
    if op == TOK_LOGICAL_OR then OP_JMP_NEUTRAL_TRUE else OP_JMP_NEUTRAL_FALSE
  }

  /** A logical operator whose jump has been patched with the length of what it may skip. */
  lemma ParsedLogical(toks: seq<Token>, start: int, p: int, q: int, base: seq<Byte>, d1: seq<Byte>, d2: seq<Byte>,
                      level: nat, op: nat, l: Expr, r: Expr)
    requires Clean(toks) && (level == OR_LEVEL || level == AND_LEVEL) && OpAt(level, op) && KindIn(toks, p) == op
    requires Parsed(toks, start, p, base, d1, l, level + 1)
    requires Parsed(toks, p + 1, q, d1 + [JumpByte(op)] + [0] + [OP_DROP], d2, r, level)
    ensures |d1| + 1 < |d2|
    ensures Parsed(toks, start, q, base, Patch(d2, |d1| + 1, |d2| - (|d1| + 1) - 1), Logical(op, l, r), level)
  {
    hide Code, Written, Fits, Placed, Clean, Encode, Patch;
    PlainAt(toks, p);
    LogicalParts(level, op, l, r, KindIn(toks, start - 1), KindIn(toks, q));
    Around3(toks, start, p, q, Plain(op));
    var a, c := d1 + [JumpByte(op)], [OP_DROP] + Code(r);
    assert d2 == a + [0] + c;
    PatchBetween(a, 0, c, |c|);
    LogicalBytes(base, l, r, op);
  }

  lemma LogicalBytes(base: seq<Byte>, l: Expr, r: Expr, op: nat)
    ensures base + Code(l) + [JumpByte(op)] + Encode(|[OP_DROP] + Code(r)|) + ([OP_DROP] + Code(r))
         == base + (Code(l) + SkipCode(op, |Code(r)|) + Code(r))
  {
    hide Code, Encode;
  }

  /** A two-way branch before its jumps are patched. */
  function Unpatched(t: seq<Byte>, f: seq<Byte>): seq<Byte> {
    [OP_JMP_FALSE] + [0] + t + [OP_JMP] + [0] + [OP_DROP] + f
  }

  /** Patching the jump behind the first branch moves the second; the jump in front then has further to go. */
  lemma BranchBytes(d: seq<Byte>, t: seq<Byte>, f: seq<Byte>)
    ensures var whole := d + Unpatched(t, f);
            var offIf, offElse := |d| + 1, |d| + 3 + |t|;
            var n2 := 1 + |f|;
            offElse < |whole| && n2 == |whole| - offElse - 1
            && offIf < |Patch(whole, offElse, n2)|
            && Patch(Patch(whole, offElse, n2), offIf, ElseDistance(|t|, |f|)) == d + Branches(t, f)
    ensures ElseDistance(|t|, |f|) == |t| + 1 + |Encode(1 + |f|)|
  {
    hide Encode, Patch;
    var n1, n2 := ElseDistance(|t|, |f|), 1 + |f|;
    var a, c := d + [OP_JMP_FALSE] + [0] + t + [OP_JMP], [OP_DROP] + f;
    UnpatchedParts(d, t, f, [0], Encode(n2));
    PatchBetween(a, 0, c, n2);
    var b, e := d + [OP_JMP_FALSE], t + [OP_JMP] + Encode(n2) + [OP_DROP] + f;
    PatchBetween(b, 0, e, n1);
    BranchesBytes(d, t, f);
  }

  lemma UnpatchedParts(d: seq<Byte>, t: seq<Byte>, f: seq<Byte>, z: seq<Byte>, e2: seq<Byte>)
    ensures d + ([OP_JMP_FALSE] + z + t + [OP_JMP] + z + [OP_DROP] + f) == d + [OP_JMP_FALSE] + z + t + [OP_JMP] + z + ([OP_DROP] + f)
    ensures d + [OP_JMP_FALSE] + z + t + [OP_JMP] + e2 + ([OP_DROP] + f) == d + [OP_JMP_FALSE] + z + (t + [OP_JMP] + e2 + [OP_DROP] + f)
  {}

  lemma BranchesBytes(d: seq<Byte>, t: seq<Byte>, f: seq<Byte>)
    ensures d + [OP_JMP_FALSE] + Encode(ElseDistance(|t|, |f|)) + (t + [OP_JMP] + Encode(1 + |f|) + [OP_DROP] + f)
         == d + Branches(t, f)
  {
    hide Encode, Branches, ElseDistance, Asm;
    BranchesForm(t, f);
    Flatten(d, [OP_JMP_FALSE], Encode(ElseDistance(|t|, |f|)), t, [OP_JMP], Encode(1 + |f|), [OP_DROP], f);
  }

  lemma JumpBytes(n: nat)
    ensures Asm(JmpFalse(n)) == [OP_JMP_FALSE] + Encode(n) && Asm(Jmp(n)) == [OP_JMP] + Encode(n) && Asm(Drop) == [OP_DROP]
  {
    hide Encode;
  }

  lemma BranchesForm(t: seq<Byte>, f: seq<Byte>)
    ensures Branches(t, f)
         == [OP_JMP_FALSE] + Encode(ElseDistance(|t|, |f|)) + t + ([OP_JMP] + Encode(1 + |f|) + [OP_DROP]) + f
  {
    hide Encode, Asm, ElseDistance;
    JumpBytes(ElseDistance(|t|, |f|));
    JumpBytes(1 + |f|);
  }

  lemma Flatten(d: seq<Byte>, a: seq<Byte>, e1: seq<Byte>, t: seq<Byte>, b: seq<Byte>, e2: seq<Byte>, c: seq<Byte>, f: seq<Byte>)
    ensures d + a + e1 + (t + b + e2 + c + f) == d + (a + e1 + t + (b + e2 + c) + f)
  {}

  lemma ParsedCond(toks: seq<Token>, start: int, p: int, q: int, r: int, base: seq<Byte>, d1: seq<Byte>, d2: seq<Byte>,
                   d3: seq<Byte>, c: Expr, t: Expr, f: Expr)
    requires Clean(toks) && KindIn(toks, p) == TOK_QUESTION && KindIn(toks, q) == TOK_COLON
    requires Parsed(toks, start, p, base, d1, c, OR_LEVEL)
    requires Parsed(toks, p + 1, q, d1 + [OP_JMP_FALSE] + [0], d2, t, TERNARY_LEVEL)
    requires Parsed(toks, q + 1, r, d2 + [OP_JMP] + [0] + [OP_DROP], d3, f, TERNARY_LEVEL)
    ensures d3 == d1 + Unpatched(Code(t), Code(f))
    ensures |d2| == |d1| + 2 + |Code(t)| && |d3| == |d2| + 3 + |Code(f)|
    ensures Parsed(toks, start, r, base, d1 + Branches(Code(t), Code(f)), Cond(c, t, f), TERNARY_LEVEL)
  {
    hide Code, Written, Fits, Placed, Clean, Branches;
    PlainAt(toks, p);
    PlainAt(toks, q);
    CondParts(c, t, f, KindIn(toks, start - 1), KindIn(toks, r));
    CondTokens(toks, start, p, q, r);
    assert d3 == d1 + Unpatched(Code(t), Code(f)) by {
      CondCode(d1, Code(t), Code(f));
    }
    Assoc(base, Code(c), Branches(Code(t), Code(f)));
  }

  lemma CondTokens(toks: seq<Token>, start: int, p: int, q: int, r: int)
    requires 0 <= start <= p < q < r <= |toks|
    ensures toks[start..r] == toks[start..p] + [toks[p]] + toks[p + 1..q] + [toks[q]] + toks[q + 1..r]
  {}

  lemma CondCode(d: seq<Byte>, t: seq<Byte>, f: seq<Byte>)
    ensures d + [OP_JMP_FALSE] + [0] + t + [OP_JMP] + [0] + [OP_DROP] + f == d + Unpatched(t, f)
  {}

  lemma CondParts(c: Expr, t: Expr, f: Expr, prev: nat, next: nat)
    requires Fits(c, OR_LEVEL) && Fits(t, TERNARY_LEVEL) && Fits(f, TERNARY_LEVEL)
    requires Placed(c, prev, TOK_QUESTION) && Placed(t, TOK_QUESTION, TOK_COLON) && Placed(f, TOK_COLON, next)
    ensures Code(Cond(c, t, f)) == Code(c) + Branches(Code(t), Code(f))
    ensures Written(Cond(c, t, f)) == Written(c) + [Plain(TOK_QUESTION)] + Written(t) + [Plain(TOK_COLON)] + Written(f)
    ensures Fits(Cond(c, t, f), TERNARY_LEVEL) && Placed(Cond(c, t, f), prev, next)
  {}
}
