/** The one-pass compiler: recursive descent that inserts bytecode as it goes and patches it afterwards. */
module Parser {
  import opened Options
  import opened Varint
  import opened Sequences
  import opened Bytecode
  import opened Tokens
  import opened Syntax
  import opened Grammar
  import opened Reader
  import opened Agreement
  import opened StmtReader
  import opened StmtAgreement
  import opened Canonical
  import opened StmtGrammar

  /** `Outside` marks programs that leave the modelled fragment. */
  datatype Result = Accepted | SyntaxError | Outside

  /** `struct pstate`, with the token sequence in place of the source text. `code` is `bcode_gen`. */
  class Pstate {
    const toks: seq<Token>
    var pos: int
    var code: seq<Byte>
    var curIdx: nat
    var depth: int

    predicate Valid()
      reads this
    {
      Clean(toks) && -1 <= pos <= |toks| && curIdx <= |code|
    }

    /** The code up to the place where the next byte goes. */
    function Done(): seq<Byte>
      reads this
      requires Valid()
    {
      code[..curIdx]
    }

    function Rest(): seq<Byte>
      reads this
      requires Valid()
    {
      code[curIdx..]
    }

    function Tok(): nat
      reads this
    {
      KindIn(toks, pos)
    }

    /** `pnext`. */
    method Next()
      requires Valid() && pos < |toks|
      modifies this`pos
      ensures Valid() && pos == old(pos) + 1
    {
      pos := pos + 1;
    }

    /** `emit_byte`. */
    method EmitByte(b: Byte)
      requires Valid()
      modifies this`code, this`curIdx
      ensures Valid() && Done() == old(Done()) + [b] && Rest() == old(Rest())
    {
      Emit([b]);
    }

    /** Inserting bytes at the cursor. */
    method Emit(bytes: seq<Byte>)
      requires Valid()
      modifies this`code, this`curIdx
      ensures Valid() && Done() == old(Done()) + bytes && Rest() == old(Rest())
    {
      code := code[..curIdx] + bytes + code[curIdx..];
      curIdx := curIdx + |bytes|;
    }

    /** `mjs_bcode_insert_offset`: the bytes behind `off` move to make room, and the cursor moves along. */
    method InsertOffset(off: nat, v: nat) returns (diff: int)
      requires Valid() && off < curIdx
      modifies this`code, this`curIdx
      ensures Valid() && diff == |Encode(v)| - 1
      ensures Done() == Patch(old(Done()), off, v) && Rest() == old(Rest())
    {
      var llen := Llen(v);
      diff := llen - 1;
      ghost var before, after := Done(), Rest();
      code := code[..off] + Encode(v) + code[off + 1..];
      if curIdx >= off {
        curIdx := curIdx + diff;
      }
      InsertedAt(before, after, off, v);
    }

    /** Since it read `base`, the parser has consumed the tokens of `e` from `start` on and emitted its code. */
    ghost predicate Wrote(start: int, base: seq<Byte>, e: Expr, level: nat)
      reads this
      requires Valid()
    {
      Parsed(toks, start, pos, base, Done(), e, level)
    }

    /** `parse_literal`. */
    method ParseLiteral() returns (res: Result, ghost e: Expr)
      requires Valid() && pos >= 0 && depth <= DEPTH_LIMIT
      modifies this
      ensures Valid() && pos >= old(pos) && Rest() == old(Rest()) && depth == old(depth)
      ensures res.Accepted? ==> Wrote(old(pos), old(Done()), e, PRIMARY_LEVEL)
      ensures Agrees(res.Accepted?, e, toks, pos, ReadPrimary(KindIn(toks, old(pos) - 1), toks[old(pos)..]), PRIMARY_LEVEL, old(depth))
      decreases |toks| - pos, 2
    {
      hide Parsed, Clean, ReadPrimary, Read, Peak;
      e := Lit(LitNull);
      ghost var p, d := pos, depth;
      if pos == |toks| {
        NoPrimary(toks, p, KindIn(toks, p - 1), e, p, d);
        return SyntaxError, e;
      }
      var t := toks[pos];
      ghost var base := Done();
      var lit := LiteralAt(t);
      if lit.Some? {
        e := Lit(lit.value);
        Emit(Asm(LiteralCode(lit.value)));
        ParsedAtoms(toks, pos, base, e);
        Next();
        LiteralAgrees(toks, p, KindIn(toks, p - 1), e, d);
        res := Accepted;
      } else if t.Name? {
        res, e := ParseIdent();
      } else if t.tok == TOK_OPEN_PAREN {
        res, e := ParseParen();
      } else if t.tok == TOK_OPEN_BRACKET || t.tok == TOK_OPEN_CURLY || t.tok == TOK_KEYWORD_FUNCTION {
        NoPrimary(toks, p, KindIn(toks, p - 1), e, p, d);
        res := Outside;
      } else {
        NoPrimary(toks, p, KindIn(toks, p - 1), e, p, d);
        res := SyntaxError;
      }
    }

    /** An identifier: its neighbours decide whether its value is fetched. */
    method ParseIdent() returns (res: Result, ghost e: Expr)
      requires Valid() && 0 <= pos < |toks| && toks[pos].Name? && depth <= DEPTH_LIMIT
      modifies this
      ensures Valid() && pos >= old(pos) && Rest() == old(Rest()) && depth == old(depth)
      ensures res.Accepted? ==> Wrote(old(pos), old(Done()), e, PRIMARY_LEVEL)
      ensures Agrees(res.Accepted?, e, toks, pos, ReadPrimary(KindIn(toks, old(pos) - 1), toks[old(pos)..]), PRIMARY_LEVEL, old(depth))
    {
      hide Parsed, Clean, Updates, Asm, RefCode, ReadPrimary, Peak;
      var x := toks[pos].text;
      var prev, next := KindIn(toks, pos - 1), KindIn(toks, pos + 1);
      e := Ref(x);
      NameAgrees(toks, pos, prev, if Updates(prev, next) then Ref(x) else Ident(x), depth);
      if prev == TOK_DOT {
        return Outside, e;
      }
      ghost var base := Done();
      Emit(Asm(PushStr(x)));
      Emit(Asm(FindScope));
      RefBytes(base, x);
      if !Updates(prev, next) {
        Emit(Asm(Get));
        e := Ident(x);
        Assoc(base, RefCode(x), Asm(Get));
      }
      ParsedAtoms(toks, pos, base, e);
      Next();
      res := Accepted;
    }

    method ParseParen() returns (res: Result, ghost e: Expr)
      requires Valid() && Tok() == TOK_OPEN_PAREN
      modifies this
      ensures Valid() && pos >= old(pos) && Rest() == old(Rest()) && depth == old(depth)
      ensures res.Accepted? ==> Wrote(old(pos), old(Done()), e, PRIMARY_LEVEL)
      ensures Agrees(res.Accepted?, e, toks, pos, ReadPrimary(KindIn(toks, old(pos) - 1), toks[old(pos)..]), PRIMARY_LEVEL, old(depth))
      decreases |toks| - pos, 1
    {
      hide Parsed, Clean, ReadPrimary, Read, Peak;
      ghost var p, d, base := pos, depth, Done();
      Next();
      res, e := ParseExpr();
      ParenAgrees(res.Accepted?, e, toks, p, pos, KindIn(toks, p - 1), d);
      if !res.Accepted? {
        return;
      }
      if Tok() != TOK_CLOSE_PAREN {
        return SyntaxError, e;
      }
      ParsedParen(toks, p, pos, base, Done(), e);
      e := Paren(e);
      Next();
    }

    /** `parse_call_dot_mem` and `parse_postfix`, without members and calls. */
    method ParsePostfix() returns (res: Result, ghost e: Expr)
      requires Valid() && pos >= 0 && depth <= DEPTH_LIMIT
      modifies this
      ensures Valid() && pos >= old(pos) && Rest() == old(Rest()) && depth == old(depth)
      ensures res.Accepted? ==> Wrote(old(pos), old(Done()), e, UNARY_LEVEL)
      ensures Agrees(res.Accepted?, e, toks, pos, ReadPostfix(KindIn(toks, old(pos) - 1), toks[old(pos)..]), UNARY_LEVEL, old(depth))
      decreases |toks| - pos, 3
    {
      hide Parsed, Clean, ReadPrimary, ReadPostfix, Peak;
      ghost var start, base, d := pos, Done(), depth;
      res, e := ParseLiteral();
      PostfixAgrees(res.Accepted?, e, toks, pos, KindIn(toks, start - 1), toks[start..], d);
      if !res.Accepted? {
        return;
      }
      var tok := Tok();
      if tok == TOK_DOT || tok == TOK_OPEN_PAREN || tok == TOK_OPEN_BRACKET {
        return Outside, e;
      }
      if tok == TOK_PLUS_PLUS || tok == TOK_MINUS_MINUS {
        ParsedPostfix(toks, start, pos, base, Done(), tok, e);
        e := Postfix(tok, e);
        Emit(Asm(Instr.Expr(OpByte(PostfixCode(tok)))));
        Next();
      } else {
        Loosen(toks, start, pos, base, Done(), e, UNARY_LEVEL, PRIMARY_LEVEL);
      }
    }

    /** `parse_unary`. */
    method ParseUnary() returns (res: Result, ghost e: Expr)
      requires Valid() && pos >= 0 && depth <= DEPTH_LIMIT
      modifies this
      ensures Valid() && pos >= old(pos) && Rest() == old(Rest()) && depth == old(depth)
      ensures res.Accepted? ==> Wrote(old(pos), old(Done()), e, UNARY_LEVEL)
      ensures Agrees(res.Accepted?, e, toks, pos, ReadUnary(KindIn(toks, old(pos) - 1), toks[old(pos)..]), UNARY_LEVEL, old(depth))
      decreases |toks| - pos, 4
    {
      hide Parsed, Clean, ReadUnary, ReadPostfix, Peak;
      var op := TOK_EOF;
      ghost var start, base, d := pos, Done(), depth;
      if IsUnary(Tok()) {
        op := Tok();
        Next();
      }
      if IsUnary(Tok()) {
        res, e := ParseUnary();
      } else {
        NoUnary(toks, pos, KindIn(toks, pos - 1));
        res, e := ParsePostfix();
      }
      if op != TOK_EOF {
        UnaryAgrees(res.Accepted?, e, toks, start, pos, KindIn(toks, start - 1), op, d);
      }
      if res.Accepted? && op != TOK_EOF {
        ParsedUnary(toks, start, pos, base, Done(), op, e);
        e := Unary(op, e);
        Emit(Asm(Instr.Expr(OpByte(UnaryCode(op)))));
      }
    }

    /** What `PARSE_LTR_BINOP` is called with: nothing, or a left operand that is already compiled and the
        operator behind it, which is to be emitted after the next operand. The level was entered at depth `d`. */
    ghost predicate Pending(level: nat, prevOp: nat, start: int, base: seq<Byte>, left: Expr, d: int)
      reads this
      requires Valid()
    {
      0 <= pos && OR_LEVEL <= level < UNARY_LEVEL && Behind(toks, pos, level, prevOp)
      && depth == Entered(level, prevOp, left, d)
      && if prevOp == TOK_EOF then start == pos && base == Done()
         else Parsed(toks, start, pos - 1, base, Done(), left, level) && d + Peak(left, level) <= DEPTH_LIMIT
    }

    /** The next operand, of the next tighter level. */
    method ParseTighter(level: nat) returns (res: Result, ghost e: Expr)
      requires Valid() && 0 <= pos && OR_LEVEL <= level < UNARY_LEVEL && depth <= DEPTH_LIMIT
      modifies this
      ensures Valid() && pos >= old(pos) && Rest() == old(Rest()) && depth == old(depth)
      ensures res.Accepted? ==> Wrote(old(pos), old(Done()), e, level + 1)
      ensures Agrees(res.Accepted?, e, toks, pos, Read(level + 1, KindIn(toks, old(pos) - 1), toks[old(pos)..]), level + 1, old(depth))
      decreases |toks| - pos, 20 - level, 0
    {
      hide Parsed, Clean, OpAt, Peak, Ops, Read, ReadMore, ReadUnary, Fits;
      if level + 1 == UNARY_LEVEL {
        ReadTight(KindIn(toks, pos - 1), toks[pos..]);
        res, e := ParseUnary();
      } else {
        res, e := ParseLevel(level + 1, TOK_EOF, pos, Done(), Lit(LitNull), depth);
      }
    }

    /** One level of `PARSE_LTR_BINOP`; the level decides `f1`, `f2` and `ops`. */
    method ParseLevel(level: nat, prevOp: nat, ghost start: int, ghost base: seq<Byte>, ghost left: Expr, ghost d: int)
      returns (res: Result, ghost e: Expr)
      requires Valid() && Pending(level, prevOp, start, base, left, d)
      modifies this
      ensures Valid() && pos >= old(pos) && Rest() == old(Rest()) && depth == old(depth)
      ensures res.Accepted? ==> Wrote(start, base, e, level)
      ensures Agrees(res.Accepted?, e, toks, pos, Sought(toks, old(pos), level, prevOp, left), level, d)
      decreases |toks| - pos, 20 - level, 1
    {
      hide Parsed, Clean, OpAt, Peak, Ops, Read, ReadMore, ReadUnary, Fits;
      e := left;
      ghost var here, d1 := pos, Done();
      depth := depth + 1;
      if depth > DEPTH_LIMIT {
        LevelFull(toks, here, level, prevOp, left, e, here, d);
        depth := depth - 1;
        return SyntaxError, e;
      }
      res, e := ParseTighter(level);
      LevelOperand(res.Accepted?, e, toks, here, pos, level, prevOp, left, d);
      if res.Accepted? {
        res, e := ParseBehind(level, prevOp, start, base, left, here, d1, e, d);
      }
      depth := depth - 1;
    }

    /** The operand `r` of such a call is compiled; it was read at `here`, behind the code `d1`. */
    ghost predicate Operand(level: nat, prevOp: nat, start: int, base: seq<Byte>, left: Expr, here: int, d1: seq<Byte>, r: Expr, d: int)
      reads this
      requires Valid()
    {
      0 <= pos && OR_LEVEL <= level < UNARY_LEVEL && 0 <= here <= |toks| && Behind(toks, here, level, prevOp)
      && Wrote(here, d1, r, level + 1)
      && (if prevOp == TOK_EOF then start == here && base == d1 && Fits(r, level + 1)
          else Parsed(toks, start, here - 1, base, d1, left, level))
      && depth == d + 1 + Ops(Joined(prevOp, left, r), level) && d + Peak(Joined(prevOp, left, r), level) <= DEPTH_LIMIT
    }

    /** What follows the operand on this level, once the operator in front of it has been emitted. */
    method ParseBehind(level: nat, prevOp: nat, ghost start: int, ghost base: seq<Byte>, ghost left: Expr, ghost here: int,
                       ghost d1: seq<Byte>, ghost r: Expr, ghost d: int)
      returns (res: Result, ghost e: Expr)
      requires Valid() && Operand(level, prevOp, start, base, left, here, d1, r, d)
      modifies this
      ensures Valid() && pos >= old(pos) && Rest() == old(Rest()) && depth == old(depth)
      ensures res.Accepted? ==> Wrote(start, base, e, level)
      ensures Agrees(res.Accepted?, e, toks, pos, ReadMore(level, Joined(prevOp, left, r), toks[old(pos)..]), level, d)
      decreases |toks| - pos, 1
    {
      hide Parsed, Clean, OpAt, Peak, Ops, Read, ReadMore, ReadUnary, Fits, Behind;
      e := Joined(prevOp, left, r);
      EmitOperator(level, prevOp, start, base, left, here, d1, r, d);
      if OpAt(level, Tok()) {
        res, e := ParseRight(level, start, base, e, d);
      } else {
        res := Accepted;
        LevelStop(e, toks, pos, level, d);
        if IsLogicalLevel(level) {
          Loosen(toks, start, pos, base, Done(), e, level, level + 1);
        }
      }
    }

    /** The operator in front of the operand, if there is one. */
    method EmitOperator(level: nat, prevOp: nat, ghost start: int, ghost base: seq<Byte>, ghost left: Expr, ghost here: int,
                        ghost d1: seq<Byte>, ghost r: Expr, ghost d: int)
      requires Valid() && Operand(level, prevOp, start, base, left, here, d1, r, d)
      modifies this
      ensures Valid() && pos == old(pos) && Rest() == old(Rest()) && depth == old(depth)
      ensures Wrote(start, base, Joined(prevOp, left, r), if IsLogicalLevel(level) then level + 1 else level)
    {
      hide Parsed, Clean, OpAt, Peak, Ops, Fits;
      if prevOp != TOK_EOF {
        ParsedBinary(toks, start, here - 1, pos, base, d1, Done(), level, prevOp, left, r);
        Emit(Asm(Instr.Expr(OpByte(prevOp))));
      } else {
        Loosen(toks, here, pos, d1, Done(), r, if IsLogicalLevel(level) then level + 1 else level, level + 1);
      }
    }

    /** The operator at the cursor and everything of its level behind it. For `&&` and `||` a jump around the
        right operand is emitted and patched, and no operator is left to emit. */
    method ParseRight(level: nat, ghost start: int, ghost base: seq<Byte>, ghost l: Expr, ghost d: int)
      returns (res: Result, ghost e: Expr)
      requires Valid() && pos >= 0 && OR_LEVEL <= level < UNARY_LEVEL && OpAt(level, Tok())
      requires Wrote(start, base, l, if IsLogicalLevel(level) then level + 1 else level)
      requires depth == d + 1 + Ops(l, level) && d + Peak(l, level) <= DEPTH_LIMIT
      modifies this
      ensures Valid() && pos >= old(pos) && Rest() == old(Rest()) && depth == old(depth)
      ensures res.Accepted? ==> Wrote(start, base, e, level)
      ensures Agrees(res.Accepted?, e, toks, pos, ReadMore(level, l, toks[old(pos)..]), level, d)
      decreases |toks| - pos, 0
    {
      hide Parsed, Clean, OpAt, Peak, Ops, Read, ReadMore, ReadUnary, Fits;
      var op := Tok();
      ghost var p, d1 := pos, Done();
      OperatorAt(toks, pos, level);
      var offIf := 0;
      if IsLogicalLevel(level) {
        EmitByte(JumpByte(op));
        offIf := curIdx;
        EmitByte(0);
        EmitByte(OP_DROP);
      }
      Next();
      if IsLogicalLevel(level) {
        LogicalLeft(toks, start, p, base, d1, l, level);
        res, e := ParseLevel(level, TOK_EOF, pos, Done(), l, depth);
        LogicalAgrees(res.Accepted?, l, e, toks, p, pos, level, d);
        if res.Accepted? {
          ParsedLogical(toks, start, p, pos, base, d1, Done(), level, op, l, e);
          var _ := InsertOffset(offIf, curIdx - offIf - 1);
          e := Logical(op, l, e);
        }
      } else {
        res, e := ParseLevel(level, op, start, base, l, d);
      }
    }

    predicate IsLogicalLevel(level: nat) {
      level == OR_LEVEL || level == AND_LEVEL
    }

    /** `parse_ternary`. */
    method ParseTernary() returns (res: Result, ghost e: Expr)
      requires Valid() && pos >= 0
      modifies this
      ensures Valid() && pos >= old(pos) && Rest() == old(Rest()) && depth == old(depth)
      ensures res.Accepted? ==> Wrote(old(pos), old(Done()), e, TERNARY_LEVEL)
      ensures Agrees(res.Accepted?, e, toks, pos, Read(TERNARY_LEVEL, KindIn(toks, old(pos) - 1), toks[old(pos)..]), TERNARY_LEVEL, old(depth))
      decreases |toks| - pos, 21
    {
      hide Parsed, Clean, Read, ReadBranches, Peak;
      ghost var start, base := pos, Done();
      res, e := ParseLevel(OR_LEVEL, TOK_EOF, pos, Done(), Lit(LitNull), depth);
      TernaryAgrees(res.Accepted?, e, toks, pos, KindIn(toks, start - 1), toks[start..], depth);
      if !res.Accepted? {
        return;
      }
      if Tok() == TOK_QUESTION {
        res, e := ParseBranches(start, base, e);
      } else {
        Loosen(toks, start, pos, base, Done(), e, TERNARY_LEVEL, OR_LEVEL);
      }
    }

    /** `? t : f` behind a condition. */
    method ParseBranches(ghost start: int, ghost base: seq<Byte>, ghost c: Expr) returns (res: Result, ghost e: Expr)
      requires Valid() && 0 <= pos < |toks| && Tok() == TOK_QUESTION && Wrote(start, base, c, OR_LEVEL)
      requires depth + Peak(c, OR_LEVEL) <= DEPTH_LIMIT
      modifies this
      ensures Valid() && pos >= old(pos) && Rest() == old(Rest()) && depth == old(depth)
      ensures res.Accepted? ==> Wrote(start, base, e, TERNARY_LEVEL)
      ensures Agrees(res.Accepted?, e, toks, pos, ReadBranches(c, toks[old(pos) + 1..]), TERNARY_LEVEL, old(depth))
      decreases |toks| - pos, 0
    {
      hide Parsed, Clean, Code, Encode, Patch, Branches, Read, ReadBranches, Peak;
      ghost var p, d1 := pos, Done();
      Next();
      EmitByte(OP_JMP_FALSE);
      var offIf := curIdx;
      EmitByte(0);
      ghost var t;
      res, t := ParseTernary();
      ThenAgrees(res.Accepted?, c, t, toks, p, pos, pos, depth);
      e := t;
      if !res.Accepted? {
        return;
      }
      ghost var q, d2 := pos, Done();
      EmitByte(OP_JMP);
      var offElse := curIdx;
      EmitByte(0);
      var offEndif := curIdx;
      EmitByte(OP_DROP);
      if Tok() != TOK_COLON {
        return SyntaxError, e;
      }
      Next();
      ghost var f;
      res, f := ParseTernary();
      CondAgrees(res.Accepted?, c, t, f, toks, p, q, pos, depth);
      if !res.Accepted? {
        return;
      }
      ParsedCond(toks, start, p, q, pos, base, d1, d2, Done(), c, t, f);
      CloseBranches(offIf, offElse, offEndif, d1, Code(t), Code(f));
      e := Cond(c, t, f);
    }

    /** The two jumps of a two-way branch. The second branch may move, and its start moves along. */
    method CloseBranches(offIf: nat, offElse: nat, offEndif: nat, ghost d: seq<Byte>, ghost t: seq<Byte>, ghost f: seq<Byte>)
      requires Valid() && Done() == d + Unpatched(t, f)
      requires offIf == |d| + 1 && offElse == |d| + 3 + |t| && offEndif == offElse + 1
      modifies this`code, this`curIdx
      ensures Valid() && Rest() == old(Rest()) && Done() == d + Branches(t, f)
    {
      hide Clean, Encode, Patch, Branches;
      BranchBytes(d, t, f);
      var diff := InsertOffset(offElse, curIdx - offElse - 1);
      var _ := InsertOffset(offIf, offEndif + diff - offIf - 1);
    }

    /** `parse_assignment`, which is `parse_expr`. */
    method ParseExpr() returns (res: Result, ghost e: Expr)
      requires Valid() && pos >= 0
      modifies this
      ensures Valid() && pos >= old(pos) && Rest() == old(Rest()) && depth == old(depth)
      ensures res.Accepted? ==> Wrote(old(pos), old(Done()), e, ASSIGN_LEVEL)
      ensures Agrees(res.Accepted?, e, toks, pos, Read(ASSIGN_LEVEL, KindIn(toks, old(pos) - 1), toks[old(pos)..]), ASSIGN_LEVEL, old(depth))
      decreases |toks| - pos, 22
    {
      hide Parsed, Clean, Read, Peak;
      ghost var start, base := pos, Done();
      res, e := ParseTernary();
      AssignAgrees(res.Accepted?, e, toks, pos, KindIn(toks, start - 1), toks[start..], depth);
      if !res.Accepted? {
        return;
      }
      if IsAssignOp(Tok()) {
        var op := Tok();
        ghost var p, d1, l := pos, Done(), e;
        Next();
        res, e := ParseExpr();
        AssignedAgrees(res.Accepted?, l, e, toks, p, pos, KindIn(toks, start - 1), toks[start..], depth);
        if res.Accepted? {
          ParsedAssign(toks, start, p, pos, base, d1, Done(), op, l, e);
          e := Assign(op, l, e);
          Emit(Asm(Instr.Expr(OpByte(op))));
        }
      } else {
        Loosen(toks, start, pos, base, Done(), e, ASSIGN_LEVEL, TERNARY_LEVEL);
      }
    }

    // ----- statements -----

    ghost predicate WroteStmt(start: int, base: seq<Byte>, s: Stmt)
      reads this
      requires Valid()
    {
      ParsedStmt(toks, start, pos, base, Done(), s)
    }

    /** Every block has taken one unit of depth for good. */
    predicate Counted(before: int, blocks: nat)
      reads this
    {
      depth == before + blocks && depth <= DEPTH_LIMIT
    }

    /** `parse_statement`. */
    method ParseStatement() returns (res: Result, ghost s: Stmt)
      requires Valid() && pos >= 0 && depth <= DEPTH_LIMIT
      modifies this
      ensures Valid() && pos >= old(pos) && Rest() == old(Rest())
      ensures res.Accepted? ==> pos > old(pos) && WroteStmt(old(pos), old(Done()), s)
      ensures res.Accepted? ==> Counted(old(depth), Blocks(s))
      ensures AgreesStmt(res.Accepted?, s, toks, pos, ReadStmt(KindIn(toks, old(pos) - 1), toks[old(pos)..]), old(depth))
      decreases |toks| - pos, 33
    {
      hide ParsedStmt, Clean, ReadStmt, AgreesStmt, Blocks;
      s := Empty;
      var tok := Tok();
      if tok == TOK_SEMICOLON || tok == TOK_KEYWORD_BREAK || tok == TOK_KEYWORD_CONTINUE {
        res, s := ParseWord();
      } else if tok == TOK_KEYWORD_LET {
        res, s := ParseLet();
      } else if tok == TOK_OPEN_CURLY {
        res, s := ParseBlock();
      } else if tok == TOK_KEYWORD_RETURN {
        res, s := ParseReturn();
      } else if tok == TOK_KEYWORD_FOR {
        NoStatement(s, toks, pos, pos, KindIn(toks, pos - 1), depth);
        res := Outside;
      } else if tok == TOK_KEYWORD_WHILE {
        res, s := ParseWhile();
      } else if tok == TOK_KEYWORD_IF {
        res, s := ParseIf();
      } else if IsUnimplemented(tok) {
        NoStatement(s, toks, pos, pos, KindIn(toks, pos - 1), depth);
        res := SyntaxError;
      } else {
        res, s := ParseExprs();
      }
    }

    method ParseWord() returns (res: Result, ghost s: Stmt)
      requires Valid() && (Tok() == TOK_SEMICOLON || Tok() == TOK_KEYWORD_BREAK || Tok() == TOK_KEYWORD_CONTINUE)
      requires depth <= DEPTH_LIMIT
      modifies this
      ensures Valid() && pos >= old(pos) && Rest() == old(Rest())
      ensures res.Accepted? ==> pos > old(pos) && WroteStmt(old(pos), old(Done()), s)
      ensures res.Accepted? ==> Counted(old(depth), Blocks(s))
      ensures AgreesStmt(res.Accepted?, s, toks, pos, ReadStmt(KindIn(toks, old(pos) - 1), toks[old(pos)..]), old(depth))
    {
      hide ParsedStmt, Clean, ReadStmt, AgreesStmt, StmtCode, Asm;
      ghost var base := Done();
      if Tok() == TOK_SEMICOLON {
        s := Empty;
        EmitByte(OP_PUSH_UNDEF);
      } else if Tok() == TOK_KEYWORD_BREAK {
        s := Stmt.Break;
        EmitByte(OP_PUSH_UNDEF);
        EmitByte(OP_BREAK);
      } else {
        s := Stmt.Continue;
        EmitByte(OP_CONTINUE);
      }
      WordBytes(base, s);
      ParsedWord(toks, pos, base, s);
      WordAgrees(s, toks, pos, KindIn(toks, pos - 1), depth);
      Next();
      res := Accepted;
    }

    /** Expressions separated by commas; each but the last is dropped. */
    method ParseExprs() returns (res: Result, ghost s: Stmt)
      requires Valid() && pos >= 0 && !OpensStatement(Tok()) && depth <= DEPTH_LIMIT
      modifies this
      ensures Valid() && pos >= old(pos) && Rest() == old(Rest())
      ensures res.Accepted? ==> pos > old(pos) && WroteStmt(old(pos), old(Done()), s)
      ensures res.Accepted? ==> Counted(old(depth), Blocks(s))
      ensures AgreesStmt(res.Accepted?, s, toks, pos, ReadStmt(KindIn(toks, old(pos) - 1), toks[old(pos)..]), old(depth))
      decreases |toks| - pos, 23
    {
      hide Parsed, Clean, ParsedExprs, ParsedStmt, Read, ReadStmt, AgreesStmt, ReadExprs, Peak, PeakExprs;
      s := Empty;
      ghost var start, base, prev := pos, Done(), KindIn(toks, pos - 1);
      ghost var e;
      res, e := ParseExpr();
      ExprsStart(res.Accepted?, e, s, toks, start, pos, prev, depth);
      if !res.Accepted? {
        return;
      }
      ghost var es := One(e);
      ParsedOne(toks, start, pos, base, Done(), e);
      ParsedForward(toks, start, pos, base, Done(), e);
      while Tok() == TOK_COMMA
        invariant Valid() && pos > start && Rest() == old(Rest()) && res.Accepted?
        invariant ParsedExprs(toks, start, pos, base, Done(), es) && depth == old(depth)
        invariant ExprsSoFar(es, toks, start, pos, prev, depth)
        decreases |toks| - pos
      {
        ghost var p, d := pos, Done();
        EmitByte(OP_DROP);
        Next();
        res, e := ParseExpr();
        ExprsNext(res.Accepted?, es, e, s, toks, start, p, pos, prev, depth);
        if !res.Accepted? {
          return;
        }
        ParsedMore(toks, start, p, pos, base, d, Done(), es, e);
        es := AddExpr(es, e);
      }
      ExprsStop(es, toks, start, pos, prev, depth);
      s := ExprStmt(es);
      ParsedExprStmt(toks, start, pos, base, Done(), es);
    }

    /** `parse_let`. */
    method ParseLet() returns (res: Result, ghost s: Stmt)
      requires Valid() && Tok() == TOK_KEYWORD_LET && depth <= DEPTH_LIMIT
      modifies this
      ensures Valid() && pos >= old(pos) && Rest() == old(Rest())
      ensures res.Accepted? ==> pos > old(pos) && WroteStmt(old(pos), old(Done()), s)
      ensures res.Accepted? ==> Counted(old(depth), Blocks(s))
      ensures AgreesStmt(res.Accepted?, s, toks, pos, ReadStmt(KindIn(toks, old(pos) - 1), toks[old(pos)..]), old(depth))
      decreases |toks| - pos, 24
    {
      hide Parsed, Clean, ParsedDecls, ParsedStmt, ReadStmt, AgreesStmt, ReadDecls, MoreDecls;
      s := Empty;
      ghost var start, base, prev := pos, Done(), KindIn(toks, pos - 1);
      ghost var found := ReadDecls(NoDecls, toks[pos + 1..]);
      LetStart(toks, pos, prev);
      Next();
      ghost var ds := NoDecls;
      NothingParsed(toks, pos, base);
      res := Accepted;
      while true
        invariant Valid() && pos > start && Rest() == old(Rest())
        invariant ParsedDecls(toks, start + 1, pos, base, Done(), ds) && depth == old(depth)
        invariant ReadDecls(ds, toks[pos..]) == found && depth + PeakDecls(ds) <= DEPTH_LIMIT
        decreases |toks| - pos
      {
        res, ds := ParseDecl(start + 1, base, ds);
        if !res.Accepted? {
          LetAgrees(false, ds, s, toks, start, pos, prev, found, depth);
          return;
        }
        DeclsGoOn(ds, toks, pos);
        if Tok() == TOK_SEMICOLON || Tok() == TOK_EOF {
          break;
        }
      }
      LetAgrees(true, ds, s, toks, start, pos, prev, found, depth);
      s := Let(ds);
      ParsedLet(toks, start, pos, base, Done(), ds);
    }

    /** One turn of the loop in `parse_let`. */
    method ParseDecl(ghost start: int, ghost base: seq<Byte>, ghost before: Decls) returns (res: Result, ghost ds: Decls)
      requires Valid() && pos >= 0 && ParsedDecls(toks, start, pos, base, Done(), before)
      requires depth + PeakDecls(before) <= DEPTH_LIMIT
      modifies this
      ensures Valid() && pos >= old(pos) && Rest() == old(Rest())
      ensures res.Accepted? ==> pos > old(pos) && ParsedDecls(toks, start, pos, base, Done(), ds)
      ensures DeclsOutcome(res.Accepted?, ds, toks, pos, ReadDecls(before, toks[old(pos)..]), depth)
      ensures depth == old(depth)
      decreases |toks| - pos, 23
    {
      hide Clean, ParsedDecls, WellPlaced, DeclareCode, InitCode, Span, InitTokens, ReadDecls, MoreDecls, ReadInit, AgreesInit,
           DeclsOutcome, PeakDecls, Asm, AddDecl, OneDecl, Agrees;
      ds := before;
      if Tok() != TOK_IDENT {
        NoName(before, toks, pos, pos, depth);
        return SyntaxError, ds;
      }
      ghost var p, d := pos, Done();
      var x := IdentText();
      Next();
      Emit(Asm(PushStr(x)));
      Emit(Asm(PushScope));
      Emit(Asm(Create));
      DeclareBytes(d, x);
      ghost var init;
      res, init := ParseInit(x);
      NameAt(toks, p);
      DeclAgrees(res.Accepted?, init, before, toks, p, pos, depth);
      if !res.Accepted? {
        return;
      }
      ghost var r, d2 := pos, Done();
      var comma := Tok() == TOK_COMMA;
      if comma {
        EmitByte(OP_DROP);
        Next();
      }
      assert Done() == d2 + CommaCode(comma);
      Gather(d, DeclareCode(x), InitCode(x, init), CommaCode(comma));
      DeclSpan(toks, p, r, x, init, comma);
      ParsedDecl(toks, start, p, pos, base, d, Done(), before, x, init, comma);
      ds := AddDecl(before, x, init, comma);
    }

    /** The initialiser of a variable, if it has one. */
    method ParseInit(x: Text) returns (res: Result, ghost init: Option<Expr>)
      requires Valid() && pos >= 0 && depth <= DEPTH_LIMIT
      modifies this
      ensures Valid() && pos >= old(pos) && Rest() == old(Rest())
      ensures res.Accepted? ==>
              Done() == old(Done()) + InitCode(x, init) && Span(toks, old(pos), pos, InitTokens(init))
              && (init.Some? ==> WellPlaced(init.value, TOK_ASSIGN, KindIn(toks, pos)))
      ensures AgreesInit(res.Accepted?, init, toks, pos, ReadInit(toks[old(pos)..]), depth)
      ensures depth == old(depth)
      decreases |toks| - pos, 23
    {
      hide Parsed, Clean, Written, Code, WellPlaced, RefCode, Span, ReadInit, Read, Peak, AgreesInit;
      init := None;
      ghost var start, d := pos, Done();
      if Tok() != TOK_ASSIGN {
        EmitByte(OP_PUSH_UNDEF);
        SpanNone(toks, pos);
        InitNone(toks, pos, depth);
        return Accepted, init;
      }
      Next();
      Emit(Asm(PushStr(x)));
      Emit(Asm(FindScope));
      RefBytes(d, x);
      ghost var d1 := Done();
      ghost var e;
      res, e := ParseExpr();
      InitAgrees(res.Accepted?, e, toks, start, pos, depth);
      init := Some(e);
      if !res.Accepted? {
        return;
      }
      SpanOfExpr(toks, start + 1, pos, d1, Done(), e);
      SpanOne(toks, start);
      SpanJoin(toks, start, start + 1, pos, [Plain(TOK_ASSIGN)], Written(e));
      Emit(Asm(Instr.Expr(TOK_ASSIGN)));
      Gather(d, RefCode(x), Code(e), Asm(Instr.Expr(TOK_ASSIGN)));
    }

    function IdentText(): Text
      reads this
      requires Valid() && Tok() == TOK_IDENT
    {
      if toks[pos].Name? then toks[pos].text else []
    }

    /** `parse_statement_list`, entered with its first token at the cursor. */
    method ParseStatementList(et: nat) returns (res: Result, ghost ss: Stmts)
      requires Valid() && pos >= 0 && depth <= DEPTH_LIMIT
      modifies this
      ensures Valid() && pos >= old(pos) && Rest() == old(Rest())
      ensures res.Accepted? ==> ParsedStmts(toks, old(pos), pos, old(Done()), Done(), ss) && (Tok() == TOK_EOF || Tok() == et)
      ensures res.Accepted? ==> Counted(old(depth), BlocksIn(ss))
      ensures AgreesStmts(res.Accepted?, ss, toks, pos, ReadStmts(NoStmts, KindIn(toks, old(pos) - 1), et, toks[old(pos)..]), old(depth))
      decreases |toks| - pos, 34
    {
      hide ParsedStmt, Clean, ParsedStmts, Span, ReadStmt, ReadStmts, AgreesStmt, AgreesStmts, Blocks, PeakStmt;
      ghost var start, base, d0 := pos, Done(), depth;
      ss := NoStmts;
      NothingParsed(toks, pos, base);
      res := Accepted;
      var drop := false;
      while Tok() != TOK_EOF && Tok() != et
        invariant Valid() && pos >= start && Rest() == old(Rest()) && res.Accepted?
        invariant ParsedStmts(toks, start, pos, base, Done(), ss)
        invariant drop <==> ss.Stmts?
        invariant Counted(old(depth), BlocksIn(ss)) && StmtsSoFar(ss, toks, start, pos, et, d0)
        decreases |toks| - pos
      {
        ghost var p, d := pos, Done();
        if drop {
          EmitByte(OP_DROP);
        }
        assert Done() == d + DropBetween(ss);
        ghost var s;
        res, s := ParseStatement();
        if !res.Accepted? {
          StmtsNext(false, ss, s, 0, toks, start, p, pos, pos, et, d0);
          return;
        }
        ghost var semis := SkipSemis();
        ParsedNext(toks, start, p, pos - semis, pos, base, d, Done(), ss, s, semis);
        AddStmtBlocks(ss, s, semis);
        StmtsNext(true, ss, s, semis, toks, start, p, pos - semis, pos, et, d0);
        ss := AddStmt(ss, s, semis);
        drop := true;
      }
      StmtsStop(ss, toks, start, pos, et, d0);
    }

    method SkipSemis() returns (ghost n: nat)
      requires Valid() && pos >= 0
      modifies this`pos
      ensures Valid() && pos == old(pos) + n && Span(toks, old(pos), pos, Semis(n)) && Tok() != TOK_SEMICOLON
    {
      hide Clean;
      n := 0;
      while Tok() == TOK_SEMICOLON
        invariant Valid() && pos == old(pos) + n && Span(toks, old(pos), pos, Semis(n))
        decreases |toks| - pos
      {
        OneMoreSemi(toks, old(pos), pos, n);
        Next();
        n := n + 1;
      }
    }

    /** `parse_block`. Unlike everywhere else, `depth` is not given back. */
    method ParseBlock() returns (res: Result, ghost s: Stmt)
      requires Valid() && Tok() == TOK_OPEN_CURLY && depth <= DEPTH_LIMIT
      modifies this
      ensures Valid() && pos >= old(pos) && Rest() == old(Rest())
      ensures res.Accepted? ==> pos > old(pos) && WroteStmt(old(pos), old(Done()), s)
      ensures res.Accepted? ==> Counted(old(depth), Blocks(s))
      ensures AgreesStmt(res.Accepted?, s, toks, pos, ReadStmt(KindIn(toks, old(pos) - 1), toks[old(pos)..]), old(depth))
      decreases |toks| - pos, 0
    {
      hide ParsedStmt, Clean, ParsedStmts, ReadStmt, ReadStmts, ReadBraces, AgreesStmt, AgreesStmts, PeakStmts;
      s := Empty;
      ghost var prev, d := KindIn(toks, pos - 1), depth;
      depth := depth + 1;
      if depth > DEPTH_LIMIT {
        BlockFull(s, toks, pos, pos, prev, d);
        return SyntaxError, s;
      }
      ghost var p, base := pos, Done();
      EmitByte(OP_NEW_SCOPE);
      ghost var body;
      Next();
      res, body := ParseStatementList(TOK_CLOSE_CURLY);
      ghost var closed := res.Accepted? && Tok() == TOK_CLOSE_CURLY;
      BracesAgree(res.Accepted?, body, toks, p, pos, pos, d + 1);
      BlockAgrees(closed, body, s, toks, p, if closed then pos + 1 else pos, prev, d);
      if !res.Accepted? {
        return;
      }
      if Tok() != TOK_CLOSE_CURLY {
        return SyntaxError, s;
      }
      ParsedBlock(toks, p, pos, base, Done(), body);
      s := Block(body);
      Next();
      EmitByte(OP_DEL_SCOPE);
    }

    /** `parse_return`: without an expression it returns `undefined`. */
    method ParseReturn() returns (res: Result, ghost s: Stmt)
      requires Valid() && Tok() == TOK_KEYWORD_RETURN && depth <= DEPTH_LIMIT
      modifies this
      ensures Valid() && pos >= old(pos) && Rest() == old(Rest())
      ensures res.Accepted? ==> pos > old(pos) && WroteStmt(old(pos), old(Done()), s)
      ensures res.Accepted? ==> Counted(old(depth), Blocks(s))
      ensures AgreesStmt(res.Accepted?, s, toks, pos, ReadStmt(KindIn(toks, old(pos) - 1), toks[old(pos)..]), old(depth))
      decreases |toks| - pos, 23
    {
      hide ParsedStmt, Clean, Parsed, ReadStmt, AgreesStmt, Read, Peak;
      ghost var p, base, e := pos, Done(), None;
      ghost var prev := KindIn(toks, pos - 1);
      s := Empty;
      Next();
      if Tok() == TOK_SEMICOLON || Tok() == TOK_CLOSE_CURLY || Tok() == TOK_EOF {
        EmitByte(OP_PUSH_UNDEF);
        ReturnNone(toks, p, prev, depth);
      } else {
        ghost var x;
        res, x := ParseExpr();
        ReturnAgrees(res.Accepted?, x, s, toks, p, pos, prev, depth);
        if !res.Accepted? {
          return Outside, s;
        }
        e := Some(x);
      }
      ParsedReturn(toks, p, pos, base, Done(), e);
      EmitByte(OP_SETRETVAL);
      EmitByte(OP_RETURN);
      s := Stmt.Return(e);
      res := Accepted;
    }

    /** The parenthesised condition behind a keyword. */
    method ParseHead() returns (res: Result, ghost c: Expr)
      requires Valid() && pos >= 0
      modifies this
      ensures Valid() && pos >= old(pos) && Rest() == old(Rest())
      ensures res.Accepted? ==>
              KindIn(toks, old(pos)) == TOK_OPEN_PAREN
              && Parsed(toks, old(pos) + 1, pos, old(Done()), Done(), c, ASSIGN_LEVEL)
      ensures Agrees(res.Accepted? && Tok() == TOK_CLOSE_PAREN, c, toks, pos + 1, ReadHead(toks[old(pos)..]), ASSIGN_LEVEL, depth)
      ensures depth == old(depth)
      decreases |toks| - pos, 23
    {
      hide Clean, Parsed, Read, ReadHead, Peak, Agrees;
      ghost var p := pos;
      c := Lit(LitNull);
      if Tok() != TOK_OPEN_PAREN {
        NoHead(c, toks, pos, pos + 1, depth);
        return SyntaxError, c;
      }
      Next();
      res, c := ParseExpr();
      HeadAgrees(res.Accepted?, c, toks, p, pos, depth);
    }

    /** `parse_block_or_stmt`. It peeks behind the token at the cursor for `{`, so only a block in braces that
        starts with another block is taken for one; any other token before a `{` leaves the fragment. */
    method ParseBlockOrStmt() returns (res: Result, ghost s: Stmt)
      requires Valid() && pos >= 0 && depth <= DEPTH_LIMIT
      modifies this
      ensures Valid() && pos >= old(pos) && Rest() == old(Rest())
      ensures res.Accepted? ==> pos > old(pos) && WroteStmt(old(pos), old(Done()), s)
      ensures res.Accepted? ==> Counted(old(depth), Blocks(s))
      ensures AgreesStmt(res.Accepted?, s, toks, pos, ReadBranch(KindIn(toks, old(pos) - 1), toks[old(pos)..]), old(depth))
      decreases |toks| - pos, 34
    {
      hide ParsedStmt, Clean, ReadStmt, ReadBranch;
      BranchAgrees(toks, pos, KindIn(toks, pos - 1));
      s := Empty;
      if KindIn(toks, pos + 1) == TOK_OPEN_CURLY {
        if Tok() != TOK_OPEN_CURLY {
          return Outside, s;
        }
        res, s := ParseBlock();
      } else {
        res, s := ParseStatement();
      }
    }

    /** `parse_if`. */
    method ParseIf() returns (res: Result, ghost s: Stmt)
      requires Valid() && Tok() == TOK_KEYWORD_IF && depth <= DEPTH_LIMIT
      modifies this
      ensures Valid() && pos >= old(pos) && Rest() == old(Rest())
      ensures res.Accepted? ==> pos > old(pos) && WroteStmt(old(pos), old(Done()), s)
      ensures res.Accepted? ==> Counted(old(depth), Blocks(s))
      ensures AgreesStmt(res.Accepted?, s, toks, pos, ReadStmt(KindIn(toks, old(pos) - 1), toks[old(pos)..]), old(depth))
      decreases |toks| - pos, 30
    {
      hide ParsedStmt, Clean, Parsed, StmtCode, Encode, Patch, ReadStmt, ReadHead, ReadBranch, ReadElse, AgreesStmt, Agrees, Peak, PeakStmt,
           ThenElse;
      s := Empty;
      ghost var prev, d := KindIn(toks, pos - 1), depth;
      ghost var p, base := pos, Done();
      Next();
      ghost var c;
      res, c := ParseHead();
      IfHead(res.Accepted? && Tok() == TOK_CLOSE_PAREN, c, s, toks, p, pos + 1, prev, d);
      if !res.Accepted? {
        return;
      }
      ghost var q, d1 := pos, Done();
      EmitByte(OP_JMP_FALSE);
      var offIf := curIdx;
      EmitByte(0);
      if Tok() != TOK_CLOSE_PAREN {
        return SyntaxError, s;
      }
      Next();
      ghost var t;
      res, t := ParseBlockOrStmt();
      ThenStep(res.Accepted?, c, t, s, toks, pos, ReadBranch(TOK_CLOSE_PAREN, toks[q + 1..]), d);
      if !res.Accepted? {
        return;
      }
      if Tok() == TOK_KEYWORD_ELSE {
        res, s := ParseElse(p, q, base, d1, c, t, offIf, old(depth));
      } else {
        ParsedIf(toks, p, q, pos, base, d1, Done(), c, t);
        var _ := InsertOffset(offIf, curIdx - offIf - 1);
        s := If(c, t);
      }
    }

    /** The `else` of `parse_if`. */
    method ParseElse(ghost p: int, ghost q: int, ghost base: seq<Byte>, ghost d1: seq<Byte>, ghost c: Expr, ghost t: Stmt,
                     offIf: nat, ghost before: int) returns (res: Result, ghost s: Stmt)
      requires Valid() && 0 <= p < q < pos && Tok() == TOK_KEYWORD_ELSE && KindIn(toks, p) == TOK_KEYWORD_IF
      requires KindIn(toks, p + 1) == TOK_OPEN_PAREN && KindIn(toks, q) == TOK_CLOSE_PAREN
      requires Parsed(toks, p + 2, q, base, d1, c, ASSIGN_LEVEL)
      requires ParsedStmt(toks, q + 1, pos, d1 + [OP_JMP_FALSE] + [0], Done(), t) && offIf == |d1| + 1
      requires Counted(before, Blocks(t)) && before + Peak(c, ASSIGN_LEVEL) <= DEPTH_LIMIT && before + PeakStmt(t) <= DEPTH_LIMIT
      modifies this
      ensures Valid() && pos >= old(pos) && Rest() == old(Rest())
      ensures res.Accepted? ==> pos > old(pos) && WroteStmt(p, base, s)
      ensures res.Accepted? ==> Counted(before, Blocks(s))
      ensures AgreesStmt(res.Accepted?, s, toks, pos, ReadElse(c, t, toks[old(pos)..]), before)
      decreases |toks| - pos, 30
    {
      hide ParsedStmt, Clean, Parsed, StmtCode, Encode, Patch, Branches, ReadBranch, ReadElse, AgreesStmt, Peak, PeakStmt;
      ghost var r, d2 := pos, Done();
      s := t;
      Next();
      EmitByte(OP_JMP);
      var offElse := curIdx;
      EmitByte(0);
      var offEndif := curIdx;
      EmitByte(OP_DROP);
      ghost var f;
      res, f := ParseBlockOrStmt();
      ElseStep(res.Accepted?, c, t, f, s, toks, r, pos, before);
      if !res.Accepted? {
        return;
      }
      ParsedIfElse(toks, p, q, r, pos, base, d1, d2, Done(), c, t, f);
      CloseBranches(offIf, offElse, offEndif, d1, StmtCode(t), StmtCode(f));
      s := IfElse(c, t, f);
    }

    /** `parse_while`. */
    method ParseWhile() returns (res: Result, ghost s: Stmt)
      requires Valid() && Tok() == TOK_KEYWORD_WHILE && depth <= DEPTH_LIMIT
      modifies this
      ensures Valid() && pos >= old(pos) && Rest() == old(Rest())
      ensures res.Accepted? ==> pos > old(pos) && WroteStmt(old(pos), old(Done()), s)
      ensures res.Accepted? ==> Counted(old(depth), Blocks(s))
      ensures AgreesStmt(res.Accepted?, s, toks, pos, ReadStmt(KindIn(toks, old(pos) - 1), toks[old(pos)..]), old(depth))
      decreases |toks| - pos, 30
    {
      hide ParsedStmt, Clean, Parsed, StmtCode, Code, Encode, Patch, LoopCode, LoopTurn, ReadStmt, ReadHead, ReadBody, AgreesStmt, Agrees,
           Peak, Blocks;
      s := Empty;
      ghost var prev, d := KindIn(toks, pos - 1), depth;
      ghost var p, base := pos, Done();
      Next();
      if Tok() != TOK_OPEN_PAREN {
        NoHead(Lit(LitNull), toks, pos, pos, d);
        WhileHead(false, Lit(LitNull), s, toks, p, pos, prev, d);
        return SyntaxError, s;
      }
      var offB := OpenLoop();
      ghost var c;
      res, c := ParseHead();
      WhileHead(res.Accepted? && Tok() == TOK_CLOSE_PAREN, c, s, toks, p, pos + 1, prev, d);
      if !res.Accepted? {
        return;
      }
      if Tok() != TOK_CLOSE_PAREN {
        return SyntaxError, s;
      }
      res, s := ParseRepeated(offB, p, base, c);
    }

    /** The header of a loop, with both jumps still open. */
    method OpenLoop() returns (offB: nat)
      requires Valid()
      modifies this`code, this`curIdx
      ensures Valid() && Rest() == old(Rest()) && Done() == LoopOpen(old(Done())) && offB == |old(Done())| + 2
    {
      EmitByte(OP_NEW_SCOPE);
      EmitByte(OP_LOOP);
      offB := curIdx;
      EmitByte(0);
      EmitByte(0);
    }

    /** What follows the condition of a loop: its jump, the body and the end. */
    method ParseRepeated(offB: nat, ghost p: int, ghost base: seq<Byte>, ghost c: Expr) returns (res: Result, ghost s: Stmt)
      requires Valid() && 0 <= p < pos && Tok() == TOK_CLOSE_PAREN && KindIn(toks, p) == TOK_KEYWORD_WHILE
      requires KindIn(toks, p + 1) == TOK_OPEN_PAREN && Parsed(toks, p + 2, pos, LoopOpen(base), Done(), c, ASSIGN_LEVEL)
      requires offB == |base| + 2 && depth <= DEPTH_LIMIT && depth + Peak(c, ASSIGN_LEVEL) <= DEPTH_LIMIT
      modifies this
      ensures Valid() && pos > old(pos) && Rest() == old(Rest())
      ensures res.Accepted? ==> WroteStmt(p, base, s) && Counted(old(depth), Blocks(s))
      ensures AgreesStmt(res.Accepted?, s, toks, pos, ReadBody(c, toks[old(pos) + 1..]), old(depth))
      decreases |toks| - pos, 36
    {
      hide ParsedStmt, Clean, Parsed, StmtCode, Code, Encode, Patch, LoopCode, LoopTurn, LoopOpen, ReadBody, AgreesStmt, Peak, Blocks;
      ghost var q, d1 := pos, Done();
      Next();
      EmitByte(OP_JMP_FALSE);
      var offCondEnd := curIdx;
      EmitByte(0);
      ghost var b;
      res, s, b := ParseBody(p, q, base, d1, c);
      if res.Accepted? {
        CloseLoop(offB, offCondEnd, base, Code(c), b);
      }
    }

    /** The end of a loop, and the two jumps that are known by then. */
    method CloseLoop(offB: nat, offCondEnd: nat, ghost base: seq<Byte>, ghost c: seq<Byte>, ghost b: seq<Byte>)
      requires Valid() && Done() == LoopOpen(base) + c + [OP_JMP_FALSE] + [0] + b
      requires offB == |base| + 2 && offCondEnd == |LoopOpen(base) + c| + 1
      modifies this`code, this`curIdx
      ensures Valid() && Rest() == old(Rest()) && Done() == base + LoopCode(c, b)
    {
      hide Clean, Encode, Patch, LoopCode, LoopTurn;
      EmitByte(OP_DROP);
      EmitByte(OP_CONTINUE);
      TurnBytes(LoopOpen(base), c, b);
      var _ := InsertOffset(offCondEnd, curIdx - offCondEnd - 1);
      EmitByte(OP_BREAK);
      HeadBytes(base, c, b);
      var _ := InsertOffset(offB, curIdx - offB - 1);
      EmitByte(OP_DEL_SCOPE);
    }

    /** The body of a loop, in braces or not, behind its condition. */
    method ParseBody(ghost p: int, ghost q: int, ghost base: seq<Byte>, ghost d1: seq<Byte>, ghost c: Expr)
      returns (res: Result, ghost s: Stmt, ghost b: seq<Byte>)
      requires Valid() && 0 <= p < q == pos - 1 && KindIn(toks, p) == TOK_KEYWORD_WHILE
      requires KindIn(toks, p + 1) == TOK_OPEN_PAREN && KindIn(toks, q) == TOK_CLOSE_PAREN
      requires Parsed(toks, p + 2, q, LoopOpen(base), d1, c, ASSIGN_LEVEL) && Done() == d1 + [OP_JMP_FALSE] + [0]
      requires depth <= DEPTH_LIMIT && depth + Peak(c, ASSIGN_LEVEL) <= DEPTH_LIMIT
      modifies this
      ensures Valid() && pos >= old(pos) && Rest() == old(Rest())
      ensures res.Accepted? ==>
              pos > old(pos) && d1 == LoopOpen(base) + Code(c) && Done() == old(Done()) + b
              && ParsedStmt(toks, p, pos, base, base + LoopCode(Code(c), b), s)
      ensures res.Accepted? ==> Counted(old(depth), Blocks(s))
      ensures AgreesStmt(res.Accepted?, s, toks, pos, ReadBody(c, toks[old(pos)..]), old(depth))
      decreases |toks| - pos, 34
    {
      hide ParsedStmt, ParsedStmts, Clean, Parsed, StmtCode, StmtsCode, Code, LoopCode, LoopOpen, ReadStmt, ReadStmts,
           ReadBraces, ReadBody, AgreesStmt, AgreesStmts, Peak;
      b := [];
      s := Empty;
      ghost var r, d := pos, depth;
      if Tok() == TOK_OPEN_CURLY {
        Next();
        ghost var body;
        res, body := ParseStatementList(TOK_CLOSE_CURLY);
        ghost var closed := res.Accepted? && Tok() == TOK_CLOSE_CURLY;
        BracesAgree(res.Accepted?, body, toks, r, pos, pos, d);
        BodyBraces(closed, c, body, s, toks, r, if closed then pos + 1 else pos, d);
        if !res.Accepted? {
          return;
        }
        if Tok() != TOK_CLOSE_CURLY {
          return Outside, s, b;
        }
        ParsedWhile(toks, p, q, pos, base, d1, Done(), c, body);
        s, b := While(c, body), StmtsCode(body);
        Next();
      } else {
        ghost var one;
        res, one := ParseStatement();
        BodyOne(res.Accepted?, c, one, s, toks, r, pos, d);
        if res.Accepted? {
          ParsedWhileOne(toks, p, q, pos, base, d1, Done(), c, one);
          s, b := WhileOne(c, one), StmtCode(one);
        }
      }
    }

    /** `mjs_parse`, from the first token to the final `OP_EXIT`: it accepts the programs that fit its depth, and
        nothing else. */
    method MjsParse() returns (res: Result, ghost ss: Stmts)
      requires Valid() && pos == -1 && depth == 0
      modifies this
      ensures Valid()
      ensures res.Accepted? ==>
              Program(ss, toks) && PlacedStmts(ss, TOK_EOF, TOK_EOF)
              && Done() == old(Done()) + StmtsCode(ss) + Asm(Exit) && Rest() == old(Rest())
              && BlocksIn(ss) <= DEPTH_LIMIT
      ensures forall tree :: Program(tree, toks) ==> res.Accepted? && ss == tree
    {
      hide Clean, WrittenStmts, StmtsCode, PlacedStmts, BlocksIn, ReadStmts, PeakStmts, StmtsStand, Program;
      Next();
      assert toks[0..] == toks;
      res, ss := ParseStatementList(TOK_EOF);
      if res.Accepted? {
        OnlyAtEnd(toks, pos);
        assert Asm(Exit) == [OP_EXIT];
        EmitByte(OP_EXIT);
      }
      AcceptsPrograms(res.Accepted?, ss, toks);
    }
  }

  /** The operator at the cursor is a token of its own. */
  lemma OperatorAt(toks: seq<Token>, p: int, level: nat)
    requires OpAt(level, KindIn(toks, p))
    ensures 0 <= p < |toks| && KindIn(toks, p) != TOK_EOF
  {}

  /** The left operand of `&&` or `||` is tighter than they are, so no operator of its level has opened a call yet. */
  lemma LogicalLeft(toks: seq<Token>, start: int, p: int, base: seq<Byte>, done: seq<Byte>, l: Expr, level: nat)
    requires OR_LEVEL <= level < 4 && Parsed(toks, start, p, base, done, l, level + 1)
    ensures Ops(l, level) == 0 && Fits(l, level + 1)
  {
    hide Written, Code, Placed;
    PeakLooser(l, level);
  }

  lemma InsertedAt(before: seq<Byte>, after: seq<Byte>, off: nat, v: nat)
    requires off < |before|
    ensures var s := (before + after)[..off] + Encode(v) + (before + after)[off + 1..];
            s == Patch(before, off, v) + after
  {
    hide Encode;
  }

  /** The code of a statement of one word. */
  lemma WordBytes(base: seq<Byte>, s: Stmt)
    ensures s.Empty? ==> base + [OP_PUSH_UNDEF] == base + StmtCode(s)
    ensures s.Break? ==> base + [OP_PUSH_UNDEF] + [OP_BREAK] == base + StmtCode(s)
    ensures s.Continue? ==> base + [OP_CONTINUE] == base + StmtCode(s)
  {}

  lemma ParsedForward(toks: seq<Token>, start: int, pos: int, base: seq<Byte>, done: seq<Byte>, e: Expr)
    requires Parsed(toks, start, pos, base, done, e, ASSIGN_LEVEL)
    ensures start < pos
  {}

  lemma DeclareBytes(d: seq<Byte>, x: Text)
    ensures d + Asm(PushStr(x)) + Asm(PushScope) + Asm(Create) == d + DeclareCode(x)
  {
    hide Asm;
  }

  lemma RefBytes(d: seq<Byte>, x: Text)
    ensures d + Asm(PushStr(x)) + Asm(FindScope) == d + RefCode(x)
  {
    hide Asm;
  }

  lemma OnlyAtEnd(toks: seq<Token>, p: int)
    requires Clean(toks) && 0 <= p <= |toks| && KindIn(toks, p) == TOK_EOF
    ensures p == |toks|
  {}

  lemma NameAt(toks: seq<Token>, p: int)
    requires Clean(toks) && KindIn(toks, p) == TOK_IDENT
    ensures 0 <= p < |toks| && toks[p].Name?
  {}

  lemma SpanNone(toks: seq<Token>, p: int)
    requires 0 <= p <= |toks|
    ensures Span(toks, p, p, [])
  {}

  lemma DeclSpan(toks: seq<Token>, p: int, r: int, x: Text, init: Option<Expr>, comma: bool)
    requires Clean(toks) && 0 <= p < |toks| && toks[p].Name? && toks[p].text == x
    requires Span(toks, p + 1, r, InitTokens(init)) && (comma ==> KindIn(toks, r) == TOK_COMMA)
    ensures Span(toks, p, if comma then r + 1 else r, OneDecl(x, init, comma))
  {
    hide Clean, InitTokens;
    assert toks[p..p + 1] == [Name(x)];
    SpanJoin(toks, p, p + 1, r, [Name(x)], InitTokens(init));
    if comma {
      SpanOne(toks, r);
      SpanJoin(toks, p, r, r + 1, [Name(x)] + InitTokens(init), [Plain(TOK_COMMA)]);
    } else {
      assert [Name(x)] + InitTokens(init) + [] == [Name(x)] + InitTokens(init);
    }
  }
}
