/** What it means that the parser, which may run out of depth, agrees with the reference reader. */
module Agreement {
  import opened Bytecode
  import opened Tokens
  import opened Syntax
  import opened Grammar
  import opened Reader

  /** `STACK_LIMIT / BINOP_STACK_FRAME_SIZE`. */
  const DEPTH_LIMIT: nat := 512

  function Max(a: nat, b: nat): nat {
    if a < b then b else a
  }

  /** How many operators of `level` stand side by side in `e`. */
  function Ops(e: Expr, level: nat): nat {
    if e.Binary? && LevelOf(e.op) == level then 1 + Ops(e.l, level) else 0
  }

  /** How far compiling `e` at `level` raises `depth` at most: by one for every binary level that is open, and by
      one for every operator to the left, since `PARSE_LTR_BINOP` calls itself for each. */
  function Peak(e: Expr, level: nat): nat
    decreases e, 20 - level
  {
    if level == ASSIGN_LEVEL then
      if e.Assign? then Max(Peak(e.l, TERNARY_LEVEL), Peak(e.r, ASSIGN_LEVEL)) else Peak(e, TERNARY_LEVEL)
    else if level == TERNARY_LEVEL then
      if e.Cond? then Max(Peak(e.c, OR_LEVEL), Max(Peak(e.t, TERNARY_LEVEL), Peak(e.f, TERNARY_LEVEL))) else Peak(e, OR_LEVEL)
    else if level < UNARY_LEVEL then
      if e.Binary? && LevelOf(e.op) == level then Max(Peak(e.l, level), 2 + Ops(e.l, level) + Peak(e.r, level + 1))
      else if e.Logical? && LevelOf(e.op) == level then Max(1 + Peak(e.l, level + 1), 1 + Peak(e.r, level))
      else 1 + Peak(e, level + 1)
    else
      match e
      case Paren(e) => Peak(e, ASSIGN_LEVEL)
      case Unary(_, e) => Peak(e, UNARY_LEVEL)
      case Postfix(_, e) => Peak(e, UNARY_LEVEL)
      case _ => 0
  }

  /** An attempt from depth `d` on succeeds exactly when the reader finds a tree that is not too deep; it then has
      found the same tree, and stands where the reader stopped. */
  predicate Agrees(accepted: bool, e: Expr, toks: seq<Token>, pos: int, found: Found<Expr>, level: nat, d: int) {
    if accepted then 0 <= pos <= |toks| && found == Found(e, toks[pos..]) && d + Peak(e, level) <= DEPTH_LIMIT
    else found.Found? ==> d + Peak(found.tree, level) > DEPTH_LIMIT
  }

  lemma Suffix(toks: seq<Token>, p: int)
    requires 0 <= p <= |toks|
    ensures KindOf(toks[p..]) == KindIn(toks, p)
    ensures p < |toks| ==> toks[p..] != [] && toks[p..][0] == toks[p] && toks[p..][1..] == toks[p + 1..]
  {}

  // ----- primaries, postfix and unary operators -----

  lemma LiteralAgrees(toks: seq<Token>, p: int, prev: nat, e: Expr, d: int)
    requires 0 <= p < |toks| && d <= DEPTH_LIMIT && LiteralAt(toks[p]).Some? && e == Lit(LiteralAt(toks[p]).value)
    ensures Agrees(true, e, toks, p + 1, ReadPrimary(prev, toks[p..]), PRIMARY_LEVEL, d)
  {
    Suffix(toks, p);
  }

  lemma NameAgrees(toks: seq<Token>, p: int, prev: nat, e: Expr, d: int)
    requires 0 <= p < |toks| && d <= DEPTH_LIMIT && toks[p].Name?
    requires e == if Updates(prev, KindIn(toks, p + 1)) then Ref(toks[p].text) else Ident(toks[p].text)
    ensures Agrees(prev != TOK_DOT, e, toks, p + 1, ReadPrimary(prev, toks[p..]), PRIMARY_LEVEL, d)
  {
    Suffix(toks, p);
    Suffix(toks, p + 1);
  }

  /** Nothing else but a parenthesis starts a primary. */
  lemma NoPrimary(toks: seq<Token>, p: int, prev: nat, e: Expr, pos: int, d: int)
    requires 0 <= p <= |toks|
    requires p == |toks| || (LiteralAt(toks[p]).None? && !toks[p].Name? && toks[p].tok != TOK_OPEN_PAREN)
    ensures Agrees(false, e, toks, pos, ReadPrimary(prev, toks[p..]), PRIMARY_LEVEL, d)
  {
    Suffix(toks, p);
  }

  lemma ParenAgrees(ok: bool, e: Expr, toks: seq<Token>, p: int, q: int, prev: nat, d: int)
    requires Clean(toks) && KindIn(toks, p) == TOK_OPEN_PAREN
    requires Agrees(ok, e, toks, q, Read(ASSIGN_LEVEL, TOK_OPEN_PAREN, toks[p + 1..]), ASSIGN_LEVEL, d)
    ensures Agrees(ok && KindIn(toks, q) == TOK_CLOSE_PAREN, Paren(e), toks, q + 1, ReadPrimary(prev, toks[p..]), PRIMARY_LEVEL, d)
  {
    hide Read, Clean;
    PlainAt(toks, p);
    Suffix(toks, p);
    if ok {
      Suffix(toks, q);
    }
  }

  /** A primary, and what stands behind it. */
  lemma PostfixAgrees(ok: bool, e: Expr, toks: seq<Token>, q: int, prev: nat, rest: seq<Token>, d: int)
    requires Agrees(ok, e, toks, q, ReadPrimary(prev, rest), PRIMARY_LEVEL, d)
    ensures var tok := KindIn(toks, q); var found := ReadPostfix(prev, rest);
            if ok && !IsMember(tok) then
              if IsCrement(tok) then Agrees(true, Postfix(tok, e), toks, q + 1, found, UNARY_LEVEL, d)
              else Agrees(true, e, toks, q, found, UNARY_LEVEL, d)
            else Agrees(false, e, toks, q, found, UNARY_LEVEL, d)
  {
    hide ReadPrimary;
    if ReadPrimary(prev, rest).Found? {
      FitsPrimary(prev, rest);
      PeakPrimary(ReadPrimary(prev, rest).tree);
    }
    if ok {
      Suffix(toks, q);
    }
  }

  lemma FitsPrimary(prev: nat, rest: seq<Token>)
    requires ReadPrimary(prev, rest).Found?
    ensures Fits(ReadPrimary(prev, rest).tree, PRIMARY_LEVEL)
  {
    hide ReadPrimary;
    PrimarySound(prev, rest);
  }

  lemma PeakPrimary(e: Expr)
    requires Fits(e, PRIMARY_LEVEL)
    ensures Peak(e, PRIMARY_LEVEL) == Peak(e, UNARY_LEVEL)
  {}

  /** A unary operator, and what it applies to. */
  lemma UnaryAgrees(ok: bool, e: Expr, toks: seq<Token>, p: int, q: int, prev: nat, op: nat, d: int)
    requires 0 <= p < |toks| && KindIn(toks, p) == op && IsUnary(op)
    requires Agrees(ok, e, toks, q, ReadUnary(op, toks[p + 1..]), UNARY_LEVEL, d)
    ensures Agrees(ok, Unary(op, e), toks, q, ReadUnary(prev, toks[p..]), UNARY_LEVEL, d)
  {
    hide ReadPostfix;
    Suffix(toks, p);
  }

  lemma NoUnary(toks: seq<Token>, p: int, prev: nat)
    requires 0 <= p <= |toks| && !IsUnary(KindIn(toks, p))
    ensures ReadUnary(prev, toks[p..]) == ReadPostfix(prev, toks[p..])
  {
    Suffix(toks, p);
  }

  // ----- one binary level -----

  lemma PeakLooser(e: Expr, level: nat)
    requires level < UNARY_LEVEL && Fits(e, level + 1)
    ensures Peak(e, level) == Peak(e, level + 1) + if level < OR_LEVEL then 0 else 1
    ensures OR_LEVEL <= level ==> Ops(e, level) == 0
  {}

  /** A tree without infix operators opens every binary level once. */
  lemma {:induction false} PeakOfOperand(e: Expr, level: nat)
    requires Fits(e, UNARY_LEVEL) && level <= UNARY_LEVEL
    ensures Fits(e, level) && Peak(e, level) <= Peak(e, UNARY_LEVEL) + 10
    ensures OR_LEVEL <= level ==> Peak(e, level) == Peak(e, UNARY_LEVEL) + UNARY_LEVEL - level
    decreases UNARY_LEVEL - level
  {
    hide Peak;
    if level < UNARY_LEVEL {
      PeakOfOperand(e, level + 1);
      PeakLooser(e, level);
    }
  }

  lemma {:induction false} PeakPositive(e: Expr, level: nat)
    requires level < UNARY_LEVEL
    ensures Peak(e, level) >= 1
    decreases e, 20 - level
  {
    if level == ASSIGN_LEVEL {
      if e.Assign? {
        PeakPositive(e.l, TERNARY_LEVEL);
      } else {
        PeakPositive(e, TERNARY_LEVEL);
      }
    }
  }

  /** Operators behind an operand only deepen the tree. */
  lemma {:induction false} MoreDeeper(level: nat, l: Expr, toks: seq<Token>)
    requires OR_LEVEL <= level < UNARY_LEVEL && ReadMore(level, l, toks).Found? && (level < 4 ==> Fits(l, level + 1))
    ensures Peak(ReadMore(level, l, toks).tree, level) >= Peak(l, level)
    decreases |toks|
  {
    hide Read, Fits;
    var op := KindOf(toks);
    if toks != [] && OpAt(level, op) {
      OneLevel(level, op);
      if level < 4 {
        PeakLooser(l, level);
      } else {
        var r := Read(level + 1, op, toks[1..]);
        MoreDeeper(level, Binary(op, l, r.tree), r.rest);
      }
    }
  }

  /** The first operand of a level. */
  lemma LevelStart(ok: bool, e: Expr, toks: seq<Token>, q: int, level: nat, prev: nat, rest: seq<Token>, d: int)
    requires OR_LEVEL <= level < UNARY_LEVEL && Agrees(ok, e, toks, q, Read(level + 1, prev, rest), level + 1, d + 1)
    ensures if ok then Read(level, prev, rest) == ReadMore(level, e, toks[q..]) && d + Peak(e, level) <= DEPTH_LIMIT
                       && Ops(e, level) == 0 && Fits(e, level + 1)
            else Agrees(false, e, toks, q, Read(level, prev, rest), level, d)
  {
    hide ReadMore, ReadUnary, ReadBranches, Fits;
    var inner := Read(level + 1, prev, rest);
    if inner.Found? {
      FitsRead(level + 1, prev, rest);
      PeakLooser(inner.tree, level);
      if ReadMore(level, inner.tree, inner.rest).Found? {
        MoreDeeper(level, inner.tree, inner.rest);
      }
    }
  }

  lemma FitsRead(level: nat, prev: nat, toks: seq<Token>)
    requires level <= UNARY_LEVEL && Read(level, prev, toks).Found?
    ensures Fits(Read(level, prev, toks).tree, level)
  {
    hide Read;
    ReadSound(level, prev, toks);
  }

  lemma MoreStep(level: nat, l: Expr, toks: seq<Token>)
    requires 4 <= level < UNARY_LEVEL && toks != [] && OpAt(level, KindOf(toks))
    ensures var inner := Read(level + 1, KindOf(toks), toks[1..]);
            ReadMore(level, l, toks)
            == if inner.Found? then ReadMore(level, Binary(KindOf(toks), l, inner.tree), inner.rest) else NotFound
  {
    hide Read, OpAt;
  }

  lemma PeakBinary(level: nat, op: nat, l: Expr, r: Expr)
    requires 4 <= level < UNARY_LEVEL && OpAt(level, op)
    ensures Ops(Binary(op, l, r), level) == 1 + Ops(l, level)
    ensures Peak(Binary(op, l, r), level) == Max(Peak(l, level), 2 + Ops(l, level) + Peak(r, level + 1))
  {
    hide OpAt;
    OneLevel(level, op);
  }

  /** One more operand, behind the operator at `p`. */
  lemma LevelNext(ok: bool, l: Expr, r: Expr, toks: seq<Token>, p: int, q: int, level: nat, d: int)
    requires 0 <= p < |toks| && 4 <= level < UNARY_LEVEL && OpAt(level, KindIn(toks, p)) && d + Peak(l, level) <= DEPTH_LIMIT
    requires Agrees(ok, r, toks, q, Read(level + 1, KindIn(toks, p), toks[p + 1..]), level + 1, d + 2 + Ops(l, level))
    ensures var e := Binary(KindIn(toks, p), l, r);
            if ok then ReadMore(level, l, toks[p..]) == ReadMore(level, e, toks[q..]) && d + Peak(e, level) <= DEPTH_LIMIT
                       && Ops(e, level) == Ops(l, level) + 1
            else Agrees(false, e, toks, q, ReadMore(level, l, toks[p..]), level, d)
  {
    hide Read, ReadMore, OpAt, Peak, Ops;
    var op := KindIn(toks, p);
    Suffix(toks, p);
    MoreStep(level, l, toks[p..]);
    var inner := Read(level + 1, op, toks[p + 1..]);
    if inner.Found? {
      PeakBinary(level, op, l, inner.tree);
    }
    if inner.Found? && ReadMore(level, Binary(op, l, inner.tree), inner.rest).Found? {
      MoreDeeper(level, Binary(op, l, inner.tree), inner.rest);
    }
  }

  lemma LevelStop(e: Expr, toks: seq<Token>, q: int, level: nat, d: int)
    requires 0 <= q <= |toks| && OR_LEVEL <= level < UNARY_LEVEL && !OpAt(level, KindIn(toks, q)) && d + Peak(e, level) <= DEPTH_LIMIT
    ensures Agrees(true, e, toks, q, ReadMore(level, e, toks[q..]), level, d)
  {
    hide OpAt, Peak;
    Suffix(toks, q);
  }

  /** There is no room for a level, however little it holds. */
  lemma NoRoom(e: Expr, toks: seq<Token>, pos: int, found: Found<Expr>, level: nat, d: int)
    requires level < UNARY_LEVEL && d + 1 > DEPTH_LIMIT
    ensures Agrees(false, e, toks, pos, found, level, d)
  {
    hide Peak;
    if found.Found? {
      PeakPositive(found.tree, level);
    }
  }

  /** There is no room for the operand behind the operator at `p`. */
  lemma NoRoomNext(l: Expr, toks: seq<Token>, p: int, pos: int, level: nat, d: int)
    requires 0 <= p < |toks| && 4 <= level < UNARY_LEVEL && OpAt(level, KindIn(toks, p)) && d + 2 + Ops(l, level) > DEPTH_LIMIT
    ensures Agrees(false, l, toks, pos, ReadMore(level, l, toks[p..]), level, d)
  {
    hide Read, ReadMore, OpAt, Peak, Ops;
    var op := KindIn(toks, p);
    Suffix(toks, p);
    MoreStep(level, l, toks[p..]);
    var inner := Read(level + 1, op, toks[p + 1..]);
    if inner.Found? {
      PeakBinary(level, op, l, inner.tree);
    }
    if inner.Found? && ReadMore(level, Binary(op, l, inner.tree), inner.rest).Found? {
      MoreDeeper(level, Binary(op, l, inner.tree), inner.rest);
    }
  }

  /** What a call for one operand of `level` should find from `here` on: a whole level, or the operand behind an
      operator and the rest of the level. */
  function Sought(toks: seq<Token>, here: int, level: nat, prevOp: nat, left: Expr): Found<Expr>
    requires OR_LEVEL <= level < UNARY_LEVEL && 0 <= here <= |toks| && (prevOp != TOK_EOF ==> here > 0)
  {
    if prevOp == TOK_EOF then Read(level, KindIn(toks, here - 1), toks[here..]) else ReadMore(level, left, toks[here - 1..])
  }

  /** The depth at which such a call finds the parser: inside one call for every operand to the left. */
  function Entered(level: nat, prevOp: nat, left: Expr, d: int): int {
    if prevOp == TOK_EOF then d else d + 1 + Ops(left, level)
  }

  predicate Behind(toks: seq<Token>, here: int, level: nat, prevOp: nat) {
    prevOp != TOK_EOF ==> 4 <= level && here > 0 && OpAt(level, prevOp) && KindIn(toks, here - 1) == prevOp
  }

  lemma LevelFull(toks: seq<Token>, here: int, level: nat, prevOp: nat, left: Expr, e: Expr, pos: int, d: int)
    requires OR_LEVEL <= level < UNARY_LEVEL && 0 <= here <= |toks| && Behind(toks, here, level, prevOp)
    requires Entered(level, prevOp, left, d) + 1 > DEPTH_LIMIT
    ensures Agrees(false, e, toks, pos, Sought(toks, here, level, prevOp, left), level, d)
  {
    hide Read, ReadMore, OpAt, Peak, Ops;
    if prevOp == TOK_EOF {
      NoRoom(e, toks, pos, Sought(toks, here, level, prevOp, left), level, d);
    } else {
      NoRoomNext(left, toks, here - 1, pos, level, d);
    }
  }

  /** The operand that a call for `level` has compiled, together with what was to its left. */
  function Joined(prevOp: nat, left: Expr, e: Expr): Expr {
    if prevOp == TOK_EOF then e else Binary(prevOp, left, e)
  }

  lemma LevelOperand(ok: bool, e: Expr, toks: seq<Token>, here: int, q: int, level: nat, prevOp: nat, left: Expr, d: int)
    requires OR_LEVEL <= level < UNARY_LEVEL && 0 <= here <= |toks| && Behind(toks, here, level, prevOp)
    requires prevOp != TOK_EOF ==> d + Peak(left, level) <= DEPTH_LIMIT
    requires Agrees(ok, e, toks, q, Read(level + 1, KindIn(toks, here - 1), toks[here..]), level + 1,
                    Entered(level, prevOp, left, d) + 1)
    ensures var found := Sought(toks, here, level, prevOp, left); var whole := Joined(prevOp, left, e);
            if ok then found == ReadMore(level, whole, toks[q..]) && d + Peak(whole, level) <= DEPTH_LIMIT
                       && Entered(level, prevOp, left, d) == d + Ops(whole, level) && (prevOp == TOK_EOF ==> Fits(e, level + 1))
            else Agrees(false, e, toks, q, found, level, d)
  {
    hide Read, ReadMore, OpAt, Peak, Ops, Fits;
    if prevOp == TOK_EOF {
      LevelStart(ok, e, toks, q, level, KindIn(toks, here - 1), toks[here..], d);
    } else {
      LevelNext(ok, left, e, toks, here - 1, q, level, d);
    }
  }

  lemma LogicalAgrees(ok: bool, l: Expr, r: Expr, toks: seq<Token>, p: int, q: int, level: nat, d: int)
    requires 0 <= p < |toks| && OR_LEVEL <= level < 4 && OpAt(level, KindIn(toks, p)) && d + Peak(l, level) <= DEPTH_LIMIT
    requires Fits(l, level + 1) && Agrees(ok, r, toks, q, Read(level, KindIn(toks, p), toks[p + 1..]), level, d + 1)
    ensures Agrees(ok, Logical(KindIn(toks, p), l, r), toks, q, ReadMore(level, l, toks[p..]), level, d)
  {
    hide Read, OpAt, Fits;
    OneLevel(level, KindIn(toks, p));
    Suffix(toks, p);
    PeakLooser(l, level);
  }

  // ----- `?:` and assignment -----

  lemma TernaryAgrees(ok: bool, c: Expr, toks: seq<Token>, q: int, prev: nat, rest: seq<Token>, d: int)
    requires Agrees(ok, c, toks, q, Read(OR_LEVEL, prev, rest), OR_LEVEL, d)
    ensures var found := Read(TERNARY_LEVEL, prev, rest);
            if !ok then Agrees(false, c, toks, q, found, TERNARY_LEVEL, d)
            else if KindIn(toks, q) != TOK_QUESTION then Agrees(true, c, toks, q, found, TERNARY_LEVEL, d)
            else found == ReadBranches(c, toks[q + 1..]) && d + Peak(c, OR_LEVEL) <= DEPTH_LIMIT
  {
    hide ReadMore, ReadUnary, Fits;
    var inner := Read(OR_LEVEL, prev, rest);
    if inner.Found? {
      FitsRead(OR_LEVEL, prev, rest);
      NotCond(inner.tree);
    }
    if ok {
      Suffix(toks, q);
    }
  }

  lemma NotCond(e: Expr)
    requires Fits(e, OR_LEVEL)
    ensures !e.Cond? && !e.Assign?
  {}

  lemma ThenAgrees(ok: bool, c: Expr, t: Expr, toks: seq<Token>, p: int, q: int, pos: int, d: int)
    requires 0 <= p < |toks| && d + Peak(c, OR_LEVEL) <= DEPTH_LIMIT
    requires Agrees(ok, t, toks, q, Read(TERNARY_LEVEL, TOK_QUESTION, toks[p + 1..]), TERNARY_LEVEL, d)
    ensures !(ok && KindIn(toks, q) == TOK_COLON) ==>
              Agrees(false, t, toks, pos, ReadBranches(c, toks[p + 1..]), TERNARY_LEVEL, d)
  {
    hide Read;
    if ok {
      Suffix(toks, q);
    }
  }

  lemma CondAgrees(ok: bool, c: Expr, t: Expr, f: Expr, toks: seq<Token>, p: int, q: int, r: int, d: int)
    requires 0 <= p < |toks| && d + Peak(c, OR_LEVEL) <= DEPTH_LIMIT && KindIn(toks, q) == TOK_COLON
    requires Agrees(true, t, toks, q, Read(TERNARY_LEVEL, TOK_QUESTION, toks[p + 1..]), TERNARY_LEVEL, d)
    requires Agrees(ok, f, toks, r, Read(TERNARY_LEVEL, TOK_COLON, toks[q + 1..]), TERNARY_LEVEL, d)
    ensures Agrees(ok, Cond(c, t, f), toks, r, ReadBranches(c, toks[p + 1..]), TERNARY_LEVEL, d)
  {
    hide Read;
    Suffix(toks, q);
  }

  lemma AssignAgrees(ok: bool, l: Expr, toks: seq<Token>, p: int, prev: nat, rest: seq<Token>, d: int)
    requires Agrees(ok, l, toks, p, Read(TERNARY_LEVEL, prev, rest), TERNARY_LEVEL, d)
    ensures var found := Read(ASSIGN_LEVEL, prev, rest);
            if !ok then Agrees(false, l, toks, p, found, ASSIGN_LEVEL, d)
            else !IsAssignOp(KindIn(toks, p)) ==> Agrees(true, l, toks, p, found, ASSIGN_LEVEL, d)
  {
    hide ReadMore, ReadBranches, ReadUnary, Fits;
    var inner := Read(TERNARY_LEVEL, prev, rest);
    if inner.Found? {
      FitsRead(TERNARY_LEVEL, prev, rest);
      NotAssign(inner.tree);
    }
    if ok {
      Suffix(toks, p);
    }
  }

  lemma NotAssign(e: Expr)
    requires Fits(e, TERNARY_LEVEL)
    ensures !e.Assign?
  {}

  lemma AssignedAgrees(ok: bool, l: Expr, r: Expr, toks: seq<Token>, p: int, q: int, prev: nat, rest: seq<Token>, d: int)
    requires Agrees(true, l, toks, p, Read(TERNARY_LEVEL, prev, rest), TERNARY_LEVEL, d) && IsAssignOp(KindIn(toks, p))
    requires p < |toks| && Agrees(ok, r, toks, q, Read(ASSIGN_LEVEL, KindIn(toks, p), toks[p + 1..]), ASSIGN_LEVEL, d)
    ensures Agrees(ok, Assign(KindIn(toks, p), l, r), toks, q, Read(ASSIGN_LEVEL, prev, rest), ASSIGN_LEVEL, d)
  {
    hide ReadMore, ReadBranches, ReadUnary;
    Suffix(toks, p);
  }
}
