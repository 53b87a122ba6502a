/** The trees the parser recognises, the tokens they are written with and the code they stand for. */
module Syntax {
  import opened Options
  import opened Varint
  import opened Bytecode
  import opened Tokens

  /** An integer literal that fits a C `int64_t`. */
  type Whole = n: nat | n < 0x8000_0000_0000_0000

  datatype Token =
    | Plain(tok: nat)
    | Name(text: Text)
    | Quoted(text: Text)
    | Integer(n: Whole)
    | Fraction(text: Text)

  function Kind(t: Token): nat {
    match t
    case Plain(tok) => tok
    case Name(_) => TOK_IDENT
    case Quoted(_) => TOK_STR
    case Integer(_) => TOK_NUM
    case Fraction(_) => TOK_NUM
  }

  datatype Literal =
    | LitFalse | LitTrue | LitUndefined | LitNull | LitThis
    | LitInteger(n: Whole) | LitFraction(text: Text) | LitString(text: Text)

  /** `Ident` reads a variable; `Ref` names one that is about to be assigned, and leaves two values. */
  datatype Expr =
    | Lit(lit: Literal)
    | Ident(x: Text)
    | Ref(x: Text)
    | Paren(e: Expr)
    | Unary(op: nat, e: Expr)
    | Postfix(op: nat, e: Expr)
    | Binary(op: nat, l: Expr, r: Expr)
    | Logical(op: nat, l: Expr, r: Expr)
    | Cond(c: Expr, t: Expr, f: Expr)
    | Assign(op: nat, l: Expr, r: Expr)

  datatype Exprs = One(e: Expr) | More(e: Expr, rest: Exprs)

  /** The variables of a `let`; `comma` says whether a comma follows. */
  datatype Decls = NoDecls | Decl(x: Text, init: Option<Expr>, comma: bool, rest: Decls)

  datatype Stmt =
    | Empty
    | ExprStmt(es: Exprs)
    | Let(ds: Decls)
    | Block(body: Stmts)
    | If(c: Expr, t: Stmt)
    | IfElse(c: Expr, t: Stmt, f: Stmt)
    | While(c: Expr, body: Stmts)
    | WhileOne(c: Expr, s: Stmt)
    | Break
    | Continue
    | Return(result: Option<Expr>)

  /** A statement list; `semis` counts the semicolons after a statement. */
  datatype Stmts = NoStmts | Stmts(s: Stmt, semis: nat, rest: Stmts)

  // ----- how trees are written -----

  function LiteralToken(lit: Literal): Token {
    match lit
    case LitFalse => Plain(TOK_KEYWORD_FALSE)
    case LitTrue => Plain(TOK_KEYWORD_TRUE)
    case LitUndefined => Plain(TOK_KEYWORD_UNDEFINED)
    case LitNull => Plain(TOK_KEYWORD_NULL)
    case LitThis => Plain(TOK_KEYWORD_THIS)
    case LitInteger(n) => Integer(n)
    case LitFraction(text) => Fraction(text)
    case LitString(text) => Quoted(text)
  }

  /** The tokens that are literals by themselves. */
  function LiteralAt(t: Token): Option<Literal> {
    match t
    case Integer(n) => Some(LitInteger(n))
    case Fraction(text) => Some(LitFraction(text))
    case Quoted(text) => Some(LitString(text))
    case Name(_) => None
    case Plain(tok) =>
      if tok == TOK_KEYWORD_FALSE then Some(LitFalse)
      else if tok == TOK_KEYWORD_TRUE then Some(LitTrue)
      else if tok == TOK_KEYWORD_UNDEFINED then Some(LitUndefined)
      else if tok == TOK_KEYWORD_NULL then Some(LitNull)
      else if tok == TOK_KEYWORD_THIS then Some(LitThis)
      else None
  }

  function Written(e: Expr): (s: seq<Token>)
    ensures |s| > 0
  {
    match e
    case Lit(lit) => [LiteralToken(lit)]
    case Ident(x) => [Name(x)]
    case Ref(x) => [Name(x)]
    case Paren(e) => [Plain(TOK_OPEN_PAREN)] + Written(e) + [Plain(TOK_CLOSE_PAREN)]
    case Unary(op, e) => [Plain(op)] + Written(e)
    case Postfix(op, e) => Written(e) + [Plain(op)]
    case Binary(op, l, r) => Written(l) + [Plain(op)] + Written(r)
    case Logical(op, l, r) => Written(l) + [Plain(op)] + Written(r)
    case Cond(c, t, f) => Written(c) + [Plain(TOK_QUESTION)] + Written(t) + [Plain(TOK_COLON)] + Written(f)
    case Assign(op, l, r) => Written(l) + [Plain(op)] + Written(r)
  }

  function WrittenExprs(es: Exprs): (s: seq<Token>)
    ensures |s| > 0
  {
    match es
    case One(e) => Written(e)
    case More(e, rest) => Written(e) + [Plain(TOK_COMMA)] + WrittenExprs(rest)
  }

  function WrittenDecls(ds: Decls): seq<Token> {
    match ds
    case NoDecls => []
    case Decl(x, init, comma, rest) =>
      [Name(x)] + (if init.Some? then [Plain(TOK_ASSIGN)] + Written(init.value) else [])
      + (if comma then [Plain(TOK_COMMA)] else []) + WrittenDecls(rest)
  }

  function Semis(n: nat): (s: seq<Token>)
    ensures |s| == n
  {
    if n == 0 then [] else [Plain(TOK_SEMICOLON)] + Semis(n - 1)
  }

  function WrittenStmt(s: Stmt): seq<Token> {
    match s
    case Empty => [Plain(TOK_SEMICOLON)]
    case ExprStmt(es) => WrittenExprs(es)
    case Let(ds) => [Plain(TOK_KEYWORD_LET)] + WrittenDecls(ds)
    case Block(body) => [Plain(TOK_OPEN_CURLY)] + WrittenStmts(body) + [Plain(TOK_CLOSE_CURLY)]
    case If(c, t) =>
      [Plain(TOK_KEYWORD_IF), Plain(TOK_OPEN_PAREN)] + Written(c) + [Plain(TOK_CLOSE_PAREN)] + WrittenStmt(t)
    case IfElse(c, t, f) =>
      [Plain(TOK_KEYWORD_IF), Plain(TOK_OPEN_PAREN)] + Written(c) + [Plain(TOK_CLOSE_PAREN)] + WrittenStmt(t)
      + [Plain(TOK_KEYWORD_ELSE)] + WrittenStmt(f)
    case While(c, body) =>
      [Plain(TOK_KEYWORD_WHILE), Plain(TOK_OPEN_PAREN)] + Written(c) + [Plain(TOK_CLOSE_PAREN), Plain(TOK_OPEN_CURLY)]
      + WrittenStmts(body) + [Plain(TOK_CLOSE_CURLY)]
    case WhileOne(c, s) =>
      [Plain(TOK_KEYWORD_WHILE), Plain(TOK_OPEN_PAREN)] + Written(c) + [Plain(TOK_CLOSE_PAREN)] + WrittenStmt(s)
    case Break => [Plain(TOK_KEYWORD_BREAK)]
    case Continue => [Plain(TOK_KEYWORD_CONTINUE)]
    case Return(None) => [Plain(TOK_KEYWORD_RETURN)]
    case Return(Some(e)) => [Plain(TOK_KEYWORD_RETURN)] + Written(e)
  }

  function WrittenStmts(ss: Stmts): seq<Token> {
    match ss
    case NoStmts => []
    case Stmts(s, semis, rest) => WrittenStmt(s) + Semis(semis) + WrittenStmts(rest)
  }

  // ----- the grammar -----

  // The levels of the parser, loosest first; each binary level is one use of `PARSE_LTR_BINOP`.
  const ASSIGN_LEVEL: nat := 0
  const TERNARY_LEVEL: nat := 1
  const OR_LEVEL: nat := 2
  const AND_LEVEL: nat := 3
  const UNARY_LEVEL: nat := 12
  const PRIMARY_LEVEL: nat := 13

  /** `ops` of the binary level `n`. */
  predicate OpAt(n: nat, op: nat) {
    if n == OR_LEVEL then op == TOK_LOGICAL_OR
    else if n == AND_LEVEL then op == TOK_LOGICAL_AND
    else if n == 4 then op == TOK_OR
    else if n == 5 then op == TOK_XOR
    else if n == 6 then op == TOK_AND
    else if n == 7 then IsEquality(op)
    else if n == 8 then IsComparison(op)
    else if n == 9 then op == TOK_LSHIFT || op == TOK_RSHIFT || op == TOK_URSHIFT
    else if n == 10 then op == TOK_PLUS || op == TOK_MINUS
    else if n == 11 then op == TOK_MUL || op == TOK_DIV || op == TOK_REM
    else false
  }

  /** The level a binary operator belongs to. */
  function LevelOf(op: nat): nat {
    if op == TOK_LOGICAL_OR then OR_LEVEL
    else if op == TOK_LOGICAL_AND then AND_LEVEL
    else if op == TOK_OR then 4
    else if op == TOK_XOR then 5
    else if op == TOK_AND then 6
    else if IsEquality(op) then 7
    else if IsComparison(op) then 8
    else if op == TOK_PLUS || op == TOK_MINUS then 10
    else if op == TOK_MUL || op == TOK_DIV || op == TOK_REM then 11
    else 9
  }

  /** `e` is a tree of the grammar at `level`: every operator binds at its own level, arithmetic nests to the
      left, and logical operators, `?:` and assignment nest to the right. */
  predicate Fits(e: Expr, level: nat) {
    match e
    case Lit(_) => true
    case Ident(_) => true
    case Ref(_) => true
    case Paren(e) => Fits(e, ASSIGN_LEVEL)
    case Unary(op, e) => level <= UNARY_LEVEL && IsUnary(op) && Fits(e, UNARY_LEVEL)
    case Postfix(op, e) => level <= UNARY_LEVEL && IsCrement(op) && Fits(e, PRIMARY_LEVEL)
    case Binary(op, l, r) =>
      level <= LevelOf(op) && IsBinary(op) && Fits(l, LevelOf(op)) && Fits(r, LevelOf(op) + 1)
    case Logical(op, l, r) =>
      level <= LevelOf(op) && IsLogical(op) && Fits(l, LevelOf(op) + 1) && Fits(r, LevelOf(op))
    case Cond(c, t, f) =>
      level <= TERNARY_LEVEL && Fits(c, OR_LEVEL) && Fits(t, TERNARY_LEVEL) && Fits(f, TERNARY_LEVEL)
    case Assign(op, l, r) =>
      level == ASSIGN_LEVEL && IsAssignOp(op) && Fits(l, TERNARY_LEVEL) && Fits(r, ASSIGN_LEVEL)
  }

  /** Whether an identifier between these two tokens names a variable to update rather than to read. */
  predicate Updates(prev: nat, next: nat) {
    IsAssignOp(next) || IsCrement(next) || IsCrement(prev)
  }

  /** Every identifier of `e` is a `Ref` exactly where its neighbours say so. */
  predicate Placed(e: Expr, prev: nat, next: nat) {
    match e
    case Lit(_) => true
    case Ident(_) => !Updates(prev, next)
    case Ref(_) => Updates(prev, next)
    case Paren(e) => Placed(e, TOK_OPEN_PAREN, TOK_CLOSE_PAREN)
    case Unary(op, e) => Placed(e, op, next)
    case Postfix(op, e) => Placed(e, prev, op)
    case Binary(op, l, r) => Placed(l, prev, op) && Placed(r, op, next)
    case Logical(op, l, r) => Placed(l, prev, op) && Placed(r, op, next)
    case Cond(c, t, f) => Placed(c, prev, TOK_QUESTION) && Placed(t, TOK_QUESTION, TOK_COLON) && Placed(f, TOK_COLON, next)
    case Assign(op, l, r) => Placed(l, prev, op) && Placed(r, op, next)
  }

  /** References stand only where their two values are consumed. */
  predicate Proper(e: Expr) {
    match e
    case Lit(_) => true
    case Ident(_) => true
    case Ref(_) => false
    case Paren(e) => Proper(e)
    case Unary(op, e) => if IsCrement(op) then e.Ref? else IsUnary(op) && Proper(e)
    case Postfix(op, e) => IsCrement(op) && e.Ref?
    case Binary(op, l, r) => IsBinary(op) && Proper(l) && Proper(r)
    case Logical(op, l, r) => IsLogical(op) && Proper(l) && Proper(r)
    case Cond(c, t, f) => Proper(c) && Proper(t) && Proper(f)
    case Assign(op, l, r) => IsAssignOp(op) && l.Ref? && Proper(r)
  }

  /** No assignment, increment or decrement anywhere. */
  predicate Pure(e: Expr) {
    match e
    case Lit(_) => true
    case Ident(_) => true
    case Ref(_) => true
    case Paren(e) => Pure(e)
    case Unary(op, e) => !IsCrement(op) && Pure(e)
    case Postfix(_, _) => false
    case Binary(_, l, r) => Pure(l) && Pure(r)
    case Logical(_, l, r) => Pure(l) && Pure(r)
    case Cond(c, t, f) => Pure(c) && Pure(t) && Pure(f)
    case Assign(_, _, _) => false
  }

  /** What the parser builds out of literals, variables, unary and binary operators, `&&`, `||` and `?:` is proper. */
  lemma {:induction false} PureIsProper(e: Expr, level: nat, prev: nat, next: nat)
    requires Pure(e) && Fits(e, level) && Placed(e, prev, next) && !Updates(prev, next)
    ensures Proper(e)
  {
    match e
    case Paren(e) => PureIsProper(e, ASSIGN_LEVEL, TOK_OPEN_PAREN, TOK_CLOSE_PAREN);
    case Unary(op, e) => PureIsProper(e, UNARY_LEVEL, op, next);
    case Binary(op, l, r) =>
      PureIsProper(l, LevelOf(op), prev, op);
      PureIsProper(r, LevelOf(op) + 1, op, next);
    case Logical(op, l, r) =>
      PureIsProper(l, LevelOf(op) + 1, prev, op);
      PureIsProper(r, LevelOf(op), op, next);
    case Cond(c, t, f) =>
      PureIsProper(c, OR_LEVEL, prev, TOK_QUESTION);
      PureIsProper(t, TERNARY_LEVEL, TOK_QUESTION, TOK_COLON);
      PureIsProper(f, TERNARY_LEVEL, TOK_COLON, next);
    case _ =>
  }

  // ----- the code -----

  function LiteralCode(lit: Literal): Instr {
    match lit
    case LitFalse => PushBool(false)
    case LitTrue => PushBool(true)
    case LitUndefined => PushUndef
    case LitNull => PushNull
    case LitThis => PushThis
    case LitInteger(n) => PushInt(n)
    case LitFraction(text) => PushDbl(text)
    case LitString(text) => PushStr(text)
  }

  function RefCode(x: Text): seq<Byte> {
    Asm(PushStr(x)) + Asm(FindScope)
  }

  function OpByte(op: nat): Byte {
    if op < 256 then op else 0
  }

  /** The right operand of `&&` or `||`, behind the jump that may skip it. */
  function SkipCode(op: nat, n: nat): seq<Byte> {
    Asm(JmpNeutral(op == TOK_LOGICAL_OR, 1 + n)) + Asm(Drop)
  }

  /** The jump that ends the first branch, and the drop that opens the second. */
  function ElseCode(n: nat): seq<Byte> {
    Asm(Jmp(1 + n)) + Asm(Drop)
  }

  /** How far `JmpFalse` has to go to reach that drop. */
  function ElseDistance(t: nat, f: nat): nat {
    t + |Asm(Jmp(1 + f))|
  }

  function Code(e: Expr): (s: seq<Byte>)
    ensures |s| >= 1
  {
    match e
    case Lit(lit) => Asm(LiteralCode(lit))
    case Ident(x) => RefCode(x) + Asm(Get)
    case Ref(x) => RefCode(x)
    case Paren(e) => Code(e)
    case Unary(op, e) => Code(e) + Asm(Instr.Expr(OpByte(UnaryCode(op))))
    case Postfix(op, e) => Code(e) + Asm(Instr.Expr(OpByte(PostfixCode(op))))
    case Binary(op, l, r) => Code(l) + Code(r) + Asm(Instr.Expr(OpByte(op)))
    case Logical(op, l, r) => Code(l) + SkipCode(op, |Code(r)|) + Code(r)
    case Cond(c, t, f) => Code(c) + Branches(Code(t), Code(f))
    case Assign(op, l, r) => Code(l) + Code(r) + Asm(Instr.Expr(OpByte(op)))
  }

  /** A two-way branch on the value on top of the stack, between code that is already there. */
  function Branches(t: seq<Byte>, f: seq<Byte>): (s: seq<Byte>)
    ensures |s| >= 1
  {
    Asm(JmpFalse(ElseDistance(|t|, |f|))) + t + ElseCode(|f|) + f
  }

  function ExprsCode(es: Exprs): seq<Byte> {
    match es
    case One(e) => Code(e)
    case More(e, rest) => Code(e) + Asm(Drop) + ExprsCode(rest)
  }

  function DeclareCode(x: Text): seq<Byte> {
    Asm(PushStr(x)) + Asm(PushScope) + Asm(Create)
  }

  function InitCode(x: Text, init: Option<Expr>): seq<Byte> {
    if init.Some? then RefCode(x) + Code(init.value) + Asm(Instr.Expr(TOK_ASSIGN)) else Asm(PushUndef)
  }

  function DeclsCode(ds: Decls): seq<Byte> {
    match ds
    case NoDecls => []
    case Decl(x, init, comma, rest) =>
      DeclareCode(x) + InitCode(x, init) + (if comma then Asm(Drop) else []) + DeclsCode(rest)
  }

  /** A loop around code for its condition and its body. */
  function LoopCode(c: seq<Byte>, body: seq<Byte>): seq<Byte> {
    Asm(NewScope) + LoopHead(c, body) + LoopTurn(c, body) + Asm(Instr.Break) + Asm(DelScope)
  }

  /** From the condition up to the closing break. */
  function LoopTurn(c: seq<Byte>, body: seq<Byte>): seq<Byte> {
    c + Asm(JmpFalse(|body| + 2)) + body + Asm(Drop) + Asm(Instr.Continue)
  }

  function LoopHead(c: seq<Byte>, body: seq<Byte>): seq<Byte> {
    Asm(Loop(1 + |LoopTurn(c, body)| + 1, 0, 1))
  }

  function StmtCode(s: Stmt): seq<Byte> {
    match s
    case Empty => Asm(PushUndef)
    case ExprStmt(es) => ExprsCode(es)
    case Let(ds) => DeclsCode(ds)
    case Block(body) => Asm(NewScope) + StmtsCode(body) + Asm(DelScope)
    case If(c, t) => Code(c) + Asm(JmpFalse(|StmtCode(t)|)) + StmtCode(t)
    case IfElse(c, t, f) => Code(c) + Branches(StmtCode(t), StmtCode(f))
    case While(c, body) => LoopCode(Code(c), StmtsCode(body))
    case WhileOne(c, s) => LoopCode(Code(c), StmtCode(s))
    case Break => Asm(PushUndef) + Asm(Instr.Break)
    case Continue => Asm(Instr.Continue)
    case Return(None) => Asm(PushUndef) + Asm(SetRetval) + Asm(Instr.Return)
    case Return(Some(e)) => Code(e) + Asm(SetRetval) + Asm(Instr.Return)
  }

  function StmtsCode(ss: Stmts): seq<Byte> {
    match ss
    case NoStmts => []
    case Stmts(s, _, NoStmts) => StmtCode(s)
    case Stmts(s, _, rest) => StmtCode(s) + Asm(Drop) + StmtsCode(rest)
  }
}
