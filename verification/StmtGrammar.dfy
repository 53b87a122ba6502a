/** What the parser has established about the statements it consumed. */
module StmtGrammar {
  import opened Options
  import opened Varint
  import opened Sequences
  import opened Bytecode
  import opened Tokens
  import opened Syntax
  import opened Grammar

  const PLAIN_DROP: seq<Byte> := [OP_DROP]

  function FirstKind(s: seq<Token>, otherwise: nat): nat {
    if s == [] then otherwise else Kind(s[0])
  }

  function LastKind(s: seq<Token>, otherwise: nat): nat {
    if s == [] then otherwise else Kind(s[|s| - 1])
  }

  // ----- identifiers in context -----

  /** A tree of the grammar, with its identifiers read or updated as their neighbours demand. */
  predicate WellPlaced(e: Expr, prev: nat, next: nat) {
    Fits(e, ASSIGN_LEVEL) && Placed(e, prev, next)
  }

  predicate PlacedExprs(es: Exprs, prev: nat, next: nat) {
    match es
    case One(e) => WellPlaced(e, prev, next)
    case More(e, rest) => WellPlaced(e, prev, TOK_COMMA) && PlacedExprs(rest, TOK_COMMA, next)
  }

  predicate PlacedDecls(ds: Decls, next: nat) {
    match ds
    case NoDecls => true
    case Decl(_, init, comma, rest) =>
      (init.Some? ==> WellPlaced(init.value, TOK_ASSIGN, if comma then TOK_COMMA else FirstKind(WrittenDecls(rest), next)))
      && PlacedDecls(rest, next)
  }

  predicate PlacedStmt(s: Stmt, prev: nat, next: nat) {
    match s
    case ExprStmt(es) => PlacedExprs(es, prev, next)
    case Let(ds) => PlacedDecls(ds, next)
    case Block(body) => PlacedStmts(body, TOK_OPEN_CURLY, TOK_CLOSE_CURLY)
    case If(c, t) => WellPlaced(c, TOK_OPEN_PAREN, TOK_CLOSE_PAREN) && PlacedStmt(t, TOK_CLOSE_PAREN, next)
    case IfElse(c, t, f) =>
      WellPlaced(c, TOK_OPEN_PAREN, TOK_CLOSE_PAREN) && PlacedStmt(t, TOK_CLOSE_PAREN, TOK_KEYWORD_ELSE)
      && PlacedStmt(f, TOK_KEYWORD_ELSE, next)
    case While(c, body) =>
      WellPlaced(c, TOK_OPEN_PAREN, TOK_CLOSE_PAREN) && PlacedStmts(body, TOK_OPEN_CURLY, TOK_CLOSE_CURLY)
    case WhileOne(c, s) => WellPlaced(c, TOK_OPEN_PAREN, TOK_CLOSE_PAREN) && PlacedStmt(s, TOK_CLOSE_PAREN, next)
    case Return(e) => e.Some? ==> WellPlaced(e.value, TOK_KEYWORD_RETURN, next)
    case _ => true
  }

  predicate PlacedStmts(ss: Stmts, prev: nat, next: nat) {
    match ss
    case NoStmts => true
    case Stmts(s, semis, rest) =>
      PlacedStmt(s, prev, FirstKind(Semis(semis) + WrittenStmts(rest), next))
      && PlacedStmts(rest, LastKind(WrittenStmt(s) + Semis(semis), prev), next)
  }

  // ----- what has been parsed -----

  ghost predicate Span(toks: seq<Token>, start: int, pos: int, written: seq<Token>) {
    0 <= start <= pos <= |toks| && toks[start..pos] == written
  }

  /** The tokens from `start` to `pos` write `s`, its code has been appended to `base`, and its identifiers are
      read or updated as their neighbours demand. */
  ghost predicate ParsedStmt(toks: seq<Token>, start: int, pos: int, base: seq<Byte>, done: seq<Byte>, s: Stmt) {
    Span(toks, start, pos, WrittenStmt(s)) && done == base + StmtCode(s)
    && PlacedStmt(s, KindIn(toks, start - 1), KindIn(toks, pos))
  }

  ghost predicate ParsedStmts(toks: seq<Token>, start: int, pos: int, base: seq<Byte>, done: seq<Byte>, ss: Stmts) {
    Span(toks, start, pos, WrittenStmts(ss)) && done == base + StmtsCode(ss)
    && PlacedStmts(ss, KindIn(toks, start - 1), KindIn(toks, pos))
  }

  ghost predicate ParsedExprs(toks: seq<Token>, start: int, pos: int, base: seq<Byte>, done: seq<Byte>, es: Exprs) {
    Span(toks, start, pos, WrittenExprs(es)) && done == base + ExprsCode(es)
    && PlacedExprs(es, KindIn(toks, start - 1), KindIn(toks, pos))
  }

  ghost predicate ParsedDecls(toks: seq<Token>, start: int, pos: int, base: seq<Byte>, done: seq<Byte>, ds: Decls) {
    Span(toks, start, pos, WrittenDecls(ds)) && done == base + DeclsCode(ds) && PlacedDecls(ds, KindIn(toks, pos))
  }

  lemma SpanJoin(toks: seq<Token>, a: int, b: int, c: int, s: seq<Token>, t: seq<Token>)
    requires Span(toks, a, b, s) && Span(toks, b, c, t)
    ensures Span(toks, a, c, s + t)
  {
    Spread(toks, a, b, c);
  }

  lemma SpanOne(toks: seq<Token>, a: int)
    requires Clean(toks) && KindIn(toks, a) != TOK_EOF && (KindIn(toks, a) < TOK_NUM || KindIn(toks, a) > TOK_IDENT)
    ensures Span(toks, a, a + 1, [Plain(KindIn(toks, a))])
  {
    PlainAt(toks, a);
  }

  lemma SpanOfExpr(toks: seq<Token>, start: int, pos: int, base: seq<Byte>, done: seq<Byte>, e: Expr)
    requires Parsed(toks, start, pos, base, done, e, ASSIGN_LEVEL)
    ensures Span(toks, start, pos, Written(e)) && done == base + Code(e)
    ensures WellPlaced(e, KindIn(toks, start - 1), KindIn(toks, pos))
  {
    hide Written, Code, Placed, Fits;
  }

  /** A span knows the kinds of its first and last token. */
  lemma SpanKinds(toks: seq<Token>, start: int, pos: int, s: seq<Token>)
    requires Span(toks, start, pos, s)
    ensures FirstKind(s, KindIn(toks, pos)) == KindIn(toks, start)
    ensures LastKind(s, KindIn(toks, start - 1)) == KindIn(toks, pos - 1)
  {}

  // ----- growing lists at their end -----

  function AddExpr(es: Exprs, e: Expr): Exprs {
    match es
    case One(first) => More(first, One(e))
    case More(first, rest) => More(first, AddExpr(rest, e))
  }

  lemma {:induction false} AddExprParts(es: Exprs, e: Expr, prev: nat, next: nat)
    ensures ExprsCode(AddExpr(es, e)) == ExprsCode(es) + Asm(Drop) + Code(e)
    ensures WrittenExprs(AddExpr(es, e)) == WrittenExprs(es) + [Plain(TOK_COMMA)] + Written(e)
    ensures PlacedExprs(es, prev, TOK_COMMA) && WellPlaced(e, TOK_COMMA, next) ==> PlacedExprs(AddExpr(es, e), prev, next)
  {
    hide Code, Written, WellPlaced, Asm;
    if es.More? {
      AddExprParts(es.rest, e, TOK_COMMA, next);
    }
  }

  lemma ParsedOne(toks: seq<Token>, start: int, pos: int, base: seq<Byte>, done: seq<Byte>, e: Expr)
    requires Parsed(toks, start, pos, base, done, e, ASSIGN_LEVEL)
    ensures ParsedExprs(toks, start, pos, base, done, One(e))
  {}

  lemma ParsedMore(toks: seq<Token>, start: int, p: int, pos: int, base: seq<Byte>, d: seq<Byte>, done: seq<Byte>, es: Exprs, e: Expr)
    requires Clean(toks) && ParsedExprs(toks, start, p, base, d, es) && KindIn(toks, p) == TOK_COMMA
    requires Parsed(toks, p + 1, pos, d + PLAIN_DROP, done, e, ASSIGN_LEVEL)
    ensures ParsedExprs(toks, start, pos, base, done, AddExpr(es, e))
  {
    hide Code, Written, WellPlaced, Asm, Span, Clean, ExprsCode, WrittenExprs, Parsed, PlacedExprs, AddExpr;
    SpanOfExpr(toks, p + 1, pos, d + PLAIN_DROP, done, e);
    AddExprParts(es, e, KindIn(toks, start - 1), KindIn(toks, pos));
    SpanOne(toks, p);
    SpanJoin(toks, start, p, p + 1, WrittenExprs(es), [Plain(TOK_COMMA)]);
    SpanJoin(toks, start, p + 1, pos, WrittenExprs(es) + [Plain(TOK_COMMA)], Written(e));
    DropByte();
    Gather(base, ExprsCode(es), PLAIN_DROP, Code(e));
  }

  lemma DropByte()
    ensures Asm(Drop) == PLAIN_DROP
  {}

  function AddDecl(ds: Decls, x: Text, init: Option<Expr>, comma: bool): Decls {
    match ds
    case NoDecls => Decl(x, init, comma, NoDecls)
    case Decl(x0, init0, comma0, rest) => Decl(x0, init0, comma0, AddDecl(rest, x, init, comma))
  }

  function InitTokens(init: Option<Expr>): seq<Token> {
    if init.Some? then [Plain(TOK_ASSIGN)] + Written(init.value) else []
  }

  function CommaTokens(comma: bool): seq<Token> {
    if comma then [Plain(TOK_COMMA)] else []
  }

  function OneDecl(x: Text, init: Option<Expr>, comma: bool): seq<Token> {
    [Name(x)] + InitTokens(init) + CommaTokens(comma)
  }

  function CommaCode(comma: bool): seq<Byte> {
    if comma then PLAIN_DROP else []
  }

  function OneDeclCode(x: Text, init: Option<Expr>, comma: bool): seq<Byte> {
    DeclareCode(x) + InitCode(x, init) + CommaCode(comma)
  }

  lemma {:induction false} AddDeclCode(ds: Decls, x: Text, init: Option<Expr>, comma: bool)
    ensures DeclsCode(AddDecl(ds, x, init, comma)) == DeclsCode(ds) + OneDeclCode(x, init, comma)
  {
    hide Asm, DeclareCode, InitCode;
    DropByte();
    if ds.Decl? {
      AddDeclCode(ds.rest, x, init, comma);
      Assoc(OneDeclCode(ds.x, ds.init, ds.comma), DeclsCode(ds.rest), OneDeclCode(x, init, comma));
    }
  }

  lemma {:induction false} AddDeclWritten(ds: Decls, x: Text, init: Option<Expr>, comma: bool)
    ensures WrittenDecls(AddDecl(ds, x, init, comma)) == WrittenDecls(ds) + OneDecl(x, init, comma)
  {
    hide Written;
    if ds.Decl? {
      AddDeclWritten(ds.rest, x, init, comma);
      Assoc(OneDecl(ds.x, ds.init, ds.comma), WrittenDecls(ds.rest), OneDecl(x, init, comma));
    }
  }

  lemma {:induction false} AddDeclPlaced(ds: Decls, x: Text, init: Option<Expr>, comma: bool, next: nat)
    requires PlacedDecls(ds, TOK_IDENT)
    requires init.Some? ==> WellPlaced(init.value, TOK_ASSIGN, if comma then TOK_COMMA else next)
    ensures PlacedDecls(AddDecl(ds, x, init, comma), next)
  {
    hide Written, WellPlaced;
    if ds.Decl? {
      AddDeclPlaced(ds.rest, x, init, comma, next);
      AddDeclWritten(ds.rest, x, init, comma);
    }
  }

  lemma ParsedDecl(toks: seq<Token>, start: int, p: int, pos: int, base: seq<Byte>, d: seq<Byte>, done: seq<Byte>,
                   ds: Decls, x: Text, init: Option<Expr>, comma: bool)
    requires ParsedDecls(toks, start, p, base, d, ds) && KindIn(toks, p) == TOK_IDENT
    requires Span(toks, p, pos, OneDecl(x, init, comma)) && done == d + OneDeclCode(x, init, comma)
    requires init.Some? ==> WellPlaced(init.value, TOK_ASSIGN, if comma then TOK_COMMA else KindIn(toks, pos))
    ensures ParsedDecls(toks, start, pos, base, done, AddDecl(ds, x, init, comma))
  {
    hide Span, DeclsCode, OneDeclCode, WrittenDecls, OneDecl, PlacedDecls, WellPlaced, AddDecl;
    AddDeclCode(ds, x, init, comma);
    AddDeclWritten(ds, x, init, comma);
    AddDeclPlaced(ds, x, init, comma, KindIn(toks, pos));
    SpanJoin(toks, start, p, pos, WrittenDecls(ds), OneDecl(x, init, comma));
    Assoc(base, DeclsCode(ds), OneDeclCode(x, init, comma));
  }

  function AddStmt(ss: Stmts, s: Stmt, semis: nat): Stmts {
    match ss
    case NoStmts => Stmts(s, semis, NoStmts)
    case Stmts(s0, semis0, rest) => Stmts(s0, semis0, AddStmt(rest, s, semis))
  }

  function DropBetween(ss: Stmts): seq<Byte> {
    if ss.NoStmts? then [] else PLAIN_DROP
  }

  lemma {:induction false} AddStmtCode(ss: Stmts, s: Stmt, semis: nat)
    ensures StmtsCode(AddStmt(ss, s, semis)) == StmtsCode(ss) + DropBetween(ss) + StmtCode(s)
  {
    hide StmtCode;
    if ss.Stmts? {
      AddStmtCode(ss.rest, s, semis);
      if ss.rest.Stmts? {
        Regroup(StmtCode(ss.s) + PLAIN_DROP, StmtsCode(ss.rest), PLAIN_DROP, StmtCode(s));
      }
    }
  }

  lemma Regroup<T>(a: seq<T>, b: seq<T>, c: seq<T>, d: seq<T>)
    ensures a + (b + c + d) == a + b + c + d
  {}

  lemma {:induction false} AddStmtWritten(ss: Stmts, s: Stmt, semis: nat)
    ensures WrittenStmts(AddStmt(ss, s, semis)) == WrittenStmts(ss) + WrittenStmt(s) + Semis(semis)
  {
    hide WrittenStmt, Semis;
    if ss.Stmts? {
      AddStmtWritten(ss.rest, s, semis);
      Regroup(WrittenStmt(ss.s) + Semis(ss.semis), WrittenStmts(ss.rest), WrittenStmt(s), Semis(semis));
    }
  }

  lemma {:induction false} AddStmtPlaced(ss: Stmts, s: Stmt, semis: nat, prev: nat, mid: nat, next: nat)
    requires PlacedStmts(ss, prev, mid)
    requires PlacedStmt(s, LastKind(WrittenStmts(ss), prev), FirstKind(Semis(semis), next))
    requires mid == FirstKind(WrittenStmt(s) + Semis(semis), next)
    ensures PlacedStmts(AddStmt(ss, s, semis), prev, next)
  {
    hide WrittenStmt, Semis, PlacedStmt;
    if ss.Stmts? {
      var front := WrittenStmt(ss.s) + Semis(ss.semis);
      var prev1 := LastKind(front, prev);
      LastOfBoth(front, WrittenStmts(ss.rest), prev);
      AddStmtPlaced(ss.rest, s, semis, prev1, mid, next);
      AddStmtWritten(ss.rest, s, semis);
      Assoc(WrittenStmts(ss.rest), WrittenStmt(s), Semis(semis));
      FirstOfBoth(Semis(ss.semis) + WrittenStmts(ss.rest), WrittenStmt(s) + Semis(semis), next);
      Assoc(Semis(ss.semis), WrittenStmts(ss.rest), WrittenStmt(s) + Semis(semis));
    } else {
      assert Semis(semis) + [] == Semis(semis);
    }
  }

  lemma LastOfBoth(a: seq<Token>, b: seq<Token>, prev: nat)
    ensures LastKind(a + b, prev) == LastKind(b, LastKind(a, prev))
  {}

  lemma FirstOfBoth(a: seq<Token>, b: seq<Token>, next: nat)
    ensures FirstKind(a + b, next) == FirstKind(a, FirstKind(b, next))
  {}

  lemma NothingParsed(toks: seq<Token>, p: int, base: seq<Byte>)
    requires 0 <= p <= |toks|
    ensures ParsedStmts(toks, p, p, base, base, NoStmts)
    ensures ParsedDecls(toks, p, p, base, base, NoDecls)
  {
    assert toks[p..p] == [] && base + [] == base;
  }

  /** One more statement, and the semicolons behind it. */
  lemma ParsedNext(toks: seq<Token>, start: int, p: int, q: int, pos: int, base: seq<Byte>, d: seq<Byte>, done: seq<Byte>,
                   ss: Stmts, s: Stmt, semis: nat)
    requires ParsedStmts(toks, start, p, base, d, ss) && ParsedStmt(toks, p, q, d + DropBetween(ss), done, s)
    requires Span(toks, q, pos, Semis(semis))
    ensures ParsedStmts(toks, start, pos, base, done, AddStmt(ss, s, semis))
  {
    hide Span, StmtCode, StmtsCode, WrittenStmt, WrittenStmts, PlacedStmt, PlacedStmts, AddStmt, Semis, DropBetween, FirstKind, LastKind;
    AddStmtCode(ss, s, semis);
    AddStmtWritten(ss, s, semis);
    SpanJoin(toks, p, q, pos, WrittenStmt(s), Semis(semis));
    SpanJoin(toks, start, p, q, WrittenStmts(ss), WrittenStmt(s));
    SpanJoin(toks, start, q, pos, WrittenStmts(ss) + WrittenStmt(s), Semis(semis));
    Gather(base, StmtsCode(ss), DropBetween(ss), StmtCode(s));
    SpanKinds(toks, start, p, WrittenStmts(ss));
    SpanKinds(toks, q, pos, Semis(semis));
    SpanKinds(toks, p, pos, WrittenStmt(s) + Semis(semis));
    AddStmtPlaced(ss, s, semis, KindIn(toks, start - 1), KindIn(toks, p), KindIn(toks, pos));
  }

  // ----- compound statements -----

  lemma ParsedBlock(toks: seq<Token>, p: int, q: int, base: seq<Byte>, done: seq<Byte>, body: Stmts)
    requires Clean(toks) && KindIn(toks, p) == TOK_OPEN_CURLY && KindIn(toks, q) == TOK_CLOSE_CURLY
    requires ParsedStmts(toks, p + 1, q, base + [OP_NEW_SCOPE], done, body)
    ensures ParsedStmt(toks, p, q + 1, base, done + [OP_DEL_SCOPE], Block(body))
  {
    hide StmtsCode, WrittenStmts, Clean, Span;
    SpanOne(toks, p);
    SpanOne(toks, q);
    SpanJoin(toks, p, p + 1, q, [Plain(TOK_OPEN_CURLY)], WrittenStmts(body));
    SpanJoin(toks, p, q, q + 1, [Plain(TOK_OPEN_CURLY)] + WrittenStmts(body), [Plain(TOK_CLOSE_CURLY)]);
    Gather(base, [OP_NEW_SCOPE], StmtsCode(body), [OP_DEL_SCOPE]);
  }

  /** A condition in parentheses behind a keyword. */
  lemma SpanHead(toks: seq<Token>, p: int, q: int, word: nat, base: seq<Byte>, d: seq<Byte>, c: Expr)
    requires Clean(toks) && word > TOK_IDENT && KindIn(toks, p) == word
    requires KindIn(toks, p + 1) == TOK_OPEN_PAREN && KindIn(toks, q) == TOK_CLOSE_PAREN
    requires Parsed(toks, p + 2, q, base, d, c, ASSIGN_LEVEL)
    ensures Span(toks, p, q + 1, [Plain(word), Plain(TOK_OPEN_PAREN)] + Written(c) + [Plain(TOK_CLOSE_PAREN)])
    ensures WellPlaced(c, TOK_OPEN_PAREN, TOK_CLOSE_PAREN) && d == base + Code(c)
  {
    hide Written, Clean, WellPlaced, Parsed, Span, Code;
    SpanOfExpr(toks, p + 2, q, base, d, c);
    SpanOne(toks, p);
    SpanOne(toks, p + 1);
    SpanOne(toks, q);
    SpanJoin(toks, p, p + 1, p + 2, [Plain(word)], [Plain(TOK_OPEN_PAREN)]);
    SpanJoin(toks, p, p + 2, q, [Plain(word), Plain(TOK_OPEN_PAREN)], Written(c));
    SpanJoin(toks, p, q, q + 1, [Plain(word), Plain(TOK_OPEN_PAREN)] + Written(c), [Plain(TOK_CLOSE_PAREN)]);
  }

  /** Patching the jump of an `if` without `else`. */
  lemma IfBytes(d: seq<Byte>, t: seq<Byte>)
    ensures var whole := d + [OP_JMP_FALSE] + [0] + t;
            |whole| - (|d| + 1) - 1 == |t| && Patch(whole, |d| + 1, |t|) == d + (Asm(JmpFalse(|t|)) + t)
  {
    hide Encode, Patch, Asm;
    PatchBetween(d + [OP_JMP_FALSE], 0, t, |t|);
    JumpBytes(|t|);
  }

  lemma ParsedIf(toks: seq<Token>, p: int, q: int, r: int, base: seq<Byte>, d1: seq<Byte>, d2: seq<Byte>, c: Expr, t: Stmt)
    requires Clean(toks) && KindIn(toks, p) == TOK_KEYWORD_IF
    requires KindIn(toks, p + 1) == TOK_OPEN_PAREN && KindIn(toks, q) == TOK_CLOSE_PAREN
    requires Parsed(toks, p + 2, q, base, d1, c, ASSIGN_LEVEL)
    requires ParsedStmt(toks, q + 1, r, d1 + [OP_JMP_FALSE] + [0], d2, t)
    ensures |d2| - (|d1| + 1) - 1 == |StmtCode(t)|
    ensures ParsedStmt(toks, p, r, base, Patch(d2, |d1| + 1, |StmtCode(t)|), If(c, t))
  {
    hide Written, WrittenStmt, Clean, WellPlaced, Parsed, Span, Code, StmtCode, Patch, Asm, PlacedStmt;
    SpanHead(toks, p, q, TOK_KEYWORD_IF, base, d1, c);
    var head := [Plain(TOK_KEYWORD_IF), Plain(TOK_OPEN_PAREN)] + Written(c) + [Plain(TOK_CLOSE_PAREN)];
    SpanJoin(toks, p, q + 1, r, head, WrittenStmt(t));
    IfBytes(d1, StmtCode(t));
    IfParts(c, t, KindIn(toks, p - 1), KindIn(toks, r));
    Assoc(base, Code(c), Asm(JmpFalse(|StmtCode(t)|)) + StmtCode(t));
  }

  lemma IfParts(c: Expr, t: Stmt, prev: nat, next: nat)
    ensures StmtCode(If(c, t)) == Code(c) + (Asm(JmpFalse(|StmtCode(t)|)) + StmtCode(t))
    ensures WrittenStmt(If(c, t)) == [Plain(TOK_KEYWORD_IF), Plain(TOK_OPEN_PAREN)] + Written(c) + [Plain(TOK_CLOSE_PAREN)] + WrittenStmt(t)
    ensures PlacedStmt(If(c, t), prev, next) <==> WellPlaced(c, TOK_OPEN_PAREN, TOK_CLOSE_PAREN) && PlacedStmt(t, TOK_CLOSE_PAREN, next)
  {
    hide Code, Asm;
    Assoc(Code(c), Asm(JmpFalse(|StmtCode(t)|)), StmtCode(t));
  }

  lemma ParsedIfElse(toks: seq<Token>, p: int, q: int, r: int, w: int, base: seq<Byte>, d1: seq<Byte>, d2: seq<Byte>,
                     d3: seq<Byte>, c: Expr, t: Stmt, f: Stmt)
    requires Clean(toks) && KindIn(toks, p) == TOK_KEYWORD_IF && KindIn(toks, r) == TOK_KEYWORD_ELSE
    requires KindIn(toks, p + 1) == TOK_OPEN_PAREN && KindIn(toks, q) == TOK_CLOSE_PAREN
    requires Parsed(toks, p + 2, q, base, d1, c, ASSIGN_LEVEL)
    requires ParsedStmt(toks, q + 1, r, d1 + [OP_JMP_FALSE] + [0], d2, t)
    requires ParsedStmt(toks, r + 1, w, d2 + [OP_JMP] + [0] + [OP_DROP], d3, f)
    ensures d3 == d1 + Unpatched(StmtCode(t), StmtCode(f))
    ensures |d2| == |d1| + 2 + |StmtCode(t)| && |d3| == |d2| + 3 + |StmtCode(f)|
    ensures ParsedStmt(toks, p, w, base, d1 + Branches(StmtCode(t), StmtCode(f)), IfElse(c, t, f))
  {
    hide Written, WrittenStmt, Clean, WellPlaced, Parsed, Span, Code, StmtCode, Branches, Asm, PlacedStmt;
    SpanHead(toks, p, q, TOK_KEYWORD_IF, base, d1, c);
    var head := [Plain(TOK_KEYWORD_IF), Plain(TOK_OPEN_PAREN)] + Written(c) + [Plain(TOK_CLOSE_PAREN)];
    SpanOne(toks, r);
    SpanJoin(toks, p, q + 1, r, head, WrittenStmt(t));
    SpanJoin(toks, p, r, r + 1, head + WrittenStmt(t), [Plain(TOK_KEYWORD_ELSE)]);
    SpanJoin(toks, p, r + 1, w, head + WrittenStmt(t) + [Plain(TOK_KEYWORD_ELSE)], WrittenStmt(f));
    CondCode(d1, StmtCode(t), StmtCode(f));
    IfElseParts(c, t, f, KindIn(toks, p - 1), KindIn(toks, w));
    Assoc(base, Code(c), Branches(StmtCode(t), StmtCode(f)));
  }

  lemma IfElseParts(c: Expr, t: Stmt, f: Stmt, prev: nat, next: nat)
    ensures StmtCode(IfElse(c, t, f)) == Code(c) + Branches(StmtCode(t), StmtCode(f))
    ensures WrittenStmt(IfElse(c, t, f))
         == [Plain(TOK_KEYWORD_IF), Plain(TOK_OPEN_PAREN)] + Written(c) + [Plain(TOK_CLOSE_PAREN)] + WrittenStmt(t)
            + [Plain(TOK_KEYWORD_ELSE)] + WrittenStmt(f)
    ensures PlacedStmt(IfElse(c, t, f), prev, next)
       <==> WellPlaced(c, TOK_OPEN_PAREN, TOK_CLOSE_PAREN) && PlacedStmt(t, TOK_CLOSE_PAREN, TOK_KEYWORD_ELSE)
            && PlacedStmt(f, TOK_KEYWORD_ELSE, next)
  {
    hide Code, Branches;
  }

  // ----- loops -----

  /** The condition jump of a loop, patched once its body is there. */
  lemma TurnBytes(d: seq<Byte>, c: seq<Byte>, b: seq<Byte>)
    ensures var whole := d + c + [OP_JMP_FALSE] + [0] + b + [OP_DROP] + [OP_CONTINUE];
            |whole| - (|d + c| + 1) - 1 == |b| + 2 && Patch(whole, |d + c| + 1, |b| + 2) == d + LoopTurn(c, b)
  {
    hide Encode, Patch, Asm, LoopTurn;
    var n := |b| + 2;
    var tail := b + [OP_DROP] + [OP_CONTINUE];
    Gather(d + c + [OP_JMP_FALSE] + [0], b, [OP_DROP], [OP_CONTINUE]);
    PatchBetween(d + c + [OP_JMP_FALSE], 0, tail, n);
    TurnForm(c, b);
    TurnFlat(d, c, [OP_JMP_FALSE], Encode(n), b, [OP_DROP], [OP_CONTINUE]);
  }

  lemma TurnForm(c: seq<Byte>, b: seq<Byte>)
    ensures LoopTurn(c, b) == c + ([OP_JMP_FALSE] + Encode(|b| + 2)) + b + [OP_DROP] + [OP_CONTINUE]
  {
    hide Encode, Asm;
    JumpBytes(|b| + 2);
    LoopBytes();
  }

  lemma LoopBytes()
    ensures Asm(Instr.Continue) == [OP_CONTINUE] && Asm(Instr.Break) == [OP_BREAK]
    ensures Asm(NewScope) == [OP_NEW_SCOPE] && Asm(DelScope) == [OP_DEL_SCOPE]
  {}

  lemma TurnFlat(d: seq<Byte>, c: seq<Byte>, j: seq<Byte>, e: seq<Byte>, b: seq<Byte>, x: seq<Byte>, y: seq<Byte>)
    ensures d + c + j + e + (b + x + y) == d + (c + (j + e) + b + x + y)
  {}

  /** The head of a loop, patched once its last instruction is there. */
  lemma HeadBytes(base: seq<Byte>, c: seq<Byte>, b: seq<Byte>)
    ensures var turn := LoopTurn(c, b);
            var whole := base + [OP_NEW_SCOPE] + [OP_LOOP] + [0] + [0] + turn + [OP_BREAK];
            |whole| - (|base| + 2) - 1 == 1 + |turn| + 1
            && Patch(whole, |base| + 2, 1 + |turn| + 1) + [OP_DEL_SCOPE] == base + LoopCode(c, b)
  {
    hide Encode, Patch, Asm, LoopTurn, LoopCode;
    var turn := LoopTurn(c, b);
    var n := 1 + |turn| + 1;
    Gather(base + [OP_NEW_SCOPE] + [OP_LOOP] + [0], [0], turn, [OP_BREAK]);
    PatchBetween(base + [OP_NEW_SCOPE] + [OP_LOOP], 0, [0] + turn + [OP_BREAK], n);
    LoopForm(c, b);
    LoopFlat(base, [OP_NEW_SCOPE], [OP_LOOP], Encode(n), [0], turn, [OP_BREAK], [OP_DEL_SCOPE]);
  }

  lemma LoopForm(c: seq<Byte>, b: seq<Byte>)
    ensures var turn := LoopTurn(c, b);
            LoopCode(c, b) == [OP_NEW_SCOPE] + ([OP_LOOP] + (Encode(1 + |turn| + 1) + [0])) + turn + [OP_BREAK] + [OP_DEL_SCOPE]
  {
    hide LoopTurn;
    assert Encode(0) == [0];
  }

  lemma LoopFlat(base: seq<Byte>, a: seq<Byte>, l: seq<Byte>, e: seq<Byte>, z: seq<Byte>, t: seq<Byte>, x: seq<Byte>, y: seq<Byte>)
    ensures base + a + l + e + (z + t + x) + y == base + (a + (l + (e + z)) + t + x + y)
  {}

  /** How far the bytes of a loop have got when its body is complete. */
  function LoopOpen(base: seq<Byte>): seq<Byte> {
    base + [OP_NEW_SCOPE] + [OP_LOOP] + [0] + [0]
  }

  lemma ParsedWhile(toks: seq<Token>, p: int, q: int, r: int, base: seq<Byte>, d1: seq<Byte>, d2: seq<Byte>, c: Expr, body: Stmts)
    requires Clean(toks) && KindIn(toks, p) == TOK_KEYWORD_WHILE
    requires KindIn(toks, p + 1) == TOK_OPEN_PAREN && KindIn(toks, q) == TOK_CLOSE_PAREN
    requires KindIn(toks, q + 1) == TOK_OPEN_CURLY && KindIn(toks, r) == TOK_CLOSE_CURLY
    requires Parsed(toks, p + 2, q, LoopOpen(base), d1, c, ASSIGN_LEVEL)
    requires ParsedStmts(toks, q + 2, r, d1 + [OP_JMP_FALSE] + [0], d2, body)
    ensures d1 == LoopOpen(base) + Code(c) && d2 == d1 + [OP_JMP_FALSE] + [0] + StmtsCode(body)
    ensures ParsedStmt(toks, p, r + 1, base, base + LoopCode(Code(c), StmtsCode(body)), While(c, body))
  {
    hide Written, WrittenStmts, Clean, WellPlaced, Parsed, Span, Code, StmtsCode, LoopCode, PlacedStmts, LoopOpen;
    SpanHead(toks, p, q, TOK_KEYWORD_WHILE, LoopOpen(base), d1, c);
    var head := [Plain(TOK_KEYWORD_WHILE), Plain(TOK_OPEN_PAREN)] + Written(c) + [Plain(TOK_CLOSE_PAREN)];
    SpanOne(toks, q + 1);
    SpanOne(toks, r);
    SpanJoin(toks, p, q + 1, q + 2, head, [Plain(TOK_OPEN_CURLY)]);
    SpanJoin(toks, p, q + 2, r, head + [Plain(TOK_OPEN_CURLY)], WrittenStmts(body));
    SpanJoin(toks, p, r, r + 1, head + [Plain(TOK_OPEN_CURLY)] + WrittenStmts(body), [Plain(TOK_CLOSE_CURLY)]);
    WhileWritten(c, body);
  }

  lemma WhileWritten(c: Expr, body: Stmts)
    ensures WrittenStmt(While(c, body))
         == [Plain(TOK_KEYWORD_WHILE), Plain(TOK_OPEN_PAREN)] + Written(c) + [Plain(TOK_CLOSE_PAREN)] + [Plain(TOK_OPEN_CURLY)]
            + WrittenStmts(body) + [Plain(TOK_CLOSE_CURLY)]
  {
    assert [Plain(TOK_CLOSE_PAREN), Plain(TOK_OPEN_CURLY)] == [Plain(TOK_CLOSE_PAREN)] + [Plain(TOK_OPEN_CURLY)];
  }

  lemma ParsedWhileOne(toks: seq<Token>, p: int, q: int, r: int, base: seq<Byte>, d1: seq<Byte>, d2: seq<Byte>, c: Expr, s: Stmt)
    requires Clean(toks) && KindIn(toks, p) == TOK_KEYWORD_WHILE
    requires KindIn(toks, p + 1) == TOK_OPEN_PAREN && KindIn(toks, q) == TOK_CLOSE_PAREN
    requires Parsed(toks, p + 2, q, LoopOpen(base), d1, c, ASSIGN_LEVEL)
    requires ParsedStmt(toks, q + 1, r, d1 + [OP_JMP_FALSE] + [0], d2, s)
    ensures d1 == LoopOpen(base) + Code(c) && d2 == d1 + [OP_JMP_FALSE] + [0] + StmtCode(s)
    ensures ParsedStmt(toks, p, r, base, base + LoopCode(Code(c), StmtCode(s)), WhileOne(c, s))
  {
    hide Written, Clean, WellPlaced, Parsed, Span, Code, LoopCode, LoopOpen, StmtCode, WrittenStmt;
    SpanHead(toks, p, q, TOK_KEYWORD_WHILE, LoopOpen(base), d1, c);
    var head := [Plain(TOK_KEYWORD_WHILE), Plain(TOK_OPEN_PAREN)] + Written(c) + [Plain(TOK_CLOSE_PAREN)];
    SpanJoin(toks, p, q + 1, r, head, WrittenStmt(s));
    WhileOneWritten(c, s);
  }

  lemma WhileOneWritten(c: Expr, s: Stmt)
    ensures WrittenStmt(WhileOne(c, s))
         == [Plain(TOK_KEYWORD_WHILE), Plain(TOK_OPEN_PAREN)] + Written(c) + [Plain(TOK_CLOSE_PAREN)] + WrittenStmt(s)
    ensures StmtCode(WhileOne(c, s)) == LoopCode(Code(c), StmtCode(s))
  {
    hide Code, LoopCode;
  }

  lemma ParsedReturn(toks: seq<Token>, p: int, pos: int, base: seq<Byte>, done: seq<Byte>, e: Option<Expr>)
    requires Clean(toks) && KindIn(toks, p) == TOK_KEYWORD_RETURN
    requires if e.Some? then Parsed(toks, p + 1, pos, base, done, e.value, ASSIGN_LEVEL)
             else pos == p + 1 && done == base + [OP_PUSH_UNDEF]
    ensures ParsedStmt(toks, p, pos, base, done + [OP_SETRETVAL] + [OP_RETURN], Stmt.Return(e))
  {
    hide Written, Clean, WellPlaced, Parsed, Span, Code;
    SpanOne(toks, p);
    if e.Some? {
      SpanOfExpr(toks, p + 1, pos, base, done, e.value);
      SpanJoin(toks, p, p + 1, pos, [Plain(TOK_KEYWORD_RETURN)], Written(e.value));
      Gather(base, Code(e.value), [OP_SETRETVAL], [OP_RETURN]);
    } else {
      Gather(base, [OP_PUSH_UNDEF], [OP_SETRETVAL], [OP_RETURN]);
    }
  }

  /** Statements of one token. */
  lemma ParsedWord(toks: seq<Token>, p: int, base: seq<Byte>, s: Stmt)
    requires Clean(toks)
    requires (s.Empty? && KindIn(toks, p) == TOK_SEMICOLON) || (s.Break? && KindIn(toks, p) == TOK_KEYWORD_BREAK)
             || (s.Continue? && KindIn(toks, p) == TOK_KEYWORD_CONTINUE)
    ensures ParsedStmt(toks, p, p + 1, base, base + StmtCode(s), s)
  {
    SpanOne(toks, p);
  }

  lemma ParsedLet(toks: seq<Token>, p: int, pos: int, base: seq<Byte>, done: seq<Byte>, ds: Decls)
    requires Clean(toks) && KindIn(toks, p) == TOK_KEYWORD_LET && ParsedDecls(toks, p + 1, pos, base, done, ds)
    ensures ParsedStmt(toks, p, pos, base, done, Let(ds))
  {
    hide WrittenDecls, DeclsCode, PlacedDecls, Span, Clean;
    SpanOne(toks, p);
    SpanJoin(toks, p, p + 1, pos, [Plain(TOK_KEYWORD_LET)], WrittenDecls(ds));
  }

  lemma ParsedExprStmt(toks: seq<Token>, start: int, pos: int, base: seq<Byte>, done: seq<Byte>, es: Exprs)
    requires ParsedExprs(toks, start, pos, base, done, es)
    ensures ParsedStmt(toks, start, pos, base, done, ExprStmt(es))
  {}

  lemma OneMoreSemi(toks: seq<Token>, a: int, b: int, n: nat)
    requires Clean(toks) && Span(toks, a, b, Semis(n)) && KindIn(toks, b) == TOK_SEMICOLON
    ensures Span(toks, a, b + 1, Semis(n + 1))
  {
    SpanOne(toks, b);
    SpanJoin(toks, a, b, b + 1, Semis(n), [Plain(TOK_SEMICOLON)]);
    SemisEnd(n);
  }

  lemma {:induction false} SemisEnd(n: nat)
    ensures Semis(n + 1) == Semis(n) + [Plain(TOK_SEMICOLON)]
  {
    if n > 0 {
      SemisEnd(n - 1);
    }
  }

  // ----- blocks -----

  /** How many blocks in braces `parse_block` has seen in a statement, wherever they stand. */
  function Blocks(s: Stmt): nat {
    match s
    case Block(body) => 1 + BlocksIn(body)
    case If(_, t) => Blocks(t)
    case IfElse(_, t, f) => Blocks(t) + Blocks(f)
    case While(_, body) => BlocksIn(body)
    case WhileOne(_, s) => Blocks(s)
    case _ => 0
  }

  function BlocksIn(ss: Stmts): nat {
    match ss
    case NoStmts => 0
    case Stmts(s, _, rest) => Blocks(s) + BlocksIn(rest)
  }

  lemma {:induction false} AddStmtBlocks(ss: Stmts, s: Stmt, semis: nat)
    ensures BlocksIn(AddStmt(ss, s, semis)) == BlocksIn(ss) + Blocks(s)
  {
    if ss.Stmts? {
      AddStmtBlocks(ss.rest, s, semis);
    }
  }
}
