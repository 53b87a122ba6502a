/** Which programs the reference reader finds: every one that is written the way the parser groups tokens. */
module Canonical {
  import opened Options
  import opened Bytecode
  import opened Tokens
  import opened Syntax
  import opened StmtGrammar
  import opened Reader
  import opened StmtReader
  import opened Agreement
  import opened StmtAgreement

  // ----- statements in front of a token -----

  /** `e` is the whole expression between a token of kind `prev` and one of kind `next`. */
  predicate Entire(e: Expr, prev: nat, next: nat) {
    Fits(e, ASSIGN_LEVEL) && Placed(e, prev, next) && !GoesOn(ASSIGN_LEVEL, next) && MayEnd(e, next)
  }

  predicate ExprsStand(es: Exprs, prev: nat, next: nat) {
    match es
    case One(e) => Entire(e, prev, next) && next != TOK_COMMA
    case More(e, rest) => Entire(e, prev, TOK_COMMA) && ExprsStand(rest, TOK_COMMA, next)
  }

  predicate InitStands(init: Option<Expr>, next: nat) {
    if init.Some? then Entire(init.value, TOK_ASSIGN, next) else next != TOK_ASSIGN
  }

  /** A list of variables ends where a semicolon or the end of the program follows, and only there. */
  predicate DeclsStand(ds: Decls, next: nat) {
    match ds
    case NoDecls => next == TOK_SEMICOLON || next == TOK_EOF
    case Decl(_, init, comma, rest) =>
      InitStands(init, if comma then TOK_COMMA else FirstKind(WrittenDecls(rest), next)) && DeclsStand(rest, next)
  }

  function SecondKind(s: seq<Token>, otherwise: nat): nat {
    if |s| < 2 then otherwise else Kind(s[1])
  }

  /** `s` is the whole statement between such tokens. */
  predicate StmtStands(s: Stmt, prev: nat, next: nat)
    decreases s, 0
  {
    match s
    case ExprStmt(es) => ExprsStand(es, prev, next)
    case Let(ds) => ds.Decl? && DeclsStand(ds, next)
    case Block(body) => StmtsStand(body, TOK_OPEN_CURLY, TOK_CLOSE_CURLY)
    case If(c, t) => Entire(c, TOK_OPEN_PAREN, TOK_CLOSE_PAREN) && BranchStands(t, TOK_CLOSE_PAREN, next) && next != TOK_KEYWORD_ELSE
    case IfElse(c, t, f) =>
      Entire(c, TOK_OPEN_PAREN, TOK_CLOSE_PAREN) && BranchStands(t, TOK_CLOSE_PAREN, TOK_KEYWORD_ELSE)
      && BranchStands(f, TOK_KEYWORD_ELSE, next)
    case While(c, body) => Entire(c, TOK_OPEN_PAREN, TOK_CLOSE_PAREN) && StmtsStand(body, TOK_OPEN_CURLY, TOK_CLOSE_CURLY)
    case WhileOne(c, s) => Entire(c, TOK_OPEN_PAREN, TOK_CLOSE_PAREN) && StmtStands(s, TOK_CLOSE_PAREN, next) && !s.Block?
    case Return(e) => if e.Some? then Entire(e.value, TOK_KEYWORD_RETURN, next) else EndsReturn(next)
    case _ => true
  }

  /** A branch that is no block must not put a brace in second place. */
  predicate BranchStands(s: Stmt, prev: nat, next: nat)
    decreases s, 1
  {
    StmtStands(s, prev, next) && (s.Block? || SecondKind(WrittenStmt(s), next) != TOK_OPEN_CURLY)
  }

  /** Every semicolon belongs to the statement in front of it. */
  predicate StmtsStand(ss: Stmts, prev: nat, next: nat)
    decreases ss, 0
  {
    match ss
    case NoStmts => true
    case Stmts(s, semis, rest) =>
      StmtStands(s, prev, FirstKind(Semis(semis) + WrittenStmts(rest), next)) && (rest.Stmts? ==> !rest.s.Empty?)
      && StmtsStand(rest, LastKind(WrittenStmt(s) + Semis(semis), prev), next)
  }

  // ----- how statements begin -----

  lemma {:induction false} FirstOfExpr(e: Expr, level: nat)
    requires Fits(e, level)
    ensures !OpensStatement(Kind(Written(e)[0])) && !EndsReturn(Kind(Written(e)[0]))
  {
    if e.Postfix? {
      FirstOfExpr(e.e, PRIMARY_LEVEL);
    } else if e.Binary? {
      FirstOfExpr(e.l, LevelOf(e.op));
    } else if e.Logical? {
      FirstOfExpr(e.l, LevelOf(e.op) + 1);
    } else if e.Cond? {
      FirstOfExpr(e.c, OR_LEVEL);
    } else if e.Assign? {
      FirstOfExpr(e.l, TERNARY_LEVEL);
    }
  }

  /** A statement begins with a token that neither ends a list nor, but for the empty one, is a semicolon. */
  lemma FirstOfStmt(s: Stmt, prev: nat, next: nat)
    requires StmtStands(s, prev, next)
    ensures WrittenStmt(s) != []
    ensures var k := Kind(WrittenStmt(s)[0]);
            k != TOK_EOF && k != TOK_CLOSE_CURLY && (k == TOK_SEMICOLON <==> s.Empty?) && (k == TOK_OPEN_CURLY <==> s.Block?)
  {
    hide Placed, MayEnd, GoesOn, StmtsStand, WrittenDecls, WrittenStmts;
    if s.ExprStmt? {
      FirstOfExpr(s.es.e, ASSIGN_LEVEL);
    }
  }

  // ----- how they end -----

  lemma {:induction false} LastOfExpr(e: Expr, level: nat)
    requires Fits(e, level)
    ensures Kind(Written(e)[|Written(e)| - 1]) != TOK_DOT
  {
    if e.Unary? {
      LastOfExpr(e.e, UNARY_LEVEL);
    } else if e.Binary? {
      LastOfExpr(e.r, LevelOf(e.op) + 1);
    } else if e.Logical? {
      LastOfExpr(e.r, LevelOf(e.op));
    } else if e.Cond? {
      LastOfExpr(e.f, TERNARY_LEVEL);
    } else if e.Assign? {
      LastOfExpr(e.r, ASSIGN_LEVEL);
    }
  }

  lemma {:induction false} LastOfExprs(es: Exprs, prev: nat, next: nat)
    requires ExprsStand(es, prev, next)
    ensures Kind(WrittenExprs(es)[|WrittenExprs(es)| - 1]) != TOK_DOT
  {
    hide Placed, MayEnd, GoesOn, Written;
    match es
    case One(e) => LastOfExpr(e, ASSIGN_LEVEL);
    case More(e, rest) => LastOfExprs(rest, TOK_COMMA, next);
  }

  lemma {:induction false} LastOfDecls(ds: Decls, next: nat, prev: nat)
    requires DeclsStand(ds, next) && prev != TOK_DOT
    ensures LastKind(WrittenDecls(ds), prev) != TOK_DOT
  {
    hide Placed, MayEnd, GoesOn, Written;
    if ds.Decl? {
      if ds.init.Some? {
        LastOfExpr(ds.init.value, ASSIGN_LEVEL);
      }
      var one := OneDecl(ds.x, ds.init, ds.comma);
      LastOfDecls(ds.rest, next, Kind(one[|one| - 1]));
      LastOfBoth(one, WrittenDecls(ds.rest), prev);
    }
  }

  lemma {:induction false} LastOfStmt(s: Stmt, prev: nat, next: nat)
    requires StmtStands(s, prev, next) && prev != TOK_DOT
    ensures LastKind(WrittenStmt(s), prev) != TOK_DOT
  {
    hide Placed, MayEnd, GoesOn, Written, WrittenExprs, WrittenDecls, WrittenStmts, StmtsStand;
    match s
    case ExprStmt(es) => LastOfExprs(es, prev, next);
    case Let(ds) => LastOfDecls(ds, next, TOK_KEYWORD_LET);
    case If(_, t) =>
      LastOfStmt(t, TOK_CLOSE_PAREN, next);
      FirstOfStmt(t, TOK_CLOSE_PAREN, next);
    case IfElse(_, t, f) =>
      LastOfStmt(f, TOK_KEYWORD_ELSE, next);
      FirstOfStmt(f, TOK_KEYWORD_ELSE, next);
    case WhileOne(_, t) =>
      LastOfStmt(t, TOK_CLOSE_PAREN, next);
      FirstOfStmt(t, TOK_CLOSE_PAREN, next);
    case Return(e) =>
      if e.Some? {
        LastOfExpr(e.value, ASSIGN_LEVEL);
      }
    case _ =>
  }

  // ----- lists -----

  function ChainExprs(es: Exprs, more: Exprs): Exprs {
    match es
    case One(e) => More(e, more)
    case More(e, rest) => More(e, ChainExprs(rest, more))
  }

  function ChainDecls(ds: Decls, more: Decls): Decls {
    match ds
    case NoDecls => more
    case Decl(x, init, comma, rest) => Decl(x, init, comma, ChainDecls(rest, more))
  }

  function ChainStmts(ss: Stmts, more: Stmts): Stmts {
    match ss
    case NoStmts => more
    case Stmts(s, semis, rest) => Stmts(s, semis, ChainStmts(rest, more))
  }

  lemma {:induction false} ChainedExprs(es: Exprs, e: Expr, more: Exprs)
    ensures AddExpr(es, e) == ChainExprs(es, One(e)) && ChainExprs(AddExpr(es, e), more) == ChainExprs(es, More(e, more))
  {
    if es.More? {
      ChainedExprs(es.rest, e, more);
    }
  }

  lemma ChainedDecls(ds: Decls, x: Text, init: Option<Expr>, comma: bool, more: Decls)
    ensures ChainDecls(AddDecl(ds, x, init, comma), more) == ChainDecls(ds, Decl(x, init, comma, more))
  {}

  lemma ChainedStmts(ss: Stmts, s: Stmt, semis: nat, more: Stmts)
    ensures ChainStmts(AddStmt(ss, s, semis), more) == ChainStmts(ss, Stmts(s, semis, more))
  {}

  lemma FindsEntire(e: Expr, prev: nat, rest: seq<Token>)
    requires Entire(e, prev, KindOf(rest)) && prev != TOK_DOT
    ensures Read(ASSIGN_LEVEL, prev, Written(e) + rest) == Found(e, rest)
  {
    hide Read, Written, Fits, Placed, MayEnd, GoesOn;
    Finds(e, ASSIGN_LEVEL, prev, rest);
  }

  /** Further expressions, each behind its comma. */
  lemma {:induction false} FindsExprs(acc: Exprs, es: Exprs, rest: seq<Token>)
    requires ExprsStand(es, TOK_COMMA, KindOf(rest))
    ensures ReadExprs(acc, [Plain(TOK_COMMA)] + WrittenExprs(es) + rest) == Found(ChainExprs(acc, es), rest)
    decreases es
  {
    hide Read, Written, Entire, AddExpr, ChainExprs;
    var toks := [Plain(TOK_COMMA)] + WrittenExprs(es) + rest;
    match es {
      case One(e) =>
        assert toks[1..] == Written(e) + rest;
        FindsEntire(e, TOK_COMMA, rest);
        ChainedExprs(acc, e, es);
      case More(e, more) =>
        var tail := [Plain(TOK_COMMA)] + WrittenExprs(more) + rest;
        assert toks[1..] == Written(e) + tail;
        FindsEntire(e, TOK_COMMA, tail);
        ChainedExprs(acc, e, more);
        FindsExprs(AddExpr(acc, e), more, rest);
    }
  }

  lemma FindsInit(init: Option<Expr>, rest: seq<Token>)
    requires InitStands(init, KindOf(rest))
    ensures ReadInit(InitTokens(init) + rest) == Found(init, rest)
  {
    hide Read, Written, Entire;
    if init.Some? {
      assert (InitTokens(init) + rest)[1..] == Written(init.value) + rest;
      FindsEntire(init.value, TOK_ASSIGN, rest);
    } else {
      assert InitTokens(init) + rest == rest;
    }
  }

  lemma {:induction false} FindsDecls(acc: Decls, ds: Decls, rest: seq<Token>)
    requires DeclsStand(ds, KindOf(rest))
    ensures MoreDecls(acc, WrittenDecls(ds) + rest) == Found(ChainDecls(acc, ds), rest)
    decreases ds
  {
    hide ReadInit, Entire, AddDecl, ChainDecls;
    if ds.Decl? {
      var tail := WrittenDecls(ds.rest) + rest;
      FindsDecl(acc, ds, rest);
      ChainedDecls(acc, ds.x, ds.init, ds.comma, ds.rest);
      FindsDecls(AddDecl(acc, ds.x, ds.init, ds.comma), ds.rest, rest);
    } else {
      assert WrittenDecls(ds) + rest == rest && ChainDecls(acc, ds) == acc by {
        NothingChained(acc);
      }
    }
  }

  lemma NothingChained(acc: Decls)
    ensures ChainDecls(acc, NoDecls) == acc
  {}

  /** One variable is read off the front of a list. */
  lemma FindsDecl(acc: Decls, ds: Decls, rest: seq<Token>)
    requires ds.Decl? && DeclsStand(ds, KindOf(rest))
    ensures ReadDecls(acc, WrittenDecls(ds) + rest) == MoreDecls(AddDecl(acc, ds.x, ds.init, ds.comma), WrittenDecls(ds.rest) + rest)
    ensures KindOf(WrittenDecls(ds) + rest) == TOK_IDENT
  {
    hide ReadInit, MoreDecls, AddDecl, InitTokens, WrittenDecls, InitStands;
    var after := WrittenDecls(ds.rest) + rest;
    var tail := CommaTokens(ds.comma) + after;
    DeclTokens(ds, rest);
    FirstOfTwo(WrittenDecls(ds.rest), rest);
    NotAComma(ds.rest, KindOf(rest));
    CommaFirst(ds.comma, after);
    FindsInit(ds.init, tail);
  }

  lemma DeclTokens(ds: Decls, rest: seq<Token>)
    requires ds.Decl?
    ensures var toks := WrittenDecls(ds) + rest; var tail := CommaTokens(ds.comma) + (WrittenDecls(ds.rest) + rest);
            toks == [Name(ds.x)] + (InitTokens(ds.init) + tail) && toks[1..] == InitTokens(ds.init) + tail
  {
    hide InitTokens, CommaTokens, WrittenDecls;
    DeclWritten(ds);
    FourAndRest([Name(ds.x)], InitTokens(ds.init), CommaTokens(ds.comma), WrittenDecls(ds.rest), rest);
    FrontToken(Name(ds.x), InitTokens(ds.init) + (CommaTokens(ds.comma) + (WrittenDecls(ds.rest) + rest)));
  }

  lemma DeclWritten(ds: Decls)
    requires ds.Decl?
    ensures WrittenDecls(ds) == [Name(ds.x)] + InitTokens(ds.init) + CommaTokens(ds.comma) + WrittenDecls(ds.rest)
  {
    hide Written;
  }

  lemma FourAndRest(a: seq<Token>, b: seq<Token>, c: seq<Token>, d: seq<Token>, rest: seq<Token>)
    ensures a + b + c + d + rest == a + (b + (c + (d + rest)))
  {}

  lemma ThreeAndRest(a: seq<Token>, b: seq<Token>, c: seq<Token>, rest: seq<Token>)
    ensures a + b + c + rest == a + (b + (c + rest)) && a + b + c + rest == (a + b) + (c + rest)
    ensures b + c + rest == b + (c + rest)
  {}

  lemma FrontToken(t: Token, rest: seq<Token>)
    ensures ([t] + rest)[1..] == rest && ([t] + rest)[0] == t
  {}

  lemma CommaFirst(comma: bool, after: seq<Token>)
    ensures var tail := CommaTokens(comma) + after;
            if comma then KindOf(tail) == TOK_COMMA && tail[1..] == after else tail == after
  {}

  lemma NotAComma(ds: Decls, next: nat)
    requires DeclsStand(ds, next)
    ensures FirstKind(WrittenDecls(ds), next) != TOK_COMMA
  {}

  // ----- statements -----

  lemma {:induction false} FindsSemis(n: nat, rest: seq<Token>)
    requires KindOf(rest) != TOK_SEMICOLON
    ensures CountSemis(Semis(n) + rest) == n && (Semis(n) + rest)[n..] == rest
  {
    if n > 0 {
      assert Semis(n) + rest == [Plain(TOK_SEMICOLON)] + (Semis(n - 1) + rest);
      assert (Semis(n) + rest)[1..] == Semis(n - 1) + rest;
      FindsSemis(n - 1, rest);
    } else {
      assert Semis(0) + rest == rest;
    }
  }

  lemma FirstOfTwo(a: seq<Token>, rest: seq<Token>)
    ensures KindOf(a + rest) == FirstKind(a, KindOf(rest))
  {}

  lemma FirstKindOf(a: seq<Token>, next: nat)
    requires a != []
    ensures FirstKind(a, next) == Kind(a[0])
  {}

  lemma BeforeRest(prev: nat, a: seq<Token>, rest: seq<Token>)
    ensures |rest| <= |a + rest| && Before(prev, a + rest, rest) == LastKind(a, prev)
  {}

  /** Neither a semicolon nor the end stands where another statement begins. */
  lemma FirstOfRest(ss: Stmts, prev: nat, next: nat)
    requires StmtsStand(ss, prev, next) && next != TOK_SEMICOLON && (ss.Stmts? ==> !ss.s.Empty?)
    ensures FirstKind(WrittenStmts(ss), next) != TOK_SEMICOLON
  {
    hide StmtStands, WrittenStmt;
    if ss.Stmts? {
      FirstOfStmt(ss.s, prev, FirstKind(Semis(ss.semis) + WrittenStmts(ss.rest), next));
      assert WrittenStmts(ss)[0] == WrittenStmt(ss.s)[0];
    }
  }

  lemma {:induction false} FindsStmts(acc: Stmts, ss: Stmts, prev: nat, rest: seq<Token>)
    requires StmtsStand(ss, prev, KindOf(rest)) && prev != TOK_DOT
    requires KindOf(rest) == TOK_CLOSE_CURLY || rest == []
    ensures ReadStmts(acc, prev, KindOf(rest), WrittenStmts(ss) + rest) == Found(ChainStmts(acc, ss), rest)
    decreases ss, 1
  {
    hide ReadStmt, StmtStands, WrittenStmt, AddStmt, ChainStmts, Before, CountSemis, Semis, LastKind, FirstKind;
    var next := KindOf(rest);
    if ss.Stmts? {
      var after := WrittenStmts(ss.rest) + rest;
      var toks := WrittenStmt(ss.s) + (Semis(ss.semis) + after);
      FindsOne(acc, ss, prev, rest);
      LastOfList(ss, prev, next);
      ChainedStmts(acc, ss.s, ss.semis, ss.rest);
      FindsStmts(AddStmt(acc, ss.s, ss.semis), ss.rest, LastKind(WrittenStmt(ss.s) + Semis(ss.semis), prev), rest);
    } else {
      assert WrittenStmts(ss) + rest == rest;
      NothingMore(acc);
    }
  }

  lemma NothingMore(acc: Stmts)
    ensures ChainStmts(acc, NoStmts) == acc
  {}

  lemma LastOfList(ss: Stmts, prev: nat, next: nat)
    requires ss.Stmts? && StmtsStand(ss, prev, next) && prev != TOK_DOT
    ensures LastKind(WrittenStmt(ss.s) + Semis(ss.semis), prev) != TOK_DOT
  {
    hide StmtStands, WrittenStmt;
    LastOfStmt(ss.s, prev, FirstKind(Semis(ss.semis) + WrittenStmts(ss.rest), next));
    LastOfBoth(WrittenStmt(ss.s), Semis(ss.semis), prev);
    LastOfSemis(ss.semis, LastKind(WrittenStmt(ss.s), prev));
  }

  lemma {:induction false} LastOfSemis(n: nat, prev: nat)
    requires prev != TOK_DOT
    ensures LastKind(Semis(n), prev) != TOK_DOT
  {
    if n > 1 {
      LastOfSemis(n - 1, prev);
    }
  }

  /** One statement and its semicolons are read off the front of a list. */
  lemma FindsOne(acc: Stmts, ss: Stmts, prev: nat, rest: seq<Token>)
    requires ss.Stmts? && StmtsStand(ss, prev, KindOf(rest)) && prev != TOK_DOT
    requires KindOf(rest) == TOK_CLOSE_CURLY || rest == []
    ensures ReadStmts(acc, prev, KindOf(rest), WrittenStmts(ss) + rest)
         == ReadStmts(AddStmt(acc, ss.s, ss.semis), LastKind(WrittenStmt(ss.s) + Semis(ss.semis), prev), KindOf(rest),
                      WrittenStmts(ss.rest) + rest)
    decreases ss, 0
  {
    hide ReadStmt, ReadStmts, StmtStands, WrittenStmt, AddStmt, Before, CountSemis, Semis, LastKind, FirstKind;
    var next := KindOf(rest);
    var after := WrittenStmts(ss.rest) + rest;
    var toks := WrittenStmts(ss) + rest;
    var back := Semis(ss.semis) + after;
    ThreeAndRest(WrittenStmt(ss.s), Semis(ss.semis), WrittenStmts(ss.rest), rest);
    FirstOfTwo(Semis(ss.semis) + WrittenStmts(ss.rest), rest);
    FirstOfTwo(WrittenStmts(ss.rest), rest);
    FirstOfRest(ss.rest, LastKind(WrittenStmt(ss.s) + Semis(ss.semis), prev), next);
    FirstOfStmt(ss.s, prev, KindOf(back));
    FirstOfTwo(WrittenStmt(ss.s), back);
    FirstKindOf(WrittenStmt(ss.s), KindOf(back));
    FindsStmt(ss.s, prev, back);
    FindsSemis(ss.semis, after);
    BeforeRest(prev, WrittenStmt(ss.s) + Semis(ss.semis), after);
    StmtsStep(acc, prev, next, toks);
  }

  /** Statements between braces. */
  lemma FindsBraces(body: Stmts, rest: seq<Token>)
    requires StmtsStand(body, TOK_OPEN_CURLY, TOK_CLOSE_CURLY)
    ensures ReadBraces(WrittenStmts(body) + ([Plain(TOK_CLOSE_CURLY)] + rest)) == Found(body, rest)
    decreases body, 2
  {
    hide ReadStmts, StmtsStand;
    var tail := [Plain(TOK_CLOSE_CURLY)] + rest;
    FindsStmts(NoStmts, body, TOK_OPEN_CURLY, tail);
    assert tail[1..] == rest;
  }

  /** A condition and its parentheses. */
  lemma FindsHead(c: Expr, rest: seq<Token>)
    requires Entire(c, TOK_OPEN_PAREN, TOK_CLOSE_PAREN)
    ensures ReadHead([Plain(TOK_OPEN_PAREN)] + Written(c) + [Plain(TOK_CLOSE_PAREN)] + rest) == Found(c, rest)
  {
    hide Read, Entire, Written;
    var tail := [Plain(TOK_CLOSE_PAREN)] + rest;
    var toks := [Plain(TOK_OPEN_PAREN)] + Written(c) + [Plain(TOK_CLOSE_PAREN)] + rest;
    assert toks[1..] == Written(c) + tail;
    FindsEntire(c, TOK_OPEN_PAREN, tail);
    assert tail[1..] == rest;
  }

  lemma {:induction false} FindsStmt(s: Stmt, prev: nat, rest: seq<Token>)
    requires StmtStands(s, prev, KindOf(rest)) && prev != TOK_DOT
    ensures ReadStmt(prev, WrittenStmt(s) + rest) == Found(s, rest)
    decreases s, 1
  {
    hide StmtStands, ReadStmt, WrittenStmt;
    match s
    case ExprStmt(_) => FindsExprStmt(s, prev, rest);
    case Let(_) => FindsLet(s, prev, rest);
    case Block(_) => FindsBlock(s, prev, rest);
    case If(_, _) => FindsIf(s, prev, rest);
    case IfElse(_, _, _) => FindsIfElse(s, prev, rest);
    case While(_, _) => FindsWhile(s, prev, rest);
    case WhileOne(_, _) => FindsWhileOne(s, prev, rest);
    case Return(_) => FindsReturn(s, prev, rest);
    case _ => FindsWord(s, prev, rest);
  }

  lemma FindsWord(s: Stmt, prev: nat, rest: seq<Token>)
    requires s.Empty? || s.Break? || s.Continue?
    ensures ReadStmt(prev, WrittenStmt(s) + rest) == Found(s, rest)
  {
    assert (WrittenStmt(s) + rest)[1..] == rest;
  }

  lemma FindsExprStmt(s: Stmt, prev: nat, rest: seq<Token>)
    requires s.ExprStmt? && StmtStands(s, prev, KindOf(rest)) && prev != TOK_DOT
    ensures ReadStmt(prev, WrittenStmt(s) + rest) == Found(s, rest)
  {
    hide Read, Entire, Written;
    var es := s.es;
    FitsEntire(es.e, prev, if es.One? then KindOf(rest) else TOK_COMMA);
    FirstOfExpr(es.e, ASSIGN_LEVEL);
    assert (WrittenExprs(es) + rest)[0] == Written(es.e)[0];
    if es.One? {
      FindsEntire(es.e, prev, rest);
    } else {
      var tail := [Plain(TOK_COMMA)] + WrittenExprs(es.rest) + rest;
      assert WrittenExprs(es) + rest == Written(es.e) + tail;
      FindsEntire(es.e, prev, tail);
      FindsExprs(One(es.e), es.rest, rest);
    }
  }

  lemma FitsEntire(e: Expr, prev: nat, next: nat)
    requires Entire(e, prev, next)
    ensures Fits(e, ASSIGN_LEVEL)
  {
    hide Fits;
  }

  lemma FindsLet(s: Stmt, prev: nat, rest: seq<Token>)
    requires s.Let? && StmtStands(s, prev, KindOf(rest))
    ensures ReadStmt(prev, WrittenStmt(s) + rest) == Found(s, rest)
  {
    hide ReadDecls, DeclsStand, WrittenDecls;
    var toks := WrittenStmt(s) + rest;
    assert toks[1..] == WrittenDecls(s.ds) + rest;
    FindsDecls(NoDecls, s.ds, rest);
    FindsDecl(NoDecls, s.ds, rest);
  }

  lemma FindsBlock(s: Stmt, prev: nat, rest: seq<Token>)
    requires s.Block? && StmtStands(s, prev, KindOf(rest))
    ensures ReadStmt(prev, WrittenStmt(s) + rest) == Found(s, rest)
    decreases s, 0
  {
    hide ReadBraces, StmtsStand, WrittenStmt, ReadStmt;
    BlockTokens(s, rest);
    FindsBraces(s.body, rest);
    BlockRead(prev, WrittenStmt(s) + rest);
  }

  lemma BlockTokens(s: Stmt, rest: seq<Token>)
    requires s.Block?
    ensures var toks := WrittenStmt(s) + rest;
            KindOf(toks) == TOK_OPEN_CURLY && toks[1..] == WrittenStmts(s.body) + ([Plain(TOK_CLOSE_CURLY)] + rest)
  {
    hide WrittenStmts;
  }

  lemma BlockRead(prev: nat, toks: seq<Token>)
    requires KindOf(toks) == TOK_OPEN_CURLY
    ensures ReadStmt(prev, toks) == AsBlock(ReadBraces(toks[1..]))
  {
    hide ReadBraces;
  }

  lemma FindsReturn(s: Stmt, prev: nat, rest: seq<Token>)
    requires s.Return? && StmtStands(s, prev, KindOf(rest))
    ensures ReadStmt(prev, WrittenStmt(s) + rest) == Found(s, rest)
  {
    hide Read, Entire, Written;
    var toks := WrittenStmt(s) + rest;
    if s.result.Some? {
      var e := s.result.value;
      FitsEntire(e, TOK_KEYWORD_RETURN, KindOf(rest));
      FirstOfExpr(e, ASSIGN_LEVEL);
      assert toks[1..] == Written(e) + rest;
      FindsEntire(e, TOK_KEYWORD_RETURN, rest);
    } else {
      assert toks[1..] == rest;
    }
  }

  lemma LoopTokens(c: Expr, body: Stmts, rest: seq<Token>)
    ensures WrittenStmt(While(c, body)) + rest
         == [Plain(TOK_KEYWORD_WHILE)] + ([Plain(TOK_OPEN_PAREN)] + Written(c) + [Plain(TOK_CLOSE_PAREN)]
              + ([Plain(TOK_OPEN_CURLY)] + (WrittenStmts(body) + ([Plain(TOK_CLOSE_CURLY)] + rest))))
  {
    hide Written, WrittenStmts;
  }

  lemma LoopOneTokens(c: Expr, s: Stmt, rest: seq<Token>)
    ensures WrittenStmt(WhileOne(c, s)) + rest
         == [Plain(TOK_KEYWORD_WHILE)] + ([Plain(TOK_OPEN_PAREN)] + Written(c) + [Plain(TOK_CLOSE_PAREN)] + (WrittenStmt(s) + rest))
  {
    hide Written;
  }

  lemma OneBranchTokens(c: Expr, t: Stmt, rest: seq<Token>)
    ensures WrittenStmt(If(c, t)) + rest
         == [Plain(TOK_KEYWORD_IF)] + ([Plain(TOK_OPEN_PAREN)] + Written(c) + [Plain(TOK_CLOSE_PAREN)] + (WrittenStmt(t) + rest))
  {
    hide Written;
  }

  lemma TwoBranchTokens(c: Expr, t: Stmt, f: Stmt, rest: seq<Token>)
    ensures WrittenStmt(IfElse(c, t, f)) + rest
         == [Plain(TOK_KEYWORD_IF)] + ([Plain(TOK_OPEN_PAREN)] + Written(c) + [Plain(TOK_CLOSE_PAREN)]
              + (WrittenStmt(t) + ([Plain(TOK_KEYWORD_ELSE)] + (WrittenStmt(f) + rest))))
  {
    hide Written;
  }

  lemma FindsWhile(s: Stmt, prev: nat, rest: seq<Token>)
    requires s.While? && StmtStands(s, prev, KindOf(rest))
    ensures ReadStmt(prev, WrittenStmt(s) + rest) == Found(s, rest)
    decreases s, 0
  {
    hide ReadBraces, ReadHead, ReadStmt, Entire, StmtsStand, Written, WrittenStmt;
    var inner := WrittenStmts(s.body) + ([Plain(TOK_CLOSE_CURLY)] + rest);
    var tail := [Plain(TOK_OPEN_CURLY)] + inner;
    LoopTokens(s.c, s.body, rest);
    FindsHead(s.c, tail);
    FrontToken(Plain(TOK_OPEN_CURLY), inner);
    FindsBraces(s.body, rest);
    WhileRead(prev, WrittenStmt(s) + rest);
  }

  lemma FindsWhileOne(s: Stmt, prev: nat, rest: seq<Token>)
    requires s.WhileOne? && StmtStands(s, prev, KindOf(rest))
    ensures ReadStmt(prev, WrittenStmt(s) + rest) == Found(s, rest)
    decreases s, 0
  {
    hide ReadStmt, ReadHead, Entire, Written, WrittenStmt;
    var tail := WrittenStmt(s.s) + rest;
    var toks := WrittenStmt(s) + rest;
    LoopOneTokens(s.c, s.s, rest);
    FindsHead(s.c, tail);
    FirstOfStmt(s.s, TOK_CLOSE_PAREN, KindOf(rest));
    FindsStmt(s.s, TOK_CLOSE_PAREN, rest);
    FirstOfTwo(WrittenStmt(s.s), rest);
    WhileRead(prev, toks);
  }

  lemma WhileRead(prev: nat, toks: seq<Token>)
    requires KindOf(toks) == TOK_KEYWORD_WHILE
    ensures ReadStmt(prev, toks) == ReadWhile(toks[1..])
  {
    hide ReadWhile;
  }

  lemma IfRead(prev: nat, toks: seq<Token>)
    requires KindOf(toks) == TOK_KEYWORD_IF
    ensures ReadStmt(prev, toks) == ReadIf(toks[1..])
  {
    hide ReadIf;
  }

  /** A branch, behind a condition or an `else`. */
  lemma FindsBranch(s: Stmt, prev: nat, rest: seq<Token>)
    requires BranchStands(s, prev, KindOf(rest)) && prev != TOK_DOT
    ensures ReadBranch(prev, WrittenStmt(s) + rest) == Found(s, rest)
    decreases s, 2
  {
    hide ReadStmt, StmtStands, WrittenStmt;
    FindsStmt(s, prev, rest);
    FirstOfStmt(s, prev, KindOf(rest));
    SecondOfTwo(WrittenStmt(s), rest);
  }

  lemma SecondOfTwo(a: seq<Token>, rest: seq<Token>)
    requires a != []
    ensures KindOf((a + rest)[1..]) == SecondKind(a, KindOf(rest)) && KindOf(a + rest) == Kind(a[0])
  {}

  lemma FindsIf(s: Stmt, prev: nat, rest: seq<Token>)
    requires s.If? && StmtStands(s, prev, KindOf(rest))
    ensures ReadStmt(prev, WrittenStmt(s) + rest) == Found(s, rest)
    decreases s, 0
  {
    hide ReadStmt, ReadHead, ReadBranch, Entire, Written, WrittenStmt, BranchStands;
    var tail := WrittenStmt(s.t) + rest;
    OneBranchTokens(s.c, s.t, rest);
    FindsHead(s.c, tail);
    FindsBranch(s.t, TOK_CLOSE_PAREN, rest);
    IfRead(prev, WrittenStmt(s) + rest);
  }

  lemma FindsIfElse(s: Stmt, prev: nat, rest: seq<Token>)
    requires s.IfElse? && StmtStands(s, prev, KindOf(rest))
    ensures ReadStmt(prev, WrittenStmt(s) + rest) == Found(s, rest)
    decreases s, 0
  {
    hide ReadStmt, ReadHead, ReadBranch, Entire, Written, WrittenStmt, BranchStands;
    var last := [Plain(TOK_KEYWORD_ELSE)] + (WrittenStmt(s.f) + rest);
    var tail := WrittenStmt(s.t) + last;
    TwoBranchTokens(s.c, s.t, s.f, rest);
    FindsHead(s.c, tail);
    FindsBranch(s.t, TOK_CLOSE_PAREN, last);
    assert last[1..] == WrittenStmt(s.f) + rest;
    FindsBranch(s.f, TOK_KEYWORD_ELSE, rest);
    IfRead(prev, WrittenStmt(s) + rest);
  }

  // ----- what reading finds was written -----

  /** `e` is the whole expression between `prev` and the tokens that follow it. */
  lemma EntireSound(prev: nat, toks: seq<Token>)
    requires Read(ASSIGN_LEVEL, prev, toks).Found?
    ensures var r := Read(ASSIGN_LEVEL, prev, toks); toks == Written(r.tree) + r.rest && Entire(r.tree, prev, KindOf(r.rest))
  {
    hide Read, Written, Fits, Placed, MayEnd, GoesOn;
    ReadSound(ASSIGN_LEVEL, prev, toks);
  }

  /** A list of expressions that may go on. */
  predicate ExprsOpen(es: Exprs, prev: nat, next: nat) {
    match es
    case One(e) => Entire(e, prev, next)
    case More(e, rest) => Entire(e, prev, TOK_COMMA) && ExprsOpen(rest, TOK_COMMA, next)
  }

  lemma {:induction false} AddExprStands(es: Exprs, e: Expr, prev: nat, next: nat)
    requires ExprsOpen(es, prev, TOK_COMMA) && Entire(e, TOK_COMMA, next)
    ensures ExprsOpen(AddExpr(es, e), prev, next)
    ensures WrittenExprs(AddExpr(es, e)) == WrittenExprs(es) + [Plain(TOK_COMMA)] + Written(e)
  {
    hide Entire, Written;
    if es.More? {
      AddExprStands(es.rest, e, TOK_COMMA, next);
    }
  }

  lemma {:induction false} OpenStands(es: Exprs, prev: nat, next: nat)
    requires ExprsOpen(es, prev, next) && next != TOK_COMMA
    ensures ExprsStand(es, prev, next)
  {
    hide Entire;
    if es.More? {
      OpenStands(es.rest, TOK_COMMA, next);
    }
  }

  lemma {:induction false} ExprsSound(acc: Exprs, all: seq<Token>, prev: nat, toks: seq<Token>)
    requires all == WrittenExprs(acc) + toks && ExprsOpen(acc, prev, KindOf(toks)) && ReadExprs(acc, toks).Found?
    ensures var r := ReadExprs(acc, toks); all == WrittenExprs(r.tree) + r.rest && ExprsStand(r.tree, prev, KindOf(r.rest))
    decreases |toks|
  {
    hide Read, Written, Entire, AddExpr, ExprsOpen, ExprsStand, WrittenExprs;
    if KindOf(toks) == TOK_COMMA {
      PlainFirst(toks, TOK_COMMA);
      var e := Read(ASSIGN_LEVEL, TOK_COMMA, toks[1..]);
      EntireSound(TOK_COMMA, toks[1..]);
      AddExprStands(acc, e.tree, prev, KindOf(e.rest));
      ThreeAndRest(WrittenExprs(acc), [Plain(TOK_COMMA)], Written(e.tree), e.rest);
      ExprsSound(AddExpr(acc, e.tree), all, prev, e.rest);
    } else {
      OpenStands(acc, prev, KindOf(toks));
    }
  }

  /** A list of variables that may go on. */
  predicate DeclsOpen(ds: Decls, next: nat) {
    ds.Decl? ==>
      InitStands(ds.init, if ds.comma then TOK_COMMA else FirstKind(WrittenDecls(ds.rest), next)) && DeclsOpen(ds.rest, next)
  }

  lemma {:induction false} AddDeclStands(ds: Decls, x: Text, init: Option<Expr>, comma: bool, next: nat)
    requires DeclsOpen(ds, TOK_IDENT) && InitStands(init, if comma then TOK_COMMA else next)
    ensures DeclsOpen(AddDecl(ds, x, init, comma), next)
  {
    hide InitStands, Written, InitTokens;
    if ds.Decl? {
      AddDeclStands(ds.rest, x, init, comma, next);
      AddDeclWritten(ds.rest, x, init, comma);
    }
  }

  lemma {:induction false} DeclsClosed(ds: Decls, next: nat)
    requires DeclsOpen(ds, next) && (next == TOK_SEMICOLON || next == TOK_EOF)
    ensures DeclsStand(ds, next)
  {
    hide InitStands, WrittenDecls;
    if ds.Decl? {
      DeclsClosed(ds.rest, next);
    }
  }

  lemma InitSound(toks: seq<Token>)
    requires ReadInit(toks).Found?
    ensures var r := ReadInit(toks); toks == InitTokens(r.tree) + r.rest && InitStands(r.tree, KindOf(r.rest))
  {
    hide Read, Entire, Written;
    if KindOf(toks) == TOK_ASSIGN {
      PlainFirst(toks, TOK_ASSIGN);
      EntireSound(TOK_ASSIGN, toks[1..]);
      var e := Read(ASSIGN_LEVEL, TOK_ASSIGN, toks[1..]);
      ThreeAndRest([], [Plain(TOK_ASSIGN)], Written(e.tree), e.rest);
    }
  }

  lemma {:induction false} DeclsSound(acc: Decls, all: seq<Token>, toks: seq<Token>)
    requires all == WrittenDecls(acc) + toks && DeclsOpen(acc, TOK_IDENT) && ReadDecls(acc, toks).Found?
    ensures var r := ReadDecls(acc, toks);
            all == WrittenDecls(r.tree) + r.rest && DeclsStand(r.tree, KindOf(r.rest)) && r.tree.Decl?
    decreases |toks|
  {
    hide ReadInit, WrittenDecls, InitStands, DeclsOpen, DeclsStand, InitTokens, AddDecl;
    var x := toks[0].text;
    assert toks == [Name(x)] + toks[1..];
    var init := ReadInit(toks[1..]);
    InitSound(toks[1..]);
    var comma := KindOf(init.rest) == TOK_COMMA;
    if comma {
      PlainFirst(init.rest, TOK_COMMA);
    }
    var rest := if comma then init.rest[1..] else init.rest;
    var ds := AddDecl(acc, x, init.tree, comma);
    AddDeclStands(acc, x, init.tree, comma, KindOf(rest));
    AddDeclWritten(acc, x, init.tree, comma);
    AddDeclSome(acc, x, init.tree, comma);
    OneDeclTokens(acc, all, toks, x, init.tree, comma, init.rest, rest);
    if KindOf(rest) == TOK_SEMICOLON || KindOf(rest) == TOK_EOF {
      DeclsClosed(ds, KindOf(rest));
    } else {
      NameFirst(ds, rest);
      DeclsSound(ds, all, rest);
    }
  }

  lemma AddDeclSome(ds: Decls, x: Text, init: Option<Expr>, comma: bool)
    ensures AddDecl(ds, x, init, comma).Decl?
  {}

  lemma NameFirst(ds: Decls, toks: seq<Token>)
    requires ReadDecls(ds, toks).Found?
    ensures KindOf(toks) == TOK_IDENT
  {
    hide ReadInit, MoreDecls;
  }

  lemma OneDeclTokens(acc: Decls, all: seq<Token>, toks: seq<Token>, x: Text, init: Option<Expr>, comma: bool,
                      after: seq<Token>, rest: seq<Token>)
    requires all == WrittenDecls(acc) + toks && toks == [Name(x)] + (InitTokens(init) + after) && after == CommaTokens(comma) + rest
    ensures all == WrittenDecls(acc) + OneDecl(x, init, comma) + rest
  {
    hide WrittenDecls, InitTokens;
    FourAndRest([Name(x)], InitTokens(init), CommaTokens(comma), [], rest);
    assert WrittenDecls(acc) + OneDecl(x, init, comma) + rest == WrittenDecls(acc) + (OneDecl(x, init, comma) + rest);
    assert OneDecl(x, init, comma) + [] == OneDecl(x, init, comma) && [] + rest == rest;
  }

  lemma {:induction false} AddStmtStands(ss: Stmts, s: Stmt, semis: nat, prev: nat, mid: nat, next: nat)
    requires StmtsStand(ss, prev, mid) && (ss.Stmts? ==> !s.Empty?)
    requires StmtStands(s, LastKind(WrittenStmts(ss), prev), FirstKind(Semis(semis), next))
    requires mid == FirstKind(WrittenStmt(s) + Semis(semis), next)
    ensures StmtsStand(AddStmt(ss, s, semis), prev, next)
  {
    hide WrittenStmt, Semis, StmtStands;
    if ss.Stmts? {
      var front := WrittenStmt(ss.s) + Semis(ss.semis);
      LastOfBoth(front, WrittenStmts(ss.rest), prev);
      AddStmtStands(ss.rest, s, semis, LastKind(front, prev), mid, next);
      AddStmtWritten(ss.rest, s, semis);
      ThreeAndRest(WrittenStmts(ss.rest), WrittenStmt(s), Semis(semis), []);
      FirstOfBoth(Semis(ss.semis) + WrittenStmts(ss.rest), WrittenStmt(s) + Semis(semis), next);
      ThreeAndRest(Semis(ss.semis), WrittenStmts(ss.rest), WrittenStmt(s) + Semis(semis), []);
      NoRest(WrittenStmts(ss.rest) + WrittenStmt(s) + Semis(semis));
      NoRest(Semis(ss.semis) + WrittenStmts(ss.rest) + (WrittenStmt(s) + Semis(semis)));
      NoRest(WrittenStmt(s) + Semis(semis));
      NoRest(Semis(semis));
    } else {
      NoRest(Semis(semis));
    }
  }

  lemma NoRest(a: seq<Token>)
    ensures a + [] == a
  {}

  lemma {:induction false} SemisSound(toks: seq<Token>)
    ensures var n := CountSemis(toks); toks == Semis(n) + toks[n..] && KindOf(toks[n..]) != TOK_SEMICOLON
  {
    if KindOf(toks) == TOK_SEMICOLON {
      PlainFirst(toks, TOK_SEMICOLON);
      SemisSound(toks[1..]);
      var n := CountSemis(toks[1..]);
      assert toks[1..][n..] == toks[n + 1..];
      ThreeAndRest([], [Plain(TOK_SEMICOLON)], Semis(n), toks[n + 1..]);
    } else {
      NoRest(toks);
    }
  }

  /** The statements read so far are a list in front of `toks`, and so is what reading goes on to find. */
  predicate ListSoFar(acc: Stmts, all: seq<Token>, first: nat, prev: nat, toks: seq<Token>) {
    all == WrittenStmts(acc) + toks && StmtsStand(acc, first, KindOf(toks)) && prev == LastKind(WrittenStmts(acc), first)
    && (acc.Stmts? ==> KindOf(toks) != TOK_SEMICOLON)
  }

  lemma {:induction false} StmtsSound(acc: Stmts, all: seq<Token>, first: nat, prev: nat, et: nat, toks: seq<Token>)
    requires ListSoFar(acc, all, first, prev, toks) && ReadStmts(acc, prev, et, toks).Found?
    ensures var r := ReadStmts(acc, prev, et, toks);
            all == WrittenStmts(r.tree) + r.rest && StmtsStand(r.tree, first, KindOf(r.rest))
            && (KindOf(r.rest) == TOK_EOF || KindOf(r.rest) == et)
    decreases |toks|, 4
  {
    hide ReadStmt, ReadStmts, StmtStands, StmtsStand, WrittenStmt, WrittenStmts, AddStmt, Before, CountSemis, LastKind, ListSoFar, Semis;
    if KindOf(toks) == TOK_EOF || KindOf(toks) == et {
      ListDone(acc, all, first, prev, et, toks);
    } else {
      StmtsStep(acc, prev, et, toks);
      var s := ReadStmt(prev, toks);
      StmtSound(prev, toks);
      var n := CountSemis(s.rest);
      var rest := s.rest[n..];
      SemisSound(s.rest);
      ThreeAndRest([], WrittenStmt(s.tree), Semis(n), rest);
      BeforeRest(prev, WrittenStmt(s.tree) + Semis(n), rest);
      ListNext(acc, all, first, prev, toks, s.tree, n, rest);
      StmtsSound(AddStmt(acc, s.tree, n), all, first, Before(prev, toks, rest), et, rest);
    }
  }

  lemma ListDone(acc: Stmts, all: seq<Token>, first: nat, prev: nat, et: nat, toks: seq<Token>)
    requires ListSoFar(acc, all, first, prev, toks) && (KindOf(toks) == TOK_EOF || KindOf(toks) == et)
    ensures ReadStmts(acc, prev, et, toks) == Found(acc, toks) && all == WrittenStmts(acc) + toks && StmtsStand(acc, first, KindOf(toks))
  {
    hide ReadStmt, StmtsStand, WrittenStmts;
  }

  lemma ListNext(acc: Stmts, all: seq<Token>, first: nat, prev: nat, toks: seq<Token>, s: Stmt, n: nat, rest: seq<Token>)
    requires ListSoFar(acc, all, first, prev, toks) && toks == WrittenStmt(s) + Semis(n) + rest && KindOf(rest) != TOK_SEMICOLON
    requires StmtStands(s, prev, KindOf(Semis(n) + rest))
    ensures ListSoFar(AddStmt(acc, s, n), all, first, LastKind(WrittenStmt(s) + Semis(n), prev), rest)
  {
    hide StmtStands, StmtsStand, WrittenStmt, WrittenStmts, AddStmt, LastKind, FirstKind, Semis;
    FirstOfTwo(Semis(n), rest);
    FirstOfTwo(WrittenStmt(s) + Semis(n), rest);
    FirstOfStmt(s, prev, KindOf(Semis(n) + rest));
    ThreeAndRest([], WrittenStmt(s), Semis(n), rest);
    FirstOfTwo(WrittenStmt(s), Semis(n) + rest);
    FirstKindOf(WrittenStmt(s), KindOf(Semis(n) + rest));
    AddStmtStands(acc, s, n, first, KindOf(toks), KindOf(rest));
    AddStmtWritten(acc, s, n);
    LastOfBoth(WrittenStmts(acc), WrittenStmt(s) + Semis(n), first);
    Joined3(WrittenStmts(acc), WrittenStmt(s), Semis(n), rest);
  }

  lemma Joined3(a: seq<Token>, b: seq<Token>, c: seq<Token>, rest: seq<Token>)
    ensures a + (b + c + rest) == a + b + c + rest && a + b + c == a + (b + c)
  {}

  lemma BracesSound(toks: seq<Token>)
    requires ReadBraces(toks).Found?
    ensures var r := ReadBraces(toks);
            toks == WrittenStmts(r.tree) + ([Plain(TOK_CLOSE_CURLY)] + r.rest)
            && StmtsStand(r.tree, TOK_OPEN_CURLY, TOK_CLOSE_CURLY)
    decreases |toks|, 5
  {
    hide ReadStmts, StmtsStand;
    assert [] + toks == toks;
    NothingYet(toks, TOK_OPEN_CURLY);
    StmtsSound(NoStmts, toks, TOK_OPEN_CURLY, TOK_OPEN_CURLY, TOK_CLOSE_CURLY, toks);
    PlainFirst(ReadStmts(NoStmts, TOK_OPEN_CURLY, TOK_CLOSE_CURLY, toks).rest, TOK_CLOSE_CURLY);
  }

  lemma NothingYet(toks: seq<Token>, first: nat)
    ensures ListSoFar(NoStmts, toks, first, first, toks)
  {
    assert [] + toks == toks;
  }

  lemma HeadSound(toks: seq<Token>)
    requires ReadHead(toks).Found?
    ensures var r := ReadHead(toks);
            toks == [Plain(TOK_OPEN_PAREN)] + Written(r.tree) + [Plain(TOK_CLOSE_PAREN)] + r.rest
            && Entire(r.tree, TOK_OPEN_PAREN, TOK_CLOSE_PAREN)
  {
    hide Read, Entire, Written;
    PlainFirst(toks, TOK_OPEN_PAREN);
    EntireSound(TOK_OPEN_PAREN, toks[1..]);
    var c := Read(ASSIGN_LEVEL, TOK_OPEN_PAREN, toks[1..]);
    PlainFirst(c.rest, TOK_CLOSE_PAREN);
    ThreeAndRest([Plain(TOK_OPEN_PAREN)], Written(c.tree), [Plain(TOK_CLOSE_PAREN)], c.rest[1..]);
  }

  lemma {:induction false} StmtSound(prev: nat, toks: seq<Token>)
    requires ReadStmt(prev, toks).Found?
    ensures var r := ReadStmt(prev, toks); toks == WrittenStmt(r.tree) + r.rest && StmtStands(r.tree, prev, KindOf(r.rest))
    decreases |toks|, 3
  {
    hide ReadStmt, StmtStands, WrittenStmt;
    var k := KindOf(toks);
    if k == TOK_SEMICOLON || k == TOK_KEYWORD_BREAK || k == TOK_KEYWORD_CONTINUE {
      WordSound(prev, toks);
    } else if k == TOK_KEYWORD_LET {
      LetSound(prev, toks);
    } else if k == TOK_OPEN_CURLY {
      BlockSound(prev, toks);
    } else if k == TOK_KEYWORD_RETURN {
      ReturnSound(prev, toks);
    } else if k == TOK_KEYWORD_WHILE {
      WhileRead(prev, toks);
      WhileSound(prev, toks);
    } else if k == TOK_KEYWORD_IF {
      IfRead(prev, toks);
      IfSound(prev, toks);
    } else {
      ExprStmtSound(prev, toks);
    }
  }

  lemma WordSound(prev: nat, toks: seq<Token>)
    requires KindOf(toks) == TOK_SEMICOLON || KindOf(toks) == TOK_KEYWORD_BREAK || KindOf(toks) == TOK_KEYWORD_CONTINUE
    ensures var r := ReadStmt(prev, toks);
            r.Found? && toks == WrittenStmt(r.tree) + r.rest && StmtStands(r.tree, prev, KindOf(r.rest))
  {
    PlainFirst(toks, KindOf(toks));
  }

  lemma LetSound(prev: nat, toks: seq<Token>)
    requires KindOf(toks) == TOK_KEYWORD_LET && ReadStmt(prev, toks).Found?
    ensures var r := ReadStmt(prev, toks); toks == WrittenStmt(r.tree) + r.rest && StmtStands(r.tree, prev, KindOf(r.rest))
  {
    hide ReadDecls, DeclsStand;
    PlainFirst(toks, TOK_KEYWORD_LET);
    assert [] + toks[1..] == toks[1..];
    DeclsSound(NoDecls, toks[1..], toks[1..]);
    var r := ReadDecls(NoDecls, toks[1..]);
    ThreeAndRest([], [Plain(TOK_KEYWORD_LET)], WrittenDecls(r.tree), r.rest);
  }

  lemma BlockSound(prev: nat, toks: seq<Token>)
    requires KindOf(toks) == TOK_OPEN_CURLY && ReadStmt(prev, toks).Found?
    ensures var r := ReadStmt(prev, toks); toks == WrittenStmt(r.tree) + r.rest && StmtStands(r.tree, prev, KindOf(r.rest))
    decreases |toks|, 2
  {
    hide ReadStmt, ReadBraces, StmtsStand, WrittenStmts;
    PlainFirst(toks, TOK_OPEN_CURLY);
    BlockRead(prev, toks);
    BracesSound(toks[1..]);
    var r := ReadBraces(toks[1..]);
    FourAndRest([], [Plain(TOK_OPEN_CURLY)], WrittenStmts(r.tree), [Plain(TOK_CLOSE_CURLY)], r.rest);
  }

  lemma ReturnSound(prev: nat, toks: seq<Token>)
    requires KindOf(toks) == TOK_KEYWORD_RETURN && ReadStmt(prev, toks).Found?
    ensures var r := ReadStmt(prev, toks); toks == WrittenStmt(r.tree) + r.rest && StmtStands(r.tree, prev, KindOf(r.rest))
  {
    hide Read, Entire, Written;
    PlainFirst(toks, TOK_KEYWORD_RETURN);
    if !EndsReturn(KindOf(toks[1..])) {
      EntireSound(TOK_KEYWORD_RETURN, toks[1..]);
      var e := Read(ASSIGN_LEVEL, TOK_KEYWORD_RETURN, toks[1..]);
      ThreeAndRest([], [Plain(TOK_KEYWORD_RETURN)], Written(e.tree), e.rest);
    }
  }

  lemma ExprStmtSound(prev: nat, toks: seq<Token>)
    requires !OpensStatement(KindOf(toks)) || KindOf(toks) == TOK_KEYWORD_FOR || IsUnimplemented(KindOf(toks))
    requires ReadStmt(prev, toks).Found?
    ensures var r := ReadStmt(prev, toks); toks == WrittenStmt(r.tree) + r.rest && StmtStands(r.tree, prev, KindOf(r.rest))
  {
    hide Read, Entire, Written, ReadExprs;
    var e := Read(ASSIGN_LEVEL, prev, toks);
    EntireSound(prev, toks);
    ExprsSound(One(e.tree), toks, prev, e.rest);
  }

  /** `s` begins with the condition `c` behind `word`. */
  lemma WhileSound(prev: nat, toks: seq<Token>)
    requires KindOf(toks) == TOK_KEYWORD_WHILE && ReadWhile(toks[1..]).Found?
    ensures var r := ReadWhile(toks[1..]); toks == WrittenStmt(r.tree) + r.rest && StmtStands(r.tree, prev, KindOf(r.rest))
    decreases |toks|, 2
  {
    hide ReadHead, ReadBraces, ReadStmt, Entire, StmtsStand, Written, WrittenStmts, WrittenStmt;
    PlainFirst(toks, TOK_KEYWORD_WHILE);
    HeadSound(toks[1..]);
    var c := ReadHead(toks[1..]);
    if KindOf(c.rest) == TOK_OPEN_CURLY {
      PlainFirst(c.rest, TOK_OPEN_CURLY);
      BracesSound(c.rest[1..]);
      var body := ReadBraces(c.rest[1..]);
      LoopTokens(c.tree, body.tree, body.rest);
    } else {
      StmtSound(TOK_CLOSE_PAREN, c.rest);
      var s := ReadStmt(TOK_CLOSE_PAREN, c.rest);
      FirstOfStmt(s.tree, TOK_CLOSE_PAREN, KindOf(s.rest));
      FirstOfTwo(WrittenStmt(s.tree), s.rest);
      FirstKindOf(WrittenStmt(s.tree), KindOf(s.rest));
      LoopOneTokens(c.tree, s.tree, s.rest);
    }
  }

  lemma BranchSound(prev: nat, toks: seq<Token>)
    requires ReadBranch(prev, toks).Found?
    ensures var r := ReadBranch(prev, toks); toks == WrittenStmt(r.tree) + r.rest && BranchStands(r.tree, prev, KindOf(r.rest))
    decreases |toks|, 4
  {
    hide ReadStmt, StmtStands, WrittenStmt;
    StmtSound(prev, toks);
    var s := ReadStmt(prev, toks);
    FirstOfStmt(s.tree, prev, KindOf(s.rest));
    SecondOfTwo(WrittenStmt(s.tree), s.rest);
  }

  lemma IfSound(prev: nat, toks: seq<Token>)
    requires KindOf(toks) == TOK_KEYWORD_IF && ReadIf(toks[1..]).Found?
    ensures var r := ReadIf(toks[1..]); toks == WrittenStmt(r.tree) + r.rest && StmtStands(r.tree, prev, KindOf(r.rest))
    decreases |toks|, 2
  {
    hide ReadHead, ReadBranch, Entire, BranchStands, Written, WrittenStmt;
    PlainFirst(toks, TOK_KEYWORD_IF);
    HeadSound(toks[1..]);
    var c := ReadHead(toks[1..]);
    BranchSound(TOK_CLOSE_PAREN, c.rest);
    var t := ReadBranch(TOK_CLOSE_PAREN, c.rest);
    if KindOf(t.rest) == TOK_KEYWORD_ELSE {
      PlainFirst(t.rest, TOK_KEYWORD_ELSE);
      BranchSound(TOK_KEYWORD_ELSE, t.rest[1..]);
      var f := ReadBranch(TOK_KEYWORD_ELSE, t.rest[1..]);
      TwoBranchTokens(c.tree, t.tree, f.tree, f.rest);
    } else {
      OneBranchTokens(c.tree, t.tree, t.rest);
    }
  }

  // ----- programs -----

  /** Reading finds a program exactly where one is written. */
  lemma ProgramIff(ss: Stmts, toks: seq<Token>)
    ensures ReadStmts(NoStmts, TOK_EOF, TOK_EOF, toks) == Found(ss, [])
        <==> toks == WrittenStmts(ss) && StmtsStand(ss, TOK_EOF, TOK_EOF)
  {
    hide ReadStmts, StmtsStand, WrittenStmts;
    if ReadStmts(NoStmts, TOK_EOF, TOK_EOF, toks) == Found(ss, []) {
      NothingYet(toks, TOK_EOF);
      StmtsSound(NoStmts, toks, TOK_EOF, TOK_EOF, TOK_EOF, toks);
      NoRest(WrittenStmts(ss));
    }
    if toks == WrittenStmts(ss) && StmtsStand(ss, TOK_EOF, TOK_EOF) {
      FindsStmts(NoStmts, ss, TOK_EOF, []);
      NoRest(WrittenStmts(ss));
    }
  }

  /** No two programs are written alike. */
  lemma OneProgram(s1: Stmts, s2: Stmts)
    requires StmtsStand(s1, TOK_EOF, TOK_EOF) && StmtsStand(s2, TOK_EOF, TOK_EOF) && WrittenStmts(s1) == WrittenStmts(s2)
    ensures s1 == s2
  {
    hide ReadStmts, StmtsStand, WrittenStmts;
    ProgramIff(s1, WrittenStmts(s1));
    ProgramIff(s2, WrittenStmts(s1));
  }

  /** `toks` is the program `ss`, and the parser has room for it. */
  predicate Program(ss: Stmts, toks: seq<Token>) {
    toks == WrittenStmts(ss) && StmtsStand(ss, TOK_EOF, TOK_EOF) && PeakStmts(ss) <= DEPTH_LIMIT
  }

  /** What agrees with the reader on a whole token sequence accepts the programs and nothing else. */
  lemma AcceptsPrograms(accepted: bool, ss: Stmts, toks: seq<Token>)
    requires AgreesStmts(accepted, ss, toks, |toks|, ReadStmts(NoStmts, TOK_EOF, TOK_EOF, toks), 0)
    ensures accepted ==> Program(ss, toks)
    ensures forall tree :: Program(tree, toks) ==> accepted && ss == tree
  {
    hide ReadStmts, StmtsStand, WrittenStmts, PeakStmts;
    assert toks[|toks|..] == [];
    ProgramIff(ss, toks);
    forall tree | Program(tree, toks)
      ensures accepted && ss == tree
    {
      ProgramIff(tree, toks);
    }
  }
}
