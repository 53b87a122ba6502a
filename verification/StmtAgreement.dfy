/** What it means that the parser agrees with the reference reader on statements. */
module StmtAgreement {
  import opened Options
  import opened Bytecode
  import opened Tokens
  import opened Syntax
  import opened Grammar
  import opened StmtGrammar
  import opened Reader
  import opened Agreement
  import opened StmtReader

  /** An attempt from depth `d` on succeeds exactly when the reader finds a tree that `peak` leaves room for. */
  predicate Outcome<T(==)>(accepted: bool, tree: T, toks: seq<Token>, pos: int, found: Found<T>, peak: int, d: int) {
    if accepted then 0 <= pos <= |toks| && found == Found(tree, toks[pos..]) && d + peak <= DEPTH_LIMIT
    else found.Found? ==> d + peak > DEPTH_LIMIT
  }

  predicate AgreesInit(accepted: bool, init: Option<Expr>, toks: seq<Token>, pos: int, found: Found<Option<Expr>>, d: int) {
    Outcome(accepted, init, toks, pos, found, if found.Found? then PeakInit(found.tree) else 0, d)
  }

  predicate AgreesStmt(accepted: bool, s: Stmt, toks: seq<Token>, pos: int, found: Found<Stmt>, d: int) {
    Outcome(accepted, s, toks, pos, found, if found.Found? then PeakStmt(found.tree) else 0, d)
  }

  predicate AgreesStmts(accepted: bool, ss: Stmts, toks: seq<Token>, pos: int, found: Found<Stmts>, d: int) {
    Outcome(accepted, ss, toks, pos, found, if found.Found? then PeakStmts(found.tree) else 0, d)
  }

  // ----- statements of one word, and none -----

  lemma WordAgrees(s: Stmt, toks: seq<Token>, p: int, prev: nat, d: int)
    requires 0 <= p < |toks| && d <= DEPTH_LIMIT
    requires (s.Empty? && KindIn(toks, p) == TOK_SEMICOLON) || (s.Break? && KindIn(toks, p) == TOK_KEYWORD_BREAK)
             || (s.Continue? && KindIn(toks, p) == TOK_KEYWORD_CONTINUE)
    ensures AgreesStmt(true, s, toks, p + 1, ReadStmt(prev, toks[p..]), d)
  {
    Suffix(toks, p);
  }

  lemma NoStatement(s: Stmt, toks: seq<Token>, p: int, pos: int, prev: nat, d: int)
    requires 0 <= p <= |toks| && (KindIn(toks, p) == TOK_KEYWORD_FOR || IsUnimplemented(KindIn(toks, p)))
    ensures AgreesStmt(false, s, toks, pos, ReadStmt(prev, toks[p..]), d)
  {
    Suffix(toks, p);
  }

  // ----- expression statements -----

  /** Behind the expressions `es`: the whole statement is what reading goes on to find. */
  predicate ExprsSoFar(es: Exprs, toks: seq<Token>, start: int, pos: int, prev: nat, d: int) {
    0 <= start <= pos <= |toks| && d + PeakExprs(es) <= DEPTH_LIMIT
    && ReadStmt(prev, toks[start..]) == AsExprStmt(ReadExprs(es, toks[pos..]))
  }

  lemma ExprsStart(ok: bool, e: Expr, s: Stmt, toks: seq<Token>, p: int, q: int, prev: nat, d: int)
    requires 0 <= p <= |toks| && p <= q && !OpensStatement(KindIn(toks, p))
    requires Agrees(ok, e, toks, q, Read(ASSIGN_LEVEL, prev, toks[p..]), ASSIGN_LEVEL, d)
    ensures if ok then ExprsSoFar(One(e), toks, p, q, prev, d) else AgreesStmt(false, s, toks, q, ReadStmt(prev, toks[p..]), d)
  {
    hide Read, Peak, ReadExprs;
    Suffix(toks, p);
    var first := Read(ASSIGN_LEVEL, prev, toks[p..]);
    if first.Found? && ReadExprs(One(first.tree), first.rest).Found? {
      ExprsDeeper(One(first.tree), first.rest);
    }
  }

  lemma ExprsNext(ok: bool, es: Exprs, e: Expr, s: Stmt, toks: seq<Token>, start: int, p: int, q: int, prev: nat, d: int)
    requires ExprsSoFar(es, toks, start, p, prev, d) && p < |toks| && KindIn(toks, p) == TOK_COMMA && p <= q
    requires Agrees(ok, e, toks, q, Read(ASSIGN_LEVEL, TOK_COMMA, toks[p + 1..]), ASSIGN_LEVEL, d)
    ensures if ok then ExprsSoFar(AddExpr(es, e), toks, start, q, prev, d)
            else AgreesStmt(false, s, toks, q, ReadStmt(prev, toks[start..]), d)
  {
    hide Read, Peak, PeakExprs, ReadStmt;
    Suffix(toks, p);
    var next := Read(ASSIGN_LEVEL, TOK_COMMA, toks[p + 1..]);
    if next.Found? {
      PeakAddExpr(es, next.tree);
      if ReadExprs(AddExpr(es, next.tree), next.rest).Found? {
        ExprsDeeper(AddExpr(es, next.tree), next.rest);
      }
    }
  }

  lemma ExprsStop(es: Exprs, toks: seq<Token>, start: int, pos: int, prev: nat, d: int)
    requires ExprsSoFar(es, toks, start, pos, prev, d) && KindIn(toks, pos) != TOK_COMMA
    ensures AgreesStmt(true, ExprStmt(es), toks, pos, ReadStmt(prev, toks[start..]), d)
  {
    hide PeakExprs, ReadStmt;
    Suffix(toks, pos);
  }

  // ----- `let` -----

  lemma InitNone(toks: seq<Token>, p: int, d: int)
    requires 0 <= p <= |toks| && KindIn(toks, p) != TOK_ASSIGN && d <= DEPTH_LIMIT
    ensures AgreesInit(true, None, toks, p, ReadInit(toks[p..]), d)
  {
    Suffix(toks, p);
  }

  lemma InitAgrees(ok: bool, e: Expr, toks: seq<Token>, p: int, q: int, d: int)
    requires 0 <= p < |toks| && KindIn(toks, p) == TOK_ASSIGN
    requires Agrees(ok, e, toks, q, Read(ASSIGN_LEVEL, TOK_ASSIGN, toks[p + 1..]), ASSIGN_LEVEL, d)
    ensures AgreesInit(ok, Some(e), toks, q, ReadInit(toks[p..]), d)
  {
    hide Read, Peak;
    Suffix(toks, p);
  }

  /** The attempt at one variable of a list: the list is what reading goes on to find. */
  predicate DeclsOutcome(ok: bool, ds: Decls, toks: seq<Token>, pos: int, found: Found<Decls>, d: int) {
    if ok then 0 <= pos <= |toks| && found == MoreDecls(ds, toks[pos..]) && d + PeakDecls(ds) <= DEPTH_LIMIT
    else found.Found? ==> d + PeakDecls(found.tree) > DEPTH_LIMIT
  }

  lemma NoName(ds: Decls, toks: seq<Token>, p: int, pos: int, d: int)
    requires 0 <= p <= |toks| && KindIn(toks, p) != TOK_IDENT
    ensures DeclsOutcome(false, ds, toks, pos, ReadDecls(ds, toks[p..]), d)
  {
    Suffix(toks, p);
  }

  lemma DeclAgrees(ok: bool, init: Option<Expr>, ds: Decls, toks: seq<Token>, p: int, r: int, d: int)
    requires 0 <= p < |toks| && toks[p].Name? && d + PeakDecls(ds) <= DEPTH_LIMIT
    requires AgreesInit(ok, init, toks, r, ReadInit(toks[p + 1..]), d)
    ensures var found := ReadDecls(ds, toks[p..]); var comma := KindIn(toks, r) == TOK_COMMA;
            if ok then DeclsOutcome(true, AddDecl(ds, toks[p].text, init, comma), toks, if comma then r + 1 else r, found, d)
            else DeclsOutcome(false, ds, toks, r, found, d)
  {
    hide ReadInit, PeakDecls, PeakInit, MoreDecls;
    Suffix(toks, p);
    var inner := ReadInit(toks[p + 1..]);
    if ok {
      Suffix(toks, r);
      PeakAddDecl(ds, toks[p].text, init, KindIn(toks, r) == TOK_COMMA);
    } else if inner.Found? {
      var comma := KindOf(inner.rest) == TOK_COMMA;
      var ds2, rest := AddDecl(ds, toks[p].text, inner.tree, comma), if comma then inner.rest[1..] else inner.rest;
      PeakAddDecl(ds, toks[p].text, inner.tree, comma);
      if MoreDecls(ds2, rest).Found? {
        MoreDeclsDeeper(ds2, rest);
      }
    }
  }

  lemma LetStart(toks: seq<Token>, p: int, prev: nat)
    requires 0 <= p < |toks| && KindIn(toks, p) == TOK_KEYWORD_LET
    ensures ReadStmt(prev, toks[p..]) == AsLet(ReadDecls(NoDecls, toks[p + 1..]))
  {
    hide ReadDecls;
    Suffix(toks, p);
  }

  lemma DeclsGoOn(ds: Decls, toks: seq<Token>, p: int)
    requires 0 <= p <= |toks|
    ensures var stop := KindIn(toks, p) == TOK_SEMICOLON || KindIn(toks, p) == TOK_EOF;
            MoreDecls(ds, toks[p..]) == if stop then Found(ds, toks[p..]) else ReadDecls(ds, toks[p..])
  {
    hide ReadDecls;
    Suffix(toks, p);
  }

  lemma LetAgrees(ok: bool, ds: Decls, s: Stmt, toks: seq<Token>, p: int, pos: int, prev: nat, found: Found<Decls>, d: int)
    requires 0 <= p <= |toks| && ReadStmt(prev, toks[p..]) == AsLet(found)
    requires ok ==> 0 <= pos <= |toks| && (KindIn(toks, pos) == TOK_SEMICOLON || KindIn(toks, pos) == TOK_EOF)
    requires DeclsOutcome(ok, ds, toks, pos, found, d)
    ensures if ok then AgreesStmt(true, Let(ds), toks, pos, ReadStmt(prev, toks[p..]), d)
            else AgreesStmt(false, s, toks, pos, ReadStmt(prev, toks[p..]), d)
  {
    hide ReadStmt, PeakDecls;
    if ok {
      DeclsGoOn(ds, toks, pos);
    }
  }

  // ----- statement lists -----

  /** Behind the statements `ss`. */
  predicate StmtsSoFar(ss: Stmts, toks: seq<Token>, start: int, pos: int, et: nat, d: int) {
    0 <= start <= pos <= |toks| && d + PeakStmts(ss) <= DEPTH_LIMIT
    && ReadStmts(NoStmts, KindIn(toks, start - 1), et, toks[start..]) == ReadStmts(ss, KindIn(toks, pos - 1), et, toks[pos..])
  }

  lemma {:induction false} SemisAgree(toks: seq<Token>, p: int, q: int, n: nat)
    requires Span(toks, p, q, Semis(n)) && KindIn(toks, q) != TOK_SEMICOLON
    ensures CountSemis(toks[p..]) == n && toks[p..][n..] == toks[q..] && q == p + n
    decreases n
  {
    Suffix(toks, p);
    assert |toks[p..q]| == n;
    if n > 0 {
      assert toks[p..q] == [toks[p]] + toks[p + 1..q];
      assert toks[p] == Plain(TOK_SEMICOLON) && toks[p + 1..q] == Semis(n - 1);
      SemisAgree(toks, p + 1, q, n - 1);
    }
  }

  lemma BeforeAgrees(toks: seq<Token>, p: int, q: int)
    requires 0 <= p <= q <= |toks|
    ensures |toks[q..]| <= |toks[p..]| && Before(KindIn(toks, p - 1), toks[p..], toks[q..]) == KindIn(toks, q - 1)
  {}

  lemma StmtsNext(ok: bool, ss: Stmts, s: Stmt, n: nat, toks: seq<Token>, start: int, p: int, q: int, pos: int, et: nat, d: int)
    requires StmtsSoFar(ss, toks, start, p, et, d) && KindIn(toks, p) != TOK_EOF && KindIn(toks, p) != et
    requires AgreesStmt(ok, s, toks, q, ReadStmt(KindIn(toks, p - 1), toks[p..]), d + BlocksIn(ss))
    requires ok ==> p <= q && Span(toks, q, pos, Semis(n)) && KindIn(toks, pos) != TOK_SEMICOLON
    ensures if ok then StmtsSoFar(AddStmt(ss, s, n), toks, start, pos, et, d)
            else AgreesStmts(false, ss, toks, q, ReadStmts(NoStmts, KindIn(toks, start - 1), et, toks[start..]), d)
  {
    hide PeakStmts, PeakStmt, ReadStmt, Blocks, BlocksIn, Before, Semis, AddStmt, ReadStmts, CountSemis, Span;
    var prev := KindIn(toks, p - 1);
    Suffix(toks, p);
    StmtsStep(ss, prev, et, toks[p..]);
    var next := ReadStmt(prev, toks[p..]);
    if ok {
      SemisAgree(toks, q, pos, n);
      BeforeAgrees(toks, p, pos);
      PeakAddStmt(ss, s, n);
    } else if next.Found? {
      var k := CountSemis(next.rest);
      PeakAddStmt(ss, next.tree, k);
      var prev2 := Before(prev, toks[p..], next.rest[k..]);
      if ReadStmts(AddStmt(ss, next.tree, k), prev2, et, next.rest[k..]).Found? {
        StmtsDeeper(AddStmt(ss, next.tree, k), prev2, et, next.rest[k..]);
      }
    }
  }

  lemma StmtsStep(ss: Stmts, prev: nat, et: nat, toks: seq<Token>)
    requires KindOf(toks) != TOK_EOF && KindOf(toks) != et
    ensures var s := ReadStmt(prev, toks);
            ReadStmts(ss, prev, et, toks)
            == if s.NotFound? then NotFound
               else var rest := s.rest[CountSemis(s.rest)..];
                    ReadStmts(AddStmt(ss, s.tree, CountSemis(s.rest)), Before(prev, toks, rest), et, rest)
  {
    hide ReadStmt, AddStmt, Before, CountSemis;
  }

  lemma StmtsStop(ss: Stmts, toks: seq<Token>, start: int, pos: int, et: nat, d: int)
    requires StmtsSoFar(ss, toks, start, pos, et, d) && (KindIn(toks, pos) == TOK_EOF || KindIn(toks, pos) == et)
    ensures AgreesStmts(true, ss, toks, pos, ReadStmts(NoStmts, KindIn(toks, start - 1), et, toks[start..]), d)
  {
    hide PeakStmts;
    Suffix(toks, pos);
  }

  // ----- compound statements -----

  /** Statements between braces, behind the opening one. */
  lemma BracesAgree(ok: bool, body: Stmts, toks: seq<Token>, p: int, q: int, pos: int, d: int)
    requires 0 <= p < |toks| && KindIn(toks, p) == TOK_OPEN_CURLY
    requires AgreesStmts(ok, body, toks, q, ReadStmts(NoStmts, TOK_OPEN_CURLY, TOK_CLOSE_CURLY, toks[p + 1..]), d)
    ensures var found := ReadBraces(toks[p + 1..]);
            if ok && KindIn(toks, q) == TOK_CLOSE_CURLY then AgreesStmts(true, body, toks, q + 1, found, d)
            else AgreesStmts(false, body, toks, pos, found, d)
  {
    hide PeakStmts, ReadStmts;
    if ok {
      Suffix(toks, q);
    }
  }

  lemma BlockAgrees(ok: bool, body: Stmts, s: Stmt, toks: seq<Token>, p: int, q: int, prev: nat, d: int)
    requires 0 <= p < |toks| && KindIn(toks, p) == TOK_OPEN_CURLY
    requires AgreesStmts(ok, body, toks, q, ReadBraces(toks[p + 1..]), d + 1)
    ensures if ok then AgreesStmt(true, Block(body), toks, q, ReadStmt(prev, toks[p..]), d)
            else AgreesStmt(false, s, toks, q, ReadStmt(prev, toks[p..]), d)
  {
    hide PeakStmts, ReadBraces;
    Suffix(toks, p);
  }

  /** There is no room for a block, however little it holds. */
  lemma BlockFull(s: Stmt, toks: seq<Token>, p: int, pos: int, prev: nat, d: int)
    requires 0 <= p < |toks| && KindIn(toks, p) == TOK_OPEN_CURLY && d + 1 > DEPTH_LIMIT
    ensures AgreesStmt(false, s, toks, pos, ReadStmt(prev, toks[p..]), d)
  {
    hide PeakStmts, ReadBraces;
    Suffix(toks, p);
  }

  lemma ReturnNone(toks: seq<Token>, p: int, prev: nat, d: int)
    requires 0 <= p < |toks| && KindIn(toks, p) == TOK_KEYWORD_RETURN && EndsReturn(KindIn(toks, p + 1)) && d <= DEPTH_LIMIT
    ensures AgreesStmt(true, Stmt.Return(None), toks, p + 1, ReadStmt(prev, toks[p..]), d)
  {
    Suffix(toks, p);
    Suffix(toks, p + 1);
  }

  lemma ReturnAgrees(ok: bool, e: Expr, s: Stmt, toks: seq<Token>, p: int, q: int, prev: nat, d: int)
    requires 0 <= p < |toks| && KindIn(toks, p) == TOK_KEYWORD_RETURN && !EndsReturn(KindIn(toks, p + 1))
    requires Agrees(ok, e, toks, q, Read(ASSIGN_LEVEL, TOK_KEYWORD_RETURN, toks[p + 1..]), ASSIGN_LEVEL, d)
    ensures if ok then AgreesStmt(true, Stmt.Return(Some(e)), toks, q, ReadStmt(prev, toks[p..]), d)
            else AgreesStmt(false, s, toks, q, ReadStmt(prev, toks[p..]), d)
  {
    hide Read, Peak;
    Suffix(toks, p);
    Suffix(toks, p + 1);
  }

  /** A condition, its closing parenthesis still to come. */
  lemma HeadAgrees(ok: bool, c: Expr, toks: seq<Token>, p: int, q: int, d: int)
    requires 0 <= p < |toks| && KindIn(toks, p) == TOK_OPEN_PAREN
    requires Agrees(ok, c, toks, q, Read(ASSIGN_LEVEL, TOK_OPEN_PAREN, toks[p + 1..]), ASSIGN_LEVEL, d)
    ensures Agrees(ok && KindIn(toks, q) == TOK_CLOSE_PAREN, c, toks, q + 1, ReadHead(toks[p..]), ASSIGN_LEVEL, d)
  {
    hide Read, Peak;
    Suffix(toks, p);
    if ok {
      Suffix(toks, q);
    }
  }

  lemma NoHead(c: Expr, toks: seq<Token>, p: int, pos: int, d: int)
    requires 0 <= p <= |toks| && KindIn(toks, p) != TOK_OPEN_PAREN
    ensures Agrees(false, c, toks, pos, ReadHead(toks[p..]), ASSIGN_LEVEL, d)
  {
    Suffix(toks, p);
  }

  lemma BodyDeeper(c: Expr, toks: seq<Token>)
    requires ReadBody(c, toks).Found?
    ensures PeakStmt(ReadBody(c, toks).tree) >= Peak(c, ASSIGN_LEVEL)
  {
    hide ReadBraces, ReadStmt, Peak;
  }

  /** A loop or a branch whose condition was refused, or accepted. */
  lemma WhileHead(ok: bool, c: Expr, s: Stmt, toks: seq<Token>, p: int, q: int, prev: nat, d: int)
    requires 0 <= p < |toks| && KindIn(toks, p) == TOK_KEYWORD_WHILE
    requires Agrees(ok, c, toks, q, ReadHead(toks[p + 1..]), ASSIGN_LEVEL, d)
    ensures if ok then ReadStmt(prev, toks[p..]) == ReadBody(c, toks[q..]) && d + Peak(c, ASSIGN_LEVEL) <= DEPTH_LIMIT
            else forall pos :: AgreesStmt(false, s, toks, pos, ReadStmt(prev, toks[p..]), d)
  {
    hide ReadHead, Peak, ReadBody, PeakStmt;
    Suffix(toks, p);
    var head := ReadHead(toks[p + 1..]);
    if head.Found? && ReadBody(head.tree, head.rest).Found? {
      BodyDeeper(head.tree, head.rest);
    }
  }

  lemma BodyBraces(ok: bool, c: Expr, body: Stmts, s: Stmt, toks: seq<Token>, p: int, q: int, d: int)
    requires 0 <= p < |toks| && KindIn(toks, p) == TOK_OPEN_CURLY && d + Peak(c, ASSIGN_LEVEL) <= DEPTH_LIMIT
    requires AgreesStmts(ok, body, toks, q, ReadBraces(toks[p + 1..]), d)
    ensures AgreesStmt(ok, if ok then While(c, body) else s, toks, q, ReadBody(c, toks[p..]), d)
  {
    hide ReadBraces, Peak, PeakStmts;
    Suffix(toks, p);
  }

  lemma BodyOne(ok: bool, c: Expr, one: Stmt, s: Stmt, toks: seq<Token>, p: int, q: int, d: int)
    requires 0 <= p <= |toks| && KindIn(toks, p) != TOK_OPEN_CURLY && d + Peak(c, ASSIGN_LEVEL) <= DEPTH_LIMIT
    requires AgreesStmt(ok, one, toks, q, ReadStmt(TOK_CLOSE_PAREN, toks[p..]), d)
    ensures AgreesStmt(ok, if ok then WhileOne(c, one) else s, toks, q, ReadBody(c, toks[p..]), d)
  {
    hide ReadStmt, Peak;
    Suffix(toks, p);
  }

  function ThenElse(c: Expr, t: Found<Stmt>): Found<Stmt> {
    if t.Found? then ReadElse(c, t.tree, t.rest) else NotFound
  }

  lemma ElseDeeper(c: Expr, t: Stmt, toks: seq<Token>)
    requires ReadElse(c, t, toks).Found?
    ensures PeakStmt(ReadElse(c, t, toks).tree) >= PeakStmt(t)
    ensures PeakStmt(ReadElse(c, t, toks).tree) >= Peak(c, ASSIGN_LEVEL)
  {
    hide ReadBranch, Peak;
  }

  lemma IfHead(ok: bool, c: Expr, s: Stmt, toks: seq<Token>, p: int, q: int, prev: nat, d: int)
    requires 0 <= p < |toks| && KindIn(toks, p) == TOK_KEYWORD_IF
    requires Agrees(ok, c, toks, q, ReadHead(toks[p + 1..]), ASSIGN_LEVEL, d)
    ensures var found := ReadStmt(prev, toks[p..]);
            if ok then d + Peak(c, ASSIGN_LEVEL) <= DEPTH_LIMIT && found == ThenElse(c, ReadBranch(TOK_CLOSE_PAREN, toks[q..]))
            else forall pos :: AgreesStmt(false, s, toks, pos, found, d)
  {
    hide ReadHead, Peak, ReadBranch, ReadElse, PeakStmt;
    Suffix(toks, p);
    var head := ReadHead(toks[p + 1..]);
    if head.Found? {
      var t := ReadBranch(TOK_CLOSE_PAREN, head.rest);
      if t.Found? && ReadElse(head.tree, t.tree, t.rest).Found? {
        ElseDeeper(head.tree, t.tree, t.rest);
      }
    }
  }

  lemma ThenStep(ok: bool, c: Expr, t: Stmt, s: Stmt, toks: seq<Token>, q: int, found: Found<Stmt>, d: int)
    requires AgreesStmt(ok, t, toks, q, found, d) && d + Peak(c, ASSIGN_LEVEL) <= DEPTH_LIMIT
    ensures if !ok then AgreesStmt(false, s, toks, q, ThenElse(c, found), d)
            else if KindIn(toks, q) != TOK_KEYWORD_ELSE then AgreesStmt(true, If(c, t), toks, q, ThenElse(c, found), d)
            else ThenElse(c, found) == ReadElse(c, t, toks[q..]) && d + PeakStmt(t) <= DEPTH_LIMIT
  {
    hide ReadBranch, Peak;
    if found.Found? && ReadElse(c, found.tree, found.rest).Found? {
      ElseDeeper(c, found.tree, found.rest);
    }
    if ok {
      Suffix(toks, q);
    }
  }

  lemma ElseStep(ok: bool, c: Expr, t: Stmt, f: Stmt, s: Stmt, toks: seq<Token>, p: int, q: int, d: int)
    requires 0 <= p < |toks| && KindIn(toks, p) == TOK_KEYWORD_ELSE
    requires d + Peak(c, ASSIGN_LEVEL) <= DEPTH_LIMIT && d + PeakStmt(t) <= DEPTH_LIMIT
    requires AgreesStmt(ok, f, toks, q, ReadBranch(TOK_KEYWORD_ELSE, toks[p + 1..]), d + Blocks(t))
    ensures AgreesStmt(ok, if ok then IfElse(c, t, f) else s, toks, q, ReadElse(c, t, toks[p..]), d)
  {
    hide ReadBranch, Peak, Blocks;
    Suffix(toks, p);
  }

  /** The look-ahead in front of a branch. */
  lemma BranchAgrees(toks: seq<Token>, p: int, prev: nat)
    requires 0 <= p <= |toks|
    ensures var turned := KindIn(toks, p + 1) == TOK_OPEN_CURLY && KindIn(toks, p) != TOK_OPEN_CURLY;
            turned && p < |toks| ==> ReadBranch(prev, toks[p..]).NotFound?
    ensures !(KindIn(toks, p + 1) == TOK_OPEN_CURLY && KindIn(toks, p) != TOK_OPEN_CURLY) ==>
              ReadBranch(prev, toks[p..]) == ReadStmt(prev, toks[p..])
  {
    hide ReadStmt;
    Suffix(toks, p);
    if p < |toks| {
      Suffix(toks, p + 1);
    }
  }
}
