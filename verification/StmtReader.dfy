/** The reference reader for statements, and how deep the parser gets in them. */
module StmtReader {
  import opened Options
  import opened Bytecode
  import opened Tokens
  import opened Syntax
  import opened StmtGrammar
  import opened Reader
  import opened Agreement

  /** The keywords `parse_statement` turns down. */
  predicate IsUnimplemented(tok: nat) {
    tok in {204, 205, 209, 210, 218, 219, 222, 224, 226, 228, 229, 231}
  }

  /** Tokens that do not start an expression statement. */
  predicate OpensStatement(tok: nat) {
    tok == TOK_SEMICOLON || tok == TOK_KEYWORD_BREAK || tok == TOK_KEYWORD_CONTINUE || tok == TOK_KEYWORD_LET
    || tok == TOK_OPEN_CURLY || tok == TOK_KEYWORD_RETURN || tok == TOK_KEYWORD_FOR || tok == TOK_KEYWORD_WHILE
    || tok == TOK_KEYWORD_IF || IsUnimplemented(tok)
  }

  /** The kind of the token in front of `rest`, a suffix of `toks`. */
  function Before(prev: nat, toks: seq<Token>, rest: seq<Token>): nat
    requires |rest| <= |toks|
  {
    if |rest| == |toks| then prev else Kind(toks[|toks| - |rest| - 1])
  }

  function CountSemis(toks: seq<Token>): (n: nat)
    ensures n <= |toks|
  {
    if KindOf(toks) == TOK_SEMICOLON then 1 + CountSemis(toks[1..]) else 0
  }

  function ReadStmt(prev: nat, toks: seq<Token>): (r: Found<Stmt>)
    ensures r.Found? ==> |r.rest| < |toks|
    decreases |toks|, 3
  {
    var k := KindOf(toks);
    if k == TOK_SEMICOLON then Found(Empty, toks[1..])
    else if k == TOK_KEYWORD_BREAK then Found(Stmt.Break, toks[1..])
    else if k == TOK_KEYWORD_CONTINUE then Found(Stmt.Continue, toks[1..])
    else if k == TOK_KEYWORD_LET then AsLet(ReadDecls(NoDecls, toks[1..]))
    else if k == TOK_OPEN_CURLY then AsBlock(ReadBraces(toks[1..]))
    else if k == TOK_KEYWORD_RETURN then ReadReturn(toks[1..])
    else if k == TOK_KEYWORD_WHILE then ReadWhile(toks[1..])
    else if k == TOK_KEYWORD_IF then ReadIf(toks[1..])
    else if k == TOK_KEYWORD_FOR || IsUnimplemented(k) then NotFound
    else
      match Read(ASSIGN_LEVEL, prev, toks)
      case NotFound => NotFound
      case Found(e, rest) => AsExprStmt(ReadExprs(One(e), rest))
  }

  function AsLet(f: Found<Decls>): Found<Stmt> {
    if f.Found? then Found(Let(f.tree), f.rest) else NotFound
  }

  function AsBlock(f: Found<Stmts>): Found<Stmt> {
    if f.Found? then Found(Block(f.tree), f.rest) else NotFound
  }

  function AsExprStmt(f: Found<Exprs>): Found<Stmt> {
    if f.Found? then Found(ExprStmt(f.tree), f.rest) else NotFound
  }

  /** More expressions, as long as there are commas. */
  function ReadExprs(es: Exprs, toks: seq<Token>): (r: Found<Exprs>)
    ensures r.Found? ==> |r.rest| <= |toks|
    decreases |toks|
  {
    if KindOf(toks) != TOK_COMMA then Found(es, toks)
    else
      match Read(ASSIGN_LEVEL, TOK_COMMA, toks[1..])
      case NotFound => NotFound
      case Found(e, rest) => ReadExprs(AddExpr(es, e), rest)
  }

  /** One more variable, and the rest of the list. */
  function ReadDecls(ds: Decls, toks: seq<Token>): (r: Found<Decls>)
    ensures r.Found? ==> |r.rest| < |toks|
    decreases |toks|, 0
  {
    if toks == [] || !toks[0].Name? then NotFound
    else
      match ReadInit(toks[1..])
      case NotFound => NotFound
      case Found(init, rest) =>
        var comma := KindOf(rest) == TOK_COMMA;
        MoreDecls(AddDecl(ds, toks[0].text, init, comma), if comma then rest[1..] else rest)
  }

  /** Only a semicolon or the end of the program ends the list; a comma between variables may be missing. */
  function MoreDecls(ds: Decls, toks: seq<Token>): (r: Found<Decls>)
    ensures r.Found? ==> |r.rest| <= |toks|
    decreases |toks|, 1
  {
    if KindOf(toks) == TOK_SEMICOLON || KindOf(toks) == TOK_EOF then Found(ds, toks) else ReadDecls(ds, toks)
  }

  function ReadInit(toks: seq<Token>): (r: Found<Option<Expr>>)
    ensures r.Found? ==> |r.rest| <= |toks|
  {
    if KindOf(toks) != TOK_ASSIGN then Found(None, toks)
    else
      match Read(ASSIGN_LEVEL, TOK_ASSIGN, toks[1..])
      case NotFound => NotFound
      case Found(e, rest) => Found(Some(e), rest)
  }

  /** Statements up to a closing brace, behind the opening one. */
  function ReadBraces(toks: seq<Token>): (r: Found<Stmts>)
    ensures r.Found? ==> |r.rest| < |toks|
    decreases |toks|, 5
  {
    match ReadStmts(NoStmts, TOK_OPEN_CURLY, TOK_CLOSE_CURLY, toks)
    case NotFound => NotFound
    case Found(body, rest) => if KindOf(rest) == TOK_CLOSE_CURLY then Found(body, rest[1..]) else NotFound
  }

  /** More statements, as long as neither `et` nor the end has been reached. */
  function ReadStmts(ss: Stmts, prev: nat, et: nat, toks: seq<Token>): (r: Found<Stmts>)
    ensures r.Found? ==> |r.rest| <= |toks|
    decreases |toks|, 4
  {
    if KindOf(toks) == TOK_EOF || KindOf(toks) == et then Found(ss, toks)
    else
      match ReadStmt(prev, toks)
      case NotFound => NotFound
      case Found(s, rest) =>
        var n := CountSemis(rest);
        ReadStmts(AddStmt(ss, s, n), Before(prev, toks, rest[n..]), et, rest[n..])
  }

  function ReadReturn(toks: seq<Token>): (r: Found<Stmt>)
    ensures r.Found? ==> |r.rest| <= |toks|
  {
    if EndsReturn(KindOf(toks)) then Found(Stmt.Return(None), toks)
    else
      match Read(ASSIGN_LEVEL, TOK_KEYWORD_RETURN, toks)
      case NotFound => NotFound
      case Found(e, rest) => Found(Stmt.Return(Some(e)), rest)
  }

  /** Nothing is returned in front of such a token. */
  predicate EndsReturn(tok: nat) {
    tok == TOK_SEMICOLON || tok == TOK_CLOSE_CURLY || tok == TOK_EOF
  }

  /** A condition in parentheses. */
  function ReadHead(toks: seq<Token>): (r: Found<Expr>)
    ensures r.Found? ==> |r.rest| < |toks|
  {
    if KindOf(toks) != TOK_OPEN_PAREN then NotFound
    else
      match Read(ASSIGN_LEVEL, TOK_OPEN_PAREN, toks[1..])
      case NotFound => NotFound
      case Found(c, rest) => if KindOf(rest) == TOK_CLOSE_PAREN then Found(c, rest[1..]) else NotFound
  }

  function ReadWhile(toks: seq<Token>): (r: Found<Stmt>)
    ensures r.Found? ==> |r.rest| < |toks|
    decreases |toks|, 0
  {
    match ReadHead(toks)
    case NotFound => NotFound
    case Found(c, rest) => ReadBody(c, rest)
  }

  /** The body of a loop, in braces or not. */
  function ReadBody(c: Expr, toks: seq<Token>): (r: Found<Stmt>)
    ensures r.Found? ==> |r.rest| < |toks|
    decreases |toks|, 6
  {
    if KindOf(toks) == TOK_OPEN_CURLY then
      match ReadBraces(toks[1..])
      case NotFound => NotFound
      case Found(body, rest) => Found(While(c, body), rest)
    else
      match ReadStmt(TOK_CLOSE_PAREN, toks)
      case NotFound => NotFound
      case Found(s, rest) => Found(WhileOne(c, s), rest)
  }

  function ReadIf(toks: seq<Token>): (r: Found<Stmt>)
    ensures r.Found? ==> |r.rest| < |toks|
    decreases |toks|, 0
  {
    match ReadHead(toks)
    case NotFound => NotFound
    case Found(c, rest) =>
      match ReadBranch(TOK_CLOSE_PAREN, rest)
      case NotFound => NotFound
      case Found(t, rest2) => ReadElse(c, t, rest2)
  }

  /** An `else` belongs to the nearest `if`. */
  function ReadElse(c: Expr, t: Stmt, toks: seq<Token>): (r: Found<Stmt>)
    ensures r.Found? ==> |r.rest| <= |toks|
    decreases |toks|, 0
  {
    if KindOf(toks) != TOK_KEYWORD_ELSE then Found(If(c, t), toks)
    else
      match ReadBranch(TOK_KEYWORD_ELSE, toks[1..])
      case NotFound => NotFound
      case Found(f, rest) => Found(IfElse(c, t, f), rest)
  }

  /** The look-ahead of `parse_block_or_stmt` turns down what it would otherwise take for a block. */
  function ReadBranch(prev: nat, toks: seq<Token>): (r: Found<Stmt>)
    ensures r.Found? ==> |r.rest| < |toks|
    decreases |toks|, 4
  {
    if toks != [] && KindOf(toks[1..]) == TOK_OPEN_CURLY && KindOf(toks) != TOK_OPEN_CURLY then NotFound
    else ReadStmt(prev, toks)
  }

  // ----- depth -----

  function PeakExprs(es: Exprs): nat {
    match es
    case One(e) => Peak(e, ASSIGN_LEVEL)
    case More(e, rest) => Max(Peak(e, ASSIGN_LEVEL), PeakExprs(rest))
  }

  function PeakInit(init: Option<Expr>): nat {
    if init.Some? then Peak(init.value, ASSIGN_LEVEL) else 0
  }

  function PeakDecls(ds: Decls): nat {
    match ds
    case NoDecls => 0
    case Decl(_, init, _, rest) => Max(PeakInit(init), PeakDecls(rest))
  }

  /** How far compiling `s` raises `depth`. What a block takes is never given back, so it weighs on everything
      that follows. */
  function PeakStmt(s: Stmt): nat {
    match s
    case ExprStmt(es) => PeakExprs(es)
    case Let(ds) => PeakDecls(ds)
    case Block(body) => 1 + PeakStmts(body)
    case If(c, t) => Max(Peak(c, ASSIGN_LEVEL), PeakStmt(t))
    case IfElse(c, t, f) => Max(Peak(c, ASSIGN_LEVEL), Max(PeakStmt(t), Blocks(t) + PeakStmt(f)))
    case While(c, body) => Max(Peak(c, ASSIGN_LEVEL), PeakStmts(body))
    case WhileOne(c, s) => Max(Peak(c, ASSIGN_LEVEL), PeakStmt(s))
    case Return(e) => PeakInit(e)
    case _ => 0
  }

  function PeakStmts(ss: Stmts): nat {
    match ss
    case NoStmts => 0
    case Stmts(s, _, rest) => Max(PeakStmt(s), Blocks(s) + PeakStmts(rest))
  }

  lemma {:induction false} BlocksBelowPeak(s: Stmt)
    ensures Blocks(s) <= PeakStmt(s)
  {
    match s
    case Block(body) => BlocksInBelowPeak(body);
    case If(_, t) => BlocksBelowPeak(t);
    case IfElse(_, t, f) =>
      BlocksBelowPeak(t);
      BlocksBelowPeak(f);
    case While(_, body) => BlocksInBelowPeak(body);
    case WhileOne(_, s) => BlocksBelowPeak(s);
    case _ =>
  }

  lemma {:induction false} BlocksInBelowPeak(ss: Stmts)
    ensures BlocksIn(ss) <= PeakStmts(ss)
  {
    if ss.Stmts? {
      BlocksBelowPeak(ss.s);
      BlocksInBelowPeak(ss.rest);
    }
  }

  lemma {:induction false} PeakAddExpr(es: Exprs, e: Expr)
    ensures PeakExprs(AddExpr(es, e)) == Max(PeakExprs(es), Peak(e, ASSIGN_LEVEL))
  {
    hide Peak;
    if es.More? {
      PeakAddExpr(es.rest, e);
    }
  }

  lemma {:induction false} PeakAddDecl(ds: Decls, x: Text, init: Option<Expr>, comma: bool)
    ensures PeakDecls(AddDecl(ds, x, init, comma)) == Max(PeakDecls(ds), PeakInit(init))
  {
    hide PeakInit;
    if ds.Decl? {
      PeakAddDecl(ds.rest, x, init, comma);
    }
  }

  lemma {:induction false} PeakAddStmt(ss: Stmts, s: Stmt, semis: nat)
    ensures PeakStmts(AddStmt(ss, s, semis)) == Max(PeakStmts(ss), BlocksIn(ss) + PeakStmt(s))
  {
    hide PeakStmt, Blocks;
    BlocksBelowPeak(s);
    if ss.Stmts? {
      PeakAddStmt(ss.rest, s, semis);
    }
  }

  // ----- lists only get deeper -----

  lemma {:induction false} ExprsDeeper(es: Exprs, toks: seq<Token>)
    requires ReadExprs(es, toks).Found?
    ensures PeakExprs(ReadExprs(es, toks).tree) >= PeakExprs(es)
    decreases |toks|
  {
    hide Read, PeakExprs;
    if KindOf(toks) == TOK_COMMA {
      var e := Read(ASSIGN_LEVEL, TOK_COMMA, toks[1..]);
      PeakAddExpr(es, e.tree);
      ExprsDeeper(AddExpr(es, e.tree), e.rest);
    }
  }

  lemma {:induction false} DeclsDeeper(ds: Decls, toks: seq<Token>)
    requires ReadDecls(ds, toks).Found?
    ensures PeakDecls(ReadDecls(ds, toks).tree) >= PeakDecls(ds)
    decreases |toks|, 0
  {
    hide ReadInit, PeakDecls, MoreDecls;
    var init := ReadInit(toks[1..]);
    var comma := KindOf(init.rest) == TOK_COMMA;
    PeakAddDecl(ds, toks[0].text, init.tree, comma);
    MoreDeclsDeeper(AddDecl(ds, toks[0].text, init.tree, comma), if comma then init.rest[1..] else init.rest);
  }

  lemma MoreDeclsDeeper(ds: Decls, toks: seq<Token>)
    requires MoreDecls(ds, toks).Found?
    ensures PeakDecls(MoreDecls(ds, toks).tree) >= PeakDecls(ds)
    decreases |toks|, 1
  {
    hide PeakDecls, ReadDecls;
    if KindOf(toks) != TOK_SEMICOLON && KindOf(toks) != TOK_EOF {
      DeclsDeeper(ds, toks);
    }
  }

  lemma {:induction false} StmtsDeeper(ss: Stmts, prev: nat, et: nat, toks: seq<Token>)
    requires ReadStmts(ss, prev, et, toks).Found?
    ensures PeakStmts(ReadStmts(ss, prev, et, toks).tree) >= PeakStmts(ss)
    decreases |toks|
  {
    hide ReadStmt, PeakStmts, Before;
    if KindOf(toks) != TOK_EOF && KindOf(toks) != et {
      var s := ReadStmt(prev, toks);
      var n := CountSemis(s.rest);
      PeakAddStmt(ss, s.tree, n);
      StmtsDeeper(AddStmt(ss, s.tree, n), Before(prev, toks, s.rest[n..]), et, s.rest[n..]);
    }
  }
}
