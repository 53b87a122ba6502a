/** How statements are read: which branch is which, and what belongs to what. */
module StatementForms {
  import opened Options
  import opened Bytecode
  import opened Tokens
  import opened Syntax
  import opened StmtGrammar
  import opened Reader
  import opened StmtReader
  import opened Agreement
  import opened Canonical
  import opened Precedence

  /** The statement that is just a name. */
  function Says(x: Text): Stmt {
    ExprStmt(One(Ident(x)))
  }

  /** A whole program is read as the one statement, and as nothing else. */
  predicate ReadAsStmt(toks: seq<Token>, s: Stmt) {
    var ss := Stmts(s, 0, NoStmts);
    ReadStmts(NoStmts, TOK_EOF, TOK_EOF, toks) == Found(ss, []) && toks == WrittenStmts(ss) && StmtsStand(ss, TOK_EOF, TOK_EOF)
  }

  /** A statement between two tokens, and how it is written. */
  predicate Part(s: Stmt, toks: seq<Token>, prev: nat, next: nat) {
    WrittenStmt(s) == toks && StmtStands(s, prev, next)
  }

  lemma NamePart(x: Text, prev: nat, next: nat)
    requires Opening(prev) && next in {TOK_EOF, TOK_SEMICOLON, TOK_KEYWORD_ELSE, TOK_CLOSE_PAREN, TOK_CLOSE_CURLY}
    ensures Entire(Ident(x), prev, next) && Written(Ident(x)) == [Name(x)]
    ensures Part(Says(x), [Name(x)], prev, next)
  {}

  lemma Entirely(s: Stmt, toks: seq<Token>, same: seq<Token>)
    requires Part(s, toks, TOK_EOF, TOK_EOF) && toks == same
    ensures ReadAsStmt(same, s)
  {
    hide WrittenStmt, StmtStands, ReadStmts;
    var ss := Stmts(s, 0, NoStmts);
    assert Semis(0) == [] && WrittenStmts(NoStmts) == [] && WrittenStmts(ss) == toks + [] + [] == toks;
    assert StmtsStand(NoStmts, LastKind(WrittenStmt(s) + Semis(0), TOK_EOF), TOK_EOF);
    assert FirstKind(Semis(0) + WrittenStmts(NoStmts), TOK_EOF) == TOK_EOF;
    assert StmtsStand(ss, TOK_EOF, TOK_EOF);
    ProgramIff(ss, same);
  }

  // ----- choice -----

  lemma IfPart(a: Text, t: Stmt, tt: seq<Token>, prev: nat, next: nat)
    requires Part(t, tt, TOK_CLOSE_PAREN, next) && next != TOK_KEYWORD_ELSE
    requires t.Block? || SecondKind(tt, next) != TOK_OPEN_CURLY
    ensures Part(If(Ident(a), t), [Plain(TOK_KEYWORD_IF), Plain(TOK_OPEN_PAREN), Name(a), Plain(TOK_CLOSE_PAREN)] + tt, prev, next)
  {
    NamePart(a, TOK_OPEN_PAREN, TOK_CLOSE_PAREN);
    assert [Plain(TOK_KEYWORD_IF), Plain(TOK_OPEN_PAREN)] + [Name(a)] + [Plain(TOK_CLOSE_PAREN)]
        == [Plain(TOK_KEYWORD_IF), Plain(TOK_OPEN_PAREN), Name(a), Plain(TOK_CLOSE_PAREN)];
  }

  lemma IfElsePart(a: Text, t: Stmt, tt: seq<Token>, f: Stmt, ft: seq<Token>, prev: nat, next: nat)
    requires Part(t, tt, TOK_CLOSE_PAREN, TOK_KEYWORD_ELSE) && Part(f, ft, TOK_KEYWORD_ELSE, next)
    requires t.Block? || SecondKind(tt, TOK_KEYWORD_ELSE) != TOK_OPEN_CURLY
    requires f.Block? || SecondKind(ft, next) != TOK_OPEN_CURLY
    ensures Part(IfElse(Ident(a), t, f),
                 [Plain(TOK_KEYWORD_IF), Plain(TOK_OPEN_PAREN), Name(a), Plain(TOK_CLOSE_PAREN)] + tt + [Plain(TOK_KEYWORD_ELSE)] + ft,
                 prev, next)
  {
    NamePart(a, TOK_OPEN_PAREN, TOK_CLOSE_PAREN);
    assert [Plain(TOK_KEYWORD_IF), Plain(TOK_OPEN_PAREN)] + [Name(a)] + [Plain(TOK_CLOSE_PAREN)]
        == [Plain(TOK_KEYWORD_IF), Plain(TOK_OPEN_PAREN), Name(a), Plain(TOK_CLOSE_PAREN)];
  }

  /** The branch in front of `else` is the one for a condition that holds, and an `else` belongs to the nearest `if`. */
  lemma IfForms(a: Text, b: Text, c: Text, d: Text)
    ensures ReadAsStmt([Plain(TOK_KEYWORD_IF), Plain(TOK_OPEN_PAREN), Name(a), Plain(TOK_CLOSE_PAREN), Name(b)],
                       If(Ident(a), Says(b)))
    ensures ReadAsStmt([Plain(TOK_KEYWORD_IF), Plain(TOK_OPEN_PAREN), Name(a), Plain(TOK_CLOSE_PAREN), Name(b),
                        Plain(TOK_KEYWORD_ELSE), Name(c)],
                       IfElse(Ident(a), Says(b), Says(c)))
    ensures ReadAsStmt([Plain(TOK_KEYWORD_IF), Plain(TOK_OPEN_PAREN), Name(a), Plain(TOK_CLOSE_PAREN),
                        Plain(TOK_KEYWORD_IF), Plain(TOK_OPEN_PAREN), Name(b), Plain(TOK_CLOSE_PAREN), Name(c),
                        Plain(TOK_KEYWORD_ELSE), Name(d)],
                       If(Ident(a), IfElse(Ident(b), Says(c), Says(d))))
  {
    hide Part, ReadAsStmt;
    var head := [Plain(TOK_KEYWORD_IF), Plain(TOK_OPEN_PAREN), Name(a), Plain(TOK_CLOSE_PAREN)];
    NamePart(b, TOK_CLOSE_PAREN, TOK_EOF);
    IfPart(a, Says(b), [Name(b)], TOK_EOF, TOK_EOF);
    Entirely(If(Ident(a), Says(b)), head + [Name(b)],
             [Plain(TOK_KEYWORD_IF), Plain(TOK_OPEN_PAREN), Name(a), Plain(TOK_CLOSE_PAREN), Name(b)]);
    NamePart(b, TOK_CLOSE_PAREN, TOK_KEYWORD_ELSE);
    NamePart(c, TOK_KEYWORD_ELSE, TOK_EOF);
    IfElsePart(a, Says(b), [Name(b)], Says(c), [Name(c)], TOK_EOF, TOK_EOF);
    Entirely(IfElse(Ident(a), Says(b), Says(c)), head + [Name(b)] + [Plain(TOK_KEYWORD_ELSE)] + [Name(c)],
             [Plain(TOK_KEYWORD_IF), Plain(TOK_OPEN_PAREN), Name(a), Plain(TOK_CLOSE_PAREN), Name(b),
              Plain(TOK_KEYWORD_ELSE), Name(c)]);
    var inner := [Plain(TOK_KEYWORD_IF), Plain(TOK_OPEN_PAREN), Name(b), Plain(TOK_CLOSE_PAREN), Name(c), Plain(TOK_KEYWORD_ELSE), Name(d)];
    NamePart(c, TOK_CLOSE_PAREN, TOK_KEYWORD_ELSE);
    NamePart(d, TOK_KEYWORD_ELSE, TOK_EOF);
    IfElsePart(b, Says(c), [Name(c)], Says(d), [Name(d)], TOK_CLOSE_PAREN, TOK_EOF);
    assert inner == [Plain(TOK_KEYWORD_IF), Plain(TOK_OPEN_PAREN), Name(b), Plain(TOK_CLOSE_PAREN)] + [Name(c)] + [Plain(TOK_KEYWORD_ELSE)] + [Name(d)];
    IfPart(a, IfElse(Ident(b), Says(c), Says(d)), inner, TOK_EOF, TOK_EOF);
    Entirely(If(Ident(a), IfElse(Ident(b), Says(c), Says(d))), head + inner,
             [Plain(TOK_KEYWORD_IF), Plain(TOK_OPEN_PAREN), Name(a), Plain(TOK_CLOSE_PAREN),
              Plain(TOK_KEYWORD_IF), Plain(TOK_OPEN_PAREN), Name(b), Plain(TOK_CLOSE_PAREN), Name(c),
              Plain(TOK_KEYWORD_ELSE), Name(d)]);
  }

  // ----- repetition, blocks and declarations -----

  /** Two statements with a semicolon between them. */
  lemma TwoStatements(b: Text, c: Text, prev: nat)
    requires Opening(prev)
    ensures WrittenStmts(Stmts(Says(b), 1, Stmts(Says(c), 0, NoStmts))) == [Name(b), Plain(TOK_SEMICOLON), Name(c)]
    ensures StmtsStand(Stmts(Says(b), 1, Stmts(Says(c), 0, NoStmts)), prev, TOK_CLOSE_CURLY)
  {
    NamePart(b, prev, TOK_SEMICOLON);
    NamePart(c, TOK_SEMICOLON, TOK_CLOSE_CURLY);
    assert Semis(0) == [] && Semis(1) == [Plain(TOK_SEMICOLON)] + Semis(0) == [Plain(TOK_SEMICOLON)];
    var rest := Stmts(Says(c), 0, NoStmts);
    assert WrittenStmts(rest) == [Name(c)] + [] + [] == [Name(c)];
    assert WrittenStmts(Stmts(Says(b), 1, rest)) == [Name(b)] + [Plain(TOK_SEMICOLON)] + [Name(c)];
    assert StmtsStand(NoStmts, LastKind(WrittenStmt(Says(c)) + Semis(0), TOK_SEMICOLON), TOK_CLOSE_CURLY);
    assert StmtsStand(rest, TOK_SEMICOLON, TOK_CLOSE_CURLY);
    assert LastKind([Name(b)] + Semis(1), prev) == TOK_SEMICOLON;
  }

  /** The condition of a loop stands in front of its body; braces hold statements in order. */
  lemma LoopForms(a: Text, b: Text, c: Text)
    ensures ReadAsStmt([Plain(TOK_KEYWORD_WHILE), Plain(TOK_OPEN_PAREN), Name(a), Plain(TOK_CLOSE_PAREN), Name(b)],
                       WhileOne(Ident(a), Says(b)))
    ensures ReadAsStmt([Plain(TOK_KEYWORD_WHILE), Plain(TOK_OPEN_PAREN), Name(a), Plain(TOK_CLOSE_PAREN),
                        Plain(TOK_OPEN_CURLY), Name(b), Plain(TOK_SEMICOLON), Name(c), Plain(TOK_CLOSE_CURLY)],
                       While(Ident(a), Stmts(Says(b), 1, Stmts(Says(c), 0, NoStmts))))
    ensures ReadAsStmt([Plain(TOK_OPEN_CURLY), Name(b), Plain(TOK_SEMICOLON), Name(c), Plain(TOK_CLOSE_CURLY)],
                       Block(Stmts(Says(b), 1, Stmts(Says(c), 0, NoStmts))))
  {
    hide ReadAsStmt, WrittenStmts, StmtsStand, Entire;
    NamePart(a, TOK_OPEN_PAREN, TOK_CLOSE_PAREN);
    NamePart(b, TOK_CLOSE_PAREN, TOK_EOF);
    Entirely(WhileOne(Ident(a), Says(b)),
             [Plain(TOK_KEYWORD_WHILE), Plain(TOK_OPEN_PAREN)] + [Name(a)] + [Plain(TOK_CLOSE_PAREN)] + [Name(b)],
             [Plain(TOK_KEYWORD_WHILE), Plain(TOK_OPEN_PAREN), Name(a), Plain(TOK_CLOSE_PAREN), Name(b)]);
    TwoStatements(b, c, TOK_OPEN_CURLY);
    var ss := Stmts(Says(b), 1, Stmts(Says(c), 0, NoStmts));
    var body := [Name(b), Plain(TOK_SEMICOLON), Name(c)];
    Entirely(While(Ident(a), ss),
             [Plain(TOK_KEYWORD_WHILE), Plain(TOK_OPEN_PAREN)] + [Name(a)] + [Plain(TOK_CLOSE_PAREN), Plain(TOK_OPEN_CURLY)]
             + body + [Plain(TOK_CLOSE_CURLY)],
             [Plain(TOK_KEYWORD_WHILE), Plain(TOK_OPEN_PAREN), Name(a), Plain(TOK_CLOSE_PAREN),
              Plain(TOK_OPEN_CURLY), Name(b), Plain(TOK_SEMICOLON), Name(c), Plain(TOK_CLOSE_CURLY)]);
    Entirely(Block(ss), [Plain(TOK_OPEN_CURLY)] + body + [Plain(TOK_CLOSE_CURLY)],
             [Plain(TOK_OPEN_CURLY), Name(b), Plain(TOK_SEMICOLON), Name(c), Plain(TOK_CLOSE_CURLY)]);
  }

  /** Each initialiser belongs to the name in front of it, and `return` takes the expression behind it. */
  lemma LetForms(x: Text, y: Text, a: Text)
    ensures ReadAsStmt([Plain(TOK_KEYWORD_LET), Name(x), Plain(TOK_ASSIGN), Name(a), Plain(TOK_COMMA), Name(y)],
                       Let(Decl(x, Some(Ident(a)), true, Decl(y, None, false, NoDecls))))
    ensures ReadAsStmt([Plain(TOK_KEYWORD_RETURN), Name(a)], Stmt.Return(Some(Ident(a))))
    ensures ReadAsStmt([Plain(TOK_KEYWORD_RETURN)], Stmt.Return(None))
  {
    hide ReadAsStmt;
    assert Entire(Ident(a), TOK_ASSIGN, TOK_COMMA) && Entire(Ident(a), TOK_KEYWORD_RETURN, TOK_EOF);
    var last := Decl(y, None, false, NoDecls);
    assert WrittenDecls(last) == [Name(y)] + [] + [] + [] == [Name(y)] && DeclsStand(last, TOK_EOF);
    Entirely(Let(Decl(x, Some(Ident(a)), true, last)),
             [Plain(TOK_KEYWORD_LET)] + ([Name(x)] + ([Plain(TOK_ASSIGN)] + [Name(a)]) + [Plain(TOK_COMMA)] + [Name(y)]),
             [Plain(TOK_KEYWORD_LET), Name(x), Plain(TOK_ASSIGN), Name(a), Plain(TOK_COMMA), Name(y)]);
    Entirely(Stmt.Return(Some(Ident(a))), [Plain(TOK_KEYWORD_RETURN)] + [Name(a)], [Plain(TOK_KEYWORD_RETURN), Name(a)]);
    Entirely(Stmt.Return(None), [Plain(TOK_KEYWORD_RETURN)], [Plain(TOK_KEYWORD_RETURN)]);
  }
}
