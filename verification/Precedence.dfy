/** How expressions group: for every pair of operators, what the parser's reading of a few tokens is. */
module Precedence {
  import opened Bytecode
  import opened Tokens
  import opened Syntax
  import opened Agreement
  import opened Reader
  import opened Canonical

  /** The infix operators, row by row, loosest first: the functions from `parse_logical_or` to `parse_mul_div_rem`. */
  const LADDER: seq<seq<nat>> := [
    [TOK_LOGICAL_OR],
    [TOK_LOGICAL_AND],
    [TOK_OR],
    [TOK_XOR],
    [TOK_AND],
    [TOK_EQ, TOK_NE, TOK_EQ_EQ, TOK_NE_NE],
    [TOK_LT, TOK_GT, TOK_LE, TOK_GE],
    [TOK_LSHIFT, TOK_RSHIFT, TOK_URSHIFT],
    [TOK_PLUS, TOK_MINUS],
    [TOK_MUL, TOK_DIV, TOK_REM]
  ]

  const PREFIXES: seq<nat> := [TOK_NOT, TOK_TILDA, TOK_KEYWORD_TYPEOF, TOK_MINUS, TOK_PLUS]

  const CREMENTS: seq<nat> := [TOK_PLUS_PLUS, TOK_MINUS_MINUS]

  const ASSIGNMENTS: seq<nat> := [
    TOK_ASSIGN, TOK_PLUS_ASSIGN, TOK_MINUS_ASSIGN, TOK_MUL_ASSIGN, TOK_DIV_ASSIGN, TOK_REM_ASSIGN, TOK_LSHIFT_ASSIGN,
    TOK_RSHIFT_ASSIGN, TOK_URSHIFT_ASSIGN, TOK_AND_ASSIGN, TOK_XOR_ASSIGN, TOK_OR_ASSIGN
  ]

  /** The tree of an infix operator. */
  function Infix(op: nat, l: Expr, r: Expr): Expr {
    if op == TOK_LOGICAL_OR || op == TOK_LOGICAL_AND then Logical(op, l, r) else Binary(op, l, r)
  }

  /** A whole expression is read as `e`, and as nothing else. */
  predicate ReadAs(toks: seq<Token>, e: Expr) {
    Read(ASSIGN_LEVEL, TOK_EOF, toks) == Found(e, []) && Entire(e, TOK_EOF, TOK_EOF) && Written(e) == toks
  }

  // ----- pieces of an expression -----

  /** `e` is written `toks`, and may stand at `level` between two such tokens. */
  predicate Piece(e: Expr, toks: seq<Token>, level: nat, prev: nat, next: nat) {
    Written(e) == toks && Fits(e, level) && Placed(e, prev, next) && MayEnd(e, next)
  }

  /** A token in front of which a name is read, and in front of which any operand may end. */
  predicate Closing(next: nat) {
    !IsAssignOp(next) && !IsCrement(next) && !IsMember(next)
  }

  /** A token behind which a name is read. */
  predicate Opening(prev: nat) {
    !IsCrement(prev)
  }

  lemma RowLevel(i: nat, op: nat)
    requires i < |LADDER| && op in LADDER[i]
    ensures LevelOf(op) == i + 2 && Closing(op) && Opening(op) && (if i < 2 then IsLogical(op) else IsBinary(op))
    ensures (op == TOK_LOGICAL_OR || op == TOK_LOGICAL_AND) == (i < 2)
  {}

  lemma NamePiece(x: Text, level: nat, prev: nat, next: nat)
    requires Opening(prev) && Closing(next)
    ensures Piece(Ident(x), [Name(x)], level, prev, next)
  {}

  lemma InfixPiece(i: nat, op: nat, l: Expr, lt: seq<Token>, r: Expr, rt: seq<Token>, level: nat, prev: nat, next: nat)
    requires i < |LADDER| && op in LADDER[i] && level <= i + 2
    requires Piece(l, lt, if i < 2 then i + 3 else i + 2, prev, op) && Piece(r, rt, if i < 2 then i + 2 else i + 3, op, next)
    ensures Piece(Infix(op, l, r), lt + [Plain(op)] + rt, level, prev, next)
  {
    hide LevelOf, IsAssignOp, IsCrement, IsBinary, IsLogical, IsMember;
    RowLevel(i, op);
  }

  lemma PrefixPiece(op: nat, e: Expr, toks: seq<Token>, level: nat, prev: nat, next: nat)
    requires (op in PREFIXES || op in CREMENTS) && level <= UNARY_LEVEL && Piece(e, toks, UNARY_LEVEL, op, next)
    ensures Piece(Unary(op, e), [Plain(op)] + toks, level, prev, next)
  {}

  /** A name that is updated. */
  lemma TargetPiece(x: Text, level: nat, prev: nat, next: nat)
    requires (prev in CREMENTS && Closing(next)) || next in CREMENTS || next in ASSIGNMENTS
    ensures Written(Ref(x)) == [Name(x)] && Fits(Ref(x), level) && Placed(Ref(x), prev, next)
    ensures prev in CREMENTS && Closing(next) ==> Piece(Ref(x), [Name(x)], level, prev, next)
  {}

  lemma PostfixPiece(op: nat, x: Text, level: nat, prev: nat, next: nat)
    requires op in CREMENTS && level <= UNARY_LEVEL
    ensures Piece(Postfix(op, Ref(x)), [Name(x), Plain(op)], level, prev, next)
  {}

  lemma CondPiece(c: Expr, ct: seq<Token>, t: Expr, tt: seq<Token>, f: Expr, ft: seq<Token>, level: nat, prev: nat, next: nat)
    requires level <= TERNARY_LEVEL && Piece(c, ct, OR_LEVEL, prev, TOK_QUESTION)
    requires Piece(t, tt, TERNARY_LEVEL, TOK_QUESTION, TOK_COLON) && Piece(f, ft, TERNARY_LEVEL, TOK_COLON, next)
    ensures Piece(Cond(c, t, f), ct + [Plain(TOK_QUESTION)] + tt + [Plain(TOK_COLON)] + ft, level, prev, next)
  {}

  lemma AssignPiece(op: nat, x: Text, e: Expr, toks: seq<Token>, prev: nat, next: nat)
    requires op in ASSIGNMENTS && Piece(e, toks, ASSIGN_LEVEL, op, next)
    ensures Piece(Assign(op, Ref(x), e), [Name(x), Plain(op)] + toks, ASSIGN_LEVEL, prev, next)
  {
    assert [Name(x)] + [Plain(op)] + toks == [Name(x), Plain(op)] + toks;
  }

  lemma ParenPiece(e: Expr, toks: seq<Token>, level: nat, prev: nat, next: nat)
    requires Piece(e, toks, ASSIGN_LEVEL, TOK_OPEN_PAREN, TOK_CLOSE_PAREN) && Closing(next)
    ensures Piece(Paren(e), [Plain(TOK_OPEN_PAREN)] + toks + [Plain(TOK_CLOSE_PAREN)], level, prev, next)
  {}

  /** A piece that reaches from the start to the end is read as its tree. */
  lemma Alone(e: Expr, toks: seq<Token>, same: seq<Token>)
    requires Piece(e, toks, ASSIGN_LEVEL, TOK_EOF, TOK_EOF) && toks == same
    ensures ReadAs(same, e)
  {
    hide Read, Written, Fits, Placed, MayEnd;
    assert toks + [] == toks;
    FindsEntire(e, TOK_EOF, []);
  }

  lemma Borders()
    ensures Opening(TOK_EOF) && Closing(TOK_EOF) && Opening(TOK_OPEN_PAREN) && Closing(TOK_CLOSE_PAREN)
    ensures Opening(TOK_QUESTION) && Closing(TOK_QUESTION) && Opening(TOK_COLON) && Closing(TOK_COLON)
    ensures forall op :: op in PREFIXES || op in ASSIGNMENTS ==> Opening(op)
  {}

  // ----- infix operators -----

  function LeftLevel(i: nat): nat {
    if i < 2 then i + 3 else i + 2
  }

  function RightLevel(i: nat): nat {
    if i < 2 then i + 2 else i + 3
  }

  /** `a p b` in its place. */
  lemma Two(i: nat, p: nat, a: Text, b: Text, level: nat, prev: nat, next: nat)
    requires i < |LADDER| && p in LADDER[i] && level <= i + 2 && Opening(prev) && Closing(next)
    ensures Piece(Infix(p, Ident(a), Ident(b)), [Name(a), Plain(p), Name(b)], level, prev, next)
  {
    hide Piece, Infix, Closing, Opening, LADDER;
    RowLevel(i, p);
    NamePiece(a, LeftLevel(i), prev, p);
    NamePiece(b, RightLevel(i), p, next);
    InfixPiece(i, p, Ident(a), [Name(a)], Ident(b), [Name(b)], level, prev, next);
    assert [Name(a)] + [Plain(p)] + [Name(b)] == [Name(a), Plain(p), Name(b)];
  }

  /** `a p b q c` is `(a p b) q c` when `p` binds tighter, or both are of one row of arithmetic. */
  lemma LeftNested(i: nat, j: nat, p: nat, q: nat, a: Text, b: Text, c: Text)
    requires i < |LADDER| && j < |LADDER| && p in LADDER[i] && q in LADDER[j] && (j < i || (i == j && 2 <= i))
    ensures ReadAs([Name(a), Plain(p), Name(b), Plain(q), Name(c)], Infix(q, Infix(p, Ident(a), Ident(b)), Ident(c)))
  {
    hide Piece, Infix, Closing, Opening, ReadAs, LADDER;
    Borders();
    RowLevel(j, q);
    Two(i, p, a, b, LeftLevel(j), TOK_EOF, q);
    NamePiece(c, RightLevel(j), q, TOK_EOF);
    var l, lt := Infix(p, Ident(a), Ident(b)), [Name(a), Plain(p), Name(b)];
    InfixPiece(j, q, l, lt, Ident(c), [Name(c)], ASSIGN_LEVEL, TOK_EOF, TOK_EOF);
    Alone(Infix(q, l, Ident(c)), lt + [Plain(q)] + [Name(c)], [Name(a), Plain(p), Name(b), Plain(q), Name(c)]);
  }

  /** `a p b q c` is `a p (b q c)` when `q` binds tighter, or both are the same logical operator. */
  lemma RightNested(i: nat, j: nat, p: nat, q: nat, a: Text, b: Text, c: Text)
    requires i < |LADDER| && j < |LADDER| && p in LADDER[i] && q in LADDER[j] && (i < j || (i == j && i < 2))
    ensures ReadAs([Name(a), Plain(p), Name(b), Plain(q), Name(c)], Infix(p, Ident(a), Infix(q, Ident(b), Ident(c))))
  {
    hide Piece, Infix, Closing, Opening, ReadAs, LADDER;
    Borders();
    RowLevel(i, p);
    NamePiece(a, LeftLevel(i), TOK_EOF, p);
    Two(j, q, b, c, RightLevel(i), p, TOK_EOF);
    var r, rt := Infix(q, Ident(b), Ident(c)), [Name(b), Plain(q), Name(c)];
    InfixPiece(i, p, Ident(a), [Name(a)], r, rt, ASSIGN_LEVEL, TOK_EOF, TOK_EOF);
    Alone(Infix(p, Ident(a), r), [Name(a)] + [Plain(p)] + rt, [Name(a), Plain(p), Name(b), Plain(q), Name(c)]);
  }

  /** Parentheses override both. */
  lemma Parenthesized(i: nat, j: nat, p: nat, q: nat, a: Text, b: Text, c: Text)
    requires i < |LADDER| && j < |LADDER| && p in LADDER[i] && q in LADDER[j]
    ensures ReadAs([Plain(TOK_OPEN_PAREN), Name(a), Plain(p), Name(b), Plain(TOK_CLOSE_PAREN), Plain(q), Name(c)],
                   Infix(q, Paren(Infix(p, Ident(a), Ident(b))), Ident(c)))
    ensures ReadAs([Name(c), Plain(q), Plain(TOK_OPEN_PAREN), Name(a), Plain(p), Name(b), Plain(TOK_CLOSE_PAREN)],
                   Infix(q, Ident(c), Paren(Infix(p, Ident(a), Ident(b)))))
  {
    hide Piece, Infix, Closing, Opening, ReadAs, LADDER;
    Borders();
    RowLevel(j, q);
    Two(i, p, a, b, ASSIGN_LEVEL, TOK_OPEN_PAREN, TOK_CLOSE_PAREN);
    var e, et := Infix(p, Ident(a), Ident(b)), [Name(a), Plain(p), Name(b)];
    var pt := [Plain(TOK_OPEN_PAREN)] + et + [Plain(TOK_CLOSE_PAREN)];
    ParenPiece(e, et, LeftLevel(j), TOK_EOF, q);
    NamePiece(c, RightLevel(j), q, TOK_EOF);
    InfixPiece(j, q, Paren(e), pt, Ident(c), [Name(c)], ASSIGN_LEVEL, TOK_EOF, TOK_EOF);
    Alone(Infix(q, Paren(e), Ident(c)), pt + [Plain(q)] + [Name(c)],
          [Plain(TOK_OPEN_PAREN), Name(a), Plain(p), Name(b), Plain(TOK_CLOSE_PAREN), Plain(q), Name(c)]);
    ParenPiece(e, et, RightLevel(j), q, TOK_EOF);
    NamePiece(c, LeftLevel(j), TOK_EOF, q);
    InfixPiece(j, q, Ident(c), [Name(c)], Paren(e), pt, ASSIGN_LEVEL, TOK_EOF, TOK_EOF);
    Alone(Infix(q, Ident(c), Paren(e)), [Name(c)] + [Plain(q)] + pt,
          [Name(c), Plain(q), Plain(TOK_OPEN_PAREN), Name(a), Plain(p), Name(b), Plain(TOK_CLOSE_PAREN)]);
  }

  // ----- prefix and postfix operators -----

  /** A prefix operator takes the name behind it and no more, and prefix operators nest. */
  lemma PrefixFirst(i: nat, u: nat, v: nat, p: nat, a: Text, b: Text)
    requires i < |LADDER| && p in LADDER[i] && u in PREFIXES && v in PREFIXES
    ensures ReadAs([Plain(u), Name(a), Plain(p), Plain(v), Name(b)], Infix(p, Unary(u, Ident(a)), Unary(v, Ident(b))))
    ensures ReadAs([Plain(u), Plain(v), Name(a)], Unary(u, Unary(v, Ident(a))))
  {
    hide Piece, Infix, Closing, Opening, ReadAs, LADDER, PREFIXES;
    Borders();
    RowLevel(i, p);
    NamePiece(a, UNARY_LEVEL, u, p);
    PrefixPiece(u, Ident(a), [Name(a)], LeftLevel(i), TOK_EOF, p);
    NamePiece(b, UNARY_LEVEL, v, TOK_EOF);
    PrefixPiece(v, Ident(b), [Name(b)], RightLevel(i), p, TOK_EOF);
    var l, r := Unary(u, Ident(a)), Unary(v, Ident(b));
    InfixPiece(i, p, l, [Plain(u)] + [Name(a)], r, [Plain(v)] + [Name(b)], ASSIGN_LEVEL, TOK_EOF, TOK_EOF);
    Alone(Infix(p, l, r), [Plain(u)] + [Name(a)] + [Plain(p)] + ([Plain(v)] + [Name(b)]),
          [Plain(u), Name(a), Plain(p), Plain(v), Name(b)]);
    NamePiece(a, UNARY_LEVEL, v, TOK_EOF);
    PrefixPiece(v, Ident(a), [Name(a)], UNARY_LEVEL, u, TOK_EOF);
    PrefixPiece(u, Unary(v, Ident(a)), [Plain(v)] + [Name(a)], ASSIGN_LEVEL, TOK_EOF, TOK_EOF);
    Alone(Unary(u, Unary(v, Ident(a))), [Plain(u)] + ([Plain(v)] + [Name(a)]), [Plain(u), Plain(v), Name(a)]);
  }

  /** Increments and decrements update the name next to them, before any other operator. */
  lemma CrementFirst(i: nat, u: nat, s: nat, p: nat, a: Text, b: Text)
    requires i < |LADDER| && p in LADDER[i] && u in PREFIXES && s in CREMENTS
    ensures ReadAs([Plain(s), Name(a), Plain(p), Name(b), Plain(s)], Infix(p, Unary(s, Ref(a)), Postfix(s, Ref(b))))
    ensures ReadAs([Plain(u), Name(a), Plain(s)], Unary(u, Postfix(s, Ref(a))))
  {
    hide Piece, Infix, Closing, Opening, ReadAs, LADDER, PREFIXES, CREMENTS;
    Borders();
    RowLevel(i, p);
    TargetPiece(a, UNARY_LEVEL, s, p);
    PrefixPiece(s, Ref(a), [Name(a)], LeftLevel(i), TOK_EOF, p);
    PostfixPiece(s, b, RightLevel(i), p, TOK_EOF);
    var l, r := Unary(s, Ref(a)), Postfix(s, Ref(b));
    InfixPiece(i, p, l, [Plain(s)] + [Name(a)], r, [Name(b), Plain(s)], ASSIGN_LEVEL, TOK_EOF, TOK_EOF);
    Alone(Infix(p, l, r), [Plain(s)] + [Name(a)] + [Plain(p)] + [Name(b), Plain(s)], [Plain(s), Name(a), Plain(p), Name(b), Plain(s)]);
    PostfixPiece(s, a, UNARY_LEVEL, u, TOK_EOF);
    PrefixPiece(u, Postfix(s, Ref(a)), [Name(a), Plain(s)], ASSIGN_LEVEL, TOK_EOF, TOK_EOF);
    Alone(Unary(u, Postfix(s, Ref(a))), [Plain(u)] + [Name(a), Plain(s)], [Plain(u), Name(a), Plain(s)]);
  }

  // ----- `?:` and assignment -----

  /** `a p b ? c : d q e`, and `?:` in the last operand of `?:`. */
  lemma CondLast(i: nat, j: nat, p: nat, q: nat, a: Text, b: Text, c: Text, d: Text, e: Text)
    requires i < |LADDER| && j < |LADDER| && p in LADDER[i] && q in LADDER[j]
    ensures ReadAs([Name(a), Plain(p), Name(b), Plain(TOK_QUESTION), Name(c), Plain(TOK_COLON), Name(d), Plain(q), Name(e)],
                   Cond(Infix(p, Ident(a), Ident(b)), Ident(c), Infix(q, Ident(d), Ident(e))))
    ensures ReadAs([Name(a), Plain(TOK_QUESTION), Name(b), Plain(TOK_COLON), Name(c), Plain(TOK_QUESTION), Name(d), Plain(TOK_COLON), Name(e)],
                   Cond(Ident(a), Ident(b), Cond(Ident(c), Ident(d), Ident(e))))
  {
    hide Piece, Infix, Closing, Opening, ReadAs, LADDER;
    Borders();
    Two(i, p, a, b, OR_LEVEL, TOK_EOF, TOK_QUESTION);
    NamePiece(c, TERNARY_LEVEL, TOK_QUESTION, TOK_COLON);
    Two(j, q, d, e, TERNARY_LEVEL, TOK_COLON, TOK_EOF);
    var p1, p2 := [Name(a), Plain(p), Name(b)], [Name(d), Plain(q), Name(e)];
    CondPiece(Infix(p, Ident(a), Ident(b)), p1, Ident(c), [Name(c)], Infix(q, Ident(d), Ident(e)), p2, ASSIGN_LEVEL, TOK_EOF, TOK_EOF);
    Alone(Cond(Infix(p, Ident(a), Ident(b)), Ident(c), Infix(q, Ident(d), Ident(e))),
          p1 + [Plain(TOK_QUESTION)] + [Name(c)] + [Plain(TOK_COLON)] + p2,
          [Name(a), Plain(p), Name(b), Plain(TOK_QUESTION), Name(c), Plain(TOK_COLON), Name(d), Plain(q), Name(e)]);
    Chained(c, d, e, TOK_COLON);
    NamePiece(a, OR_LEVEL, TOK_EOF, TOK_QUESTION);
    NamePiece(b, TERNARY_LEVEL, TOK_QUESTION, TOK_COLON);
    var rest := [Name(c), Plain(TOK_QUESTION), Name(d), Plain(TOK_COLON), Name(e)];
    CondPiece(Ident(a), [Name(a)], Ident(b), [Name(b)], Cond(Ident(c), Ident(d), Ident(e)), rest, ASSIGN_LEVEL, TOK_EOF, TOK_EOF);
    Alone(Cond(Ident(a), Ident(b), Cond(Ident(c), Ident(d), Ident(e))),
          [Name(a)] + [Plain(TOK_QUESTION)] + [Name(b)] + [Plain(TOK_COLON)] + rest,
          [Name(a), Plain(TOK_QUESTION), Name(b), Plain(TOK_COLON), Name(c), Plain(TOK_QUESTION), Name(d), Plain(TOK_COLON), Name(e)]);
  }

  /** `c ? d : e` in front of the end. */
  lemma Chained(c: Text, d: Text, e: Text, prev: nat)
    requires Opening(prev)
    ensures Piece(Cond(Ident(c), Ident(d), Ident(e)), [Name(c), Plain(TOK_QUESTION), Name(d), Plain(TOK_COLON), Name(e)],
                  TERNARY_LEVEL, prev, TOK_EOF)
  {
    hide Piece, Closing, Opening;
    Borders();
    NamePiece(c, OR_LEVEL, prev, TOK_QUESTION);
    NamePiece(d, TERNARY_LEVEL, TOK_QUESTION, TOK_COLON);
    NamePiece(e, TERNARY_LEVEL, TOK_COLON, TOK_EOF);
    CondPiece(Ident(c), [Name(c)], Ident(d), [Name(d)], Ident(e), [Name(e)], TERNARY_LEVEL, prev, TOK_EOF);
    assert [Name(c)] + [Plain(TOK_QUESTION)] + [Name(d)] + [Plain(TOK_COLON)] + [Name(e)]
        == [Name(c), Plain(TOK_QUESTION), Name(d), Plain(TOK_COLON), Name(e)];
  }

  /** Assignment takes everything behind it, assignments included. */
  lemma AssignLast(i: nat, s: nat, t: nat, p: nat, x: Text, y: Text, a: Text, b: Text, c: Text)
    requires i < |LADDER| && p in LADDER[i] && s in ASSIGNMENTS && t in ASSIGNMENTS
    ensures ReadAs([Name(x), Plain(s), Name(a), Plain(p), Name(b)], Assign(s, Ref(x), Infix(p, Ident(a), Ident(b))))
    ensures ReadAs([Name(x), Plain(s), Name(y), Plain(t), Name(a)], Assign(s, Ref(x), Assign(t, Ref(y), Ident(a))))
    ensures ReadAs([Name(x), Plain(s), Name(a), Plain(TOK_QUESTION), Name(b), Plain(TOK_COLON), Name(c)],
                   Assign(s, Ref(x), Cond(Ident(a), Ident(b), Ident(c))))
  {
    hide Piece, Infix, Closing, Opening, ReadAs, LADDER, ASSIGNMENTS;
    Borders();
    Two(i, p, a, b, ASSIGN_LEVEL, s, TOK_EOF);
    AssignPiece(s, x, Infix(p, Ident(a), Ident(b)), [Name(a), Plain(p), Name(b)], TOK_EOF, TOK_EOF);
    Alone(Assign(s, Ref(x), Infix(p, Ident(a), Ident(b))), [Name(x), Plain(s)] + [Name(a), Plain(p), Name(b)],
          [Name(x), Plain(s), Name(a), Plain(p), Name(b)]);
    NamePiece(a, ASSIGN_LEVEL, t, TOK_EOF);
    AssignPiece(t, y, Ident(a), [Name(a)], s, TOK_EOF);
    AssignPiece(s, x, Assign(t, Ref(y), Ident(a)), [Name(y), Plain(t)] + [Name(a)], TOK_EOF, TOK_EOF);
    Alone(Assign(s, Ref(x), Assign(t, Ref(y), Ident(a))), [Name(x), Plain(s)] + ([Name(y), Plain(t)] + [Name(a)]),
          [Name(x), Plain(s), Name(y), Plain(t), Name(a)]);
    Chained(a, b, c, s);
    var rest := [Name(a), Plain(TOK_QUESTION), Name(b), Plain(TOK_COLON), Name(c)];
    Looser(Cond(Ident(a), Ident(b), Ident(c)), rest, s, TOK_EOF);
    AssignPiece(s, x, Cond(Ident(a), Ident(b), Ident(c)), rest, TOK_EOF, TOK_EOF);
    Alone(Assign(s, Ref(x), Cond(Ident(a), Ident(b), Ident(c))), [Name(x), Plain(s)] + rest,
          [Name(x), Plain(s), Name(a), Plain(TOK_QUESTION), Name(b), Plain(TOK_COLON), Name(c)]);
  }

  lemma Looser(e: Expr, toks: seq<Token>, prev: nat, next: nat)
    requires e.Cond? && Piece(e, toks, TERNARY_LEVEL, prev, next)
    ensures Piece(e, toks, ASSIGN_LEVEL, prev, next)
  {}

  // ----- single tokens -----

  /** What a token stands for by itself. */
  lemma SingleToken(n: Whole, text: Text)
    ensures ReadAs([Plain(TOK_KEYWORD_TRUE)], Lit(LitTrue)) && ReadAs([Plain(TOK_KEYWORD_FALSE)], Lit(LitFalse))
    ensures ReadAs([Plain(TOK_KEYWORD_NULL)], Lit(LitNull)) && ReadAs([Plain(TOK_KEYWORD_UNDEFINED)], Lit(LitUndefined))
    ensures ReadAs([Plain(TOK_KEYWORD_THIS)], Lit(LitThis)) && ReadAs([Integer(n)], Lit(LitInteger(n)))
    ensures ReadAs([Fraction(text)], Lit(LitFraction(text))) && ReadAs([Quoted(text)], Lit(LitString(text)))
    ensures ReadAs([Name(text)], Ident(text))
  {
    hide ReadAs;
    Alone(Lit(LitTrue), [Plain(TOK_KEYWORD_TRUE)], [Plain(TOK_KEYWORD_TRUE)]);
    Alone(Lit(LitFalse), [Plain(TOK_KEYWORD_FALSE)], [Plain(TOK_KEYWORD_FALSE)]);
    Alone(Lit(LitNull), [Plain(TOK_KEYWORD_NULL)], [Plain(TOK_KEYWORD_NULL)]);
    Alone(Lit(LitUndefined), [Plain(TOK_KEYWORD_UNDEFINED)], [Plain(TOK_KEYWORD_UNDEFINED)]);
    Alone(Lit(LitThis), [Plain(TOK_KEYWORD_THIS)], [Plain(TOK_KEYWORD_THIS)]);
    Alone(Lit(LitInteger(n)), [Integer(n)], [Integer(n)]);
    Alone(Lit(LitFraction(text)), [Fraction(text)], [Fraction(text)]);
    Alone(Lit(LitString(text)), [Quoted(text)], [Quoted(text)]);
    Alone(Ident(text), [Name(text)], [Name(text)]);
  }
}
