/** A reference reader for expressions: it finds the tree a token sequence begins with, and there is only one. */
module Reader {
  import opened Bytecode
  import opened Tokens
  import opened Syntax

  function KindOf(toks: seq<Token>): nat {
    if toks == [] then TOK_EOF else Kind(toks[0])
  }

  predicate IsMember(tok: nat) {
    tok == TOK_DOT || tok == TOK_OPEN_PAREN || tok == TOK_OPEN_BRACKET
  }

  /** What reading finds at the front of some tokens, and the tokens behind it. */
  datatype Found<T> = Found(tree: T, rest: seq<Token>) | NotFound

  /** Reading a tree of `level` off the front of `toks`, behind a token of kind `prev`. */
  function Read(level: nat, prev: nat, toks: seq<Token>): (r: Found<Expr>)
    requires level <= UNARY_LEVEL
    ensures r.Found? ==> |r.rest| < |toks|
    decreases |toks|, 20 - level, 1
  {
    if level == ASSIGN_LEVEL then
      match Read(TERNARY_LEVEL, prev, toks)
      case NotFound => NotFound
      case Found(l, rest) =>
        if !IsAssignOp(KindOf(rest)) || rest == [] then Found(l, rest)
        else
          match Read(ASSIGN_LEVEL, KindOf(rest), rest[1..])
          case NotFound => NotFound
          case Found(r, rest2) => Found(Assign(KindOf(rest), l, r), rest2)
    else if level == TERNARY_LEVEL then
      match Read(OR_LEVEL, prev, toks)
      case NotFound => NotFound
      case Found(c, rest) => if KindOf(rest) != TOK_QUESTION then Found(c, rest) else ReadBranches(c, rest[1..])
    else if level < UNARY_LEVEL then
      match Read(level + 1, prev, toks)
      case NotFound => NotFound
      case Found(l, rest) => ReadMore(level, l, rest)
    else
      ReadUnary(prev, toks)
  }

  function ReadBranches(c: Expr, toks: seq<Token>): (r: Found<Expr>)
    ensures r.Found? ==> |r.rest| < |toks|
    decreases |toks|, 20, 0
  {
    match Read(TERNARY_LEVEL, TOK_QUESTION, toks)
    case NotFound => NotFound
    case Found(t, rest) =>
      if KindOf(rest) != TOK_COLON then NotFound
      else
        match Read(TERNARY_LEVEL, TOK_COLON, rest[1..])
        case NotFound => NotFound
        case Found(f, rest2) => Found(Cond(c, t, f), rest2)
  }

  /** The operators of one level behind an operand: logical ones nest to the right, the others to the left. */
  function ReadMore(level: nat, l: Expr, toks: seq<Token>): (r: Found<Expr>)
    requires OR_LEVEL <= level < UNARY_LEVEL
    ensures r.Found? ==> |r.rest| <= |toks|
    decreases |toks|, 20 - level, 0
  {
    if toks == [] || !OpAt(level, KindOf(toks)) then Found(l, toks)
    else
      match Read(if level < 4 then level else level + 1, KindOf(toks), toks[1..])
      case NotFound => NotFound
      case Found(r, rest) =>
        if level < 4 then Found(Logical(KindOf(toks), l, r), rest) else ReadMore(level, Binary(KindOf(toks), l, r), rest)
  }

  function ReadUnary(prev: nat, toks: seq<Token>): (r: Found<Expr>)
    ensures r.Found? ==> |r.rest| < |toks|
    decreases |toks|, 6, 0
  {
    if !IsUnary(KindOf(toks)) then ReadPostfix(prev, toks)
    else if toks == [] then NotFound
    else
      match ReadUnary(KindOf(toks), toks[1..])
      case NotFound => NotFound
      case Found(e, rest) => Found(Unary(KindOf(toks), e), rest)
  }

  /** A primary in front of a member or a call leads out of the fragment. */
  function ReadPostfix(prev: nat, toks: seq<Token>): (r: Found<Expr>)
    ensures r.Found? ==> |r.rest| < |toks|
    decreases |toks|, 5, 0
  {
    match ReadPrimary(prev, toks)
    case NotFound => NotFound
    case Found(e, rest) =>
      if IsMember(KindOf(rest)) then NotFound
      else if rest != [] && IsCrement(KindOf(rest)) then Found(Postfix(KindOf(rest), e), rest[1..])
      else Found(e, rest)
  }

  function ReadPrimary(prev: nat, toks: seq<Token>): (r: Found<Expr>)
    ensures r.Found? ==> |r.rest| < |toks|
    decreases |toks|, 4, 0
  {
    if toks == [] then NotFound
    else if LiteralAt(toks[0]).Some? then Found(Lit(LiteralAt(toks[0]).value), toks[1..])
    else if toks[0].Name? then
      if prev == TOK_DOT then NotFound
      else Found(if Updates(prev, KindOf(toks[1..])) then Ref(toks[0].text) else Ident(toks[0].text), toks[1..])
    else if toks[0].Plain? && toks[0].tok == TOK_OPEN_PAREN then
      match Read(ASSIGN_LEVEL, TOK_OPEN_PAREN, toks[1..])
      case NotFound => NotFound
      case Found(e, rest) => if KindOf(rest) == TOK_CLOSE_PAREN then Found(Paren(e), rest[1..]) else NotFound
    else NotFound
  }

  // ----- what may follow a tree -----

  /** A token of this kind would go on with a tree of `level`. */
  predicate GoesOn(level: nat, tok: nat) {
    (level <= ASSIGN_LEVEL && IsAssignOp(tok)) || (level <= TERNARY_LEVEL && tok == TOK_QUESTION)
    || (IsLogical(tok) && level <= LevelOf(tok)) || (IsBinary(tok) && level <= LevelOf(tok))
  }

  /** The last operand of `e` is complete in front of such a token. */
  predicate MayEnd(e: Expr, tok: nat) {
    match e
    case Lit(_) => !IsCrement(tok) && !IsMember(tok)
    case Ident(_) => !IsCrement(tok) && !IsMember(tok)
    case Ref(_) => !IsCrement(tok) && !IsMember(tok)
    case Paren(_) => !IsCrement(tok) && !IsMember(tok)
    case Unary(_, e) => MayEnd(e, tok)
    case Postfix(_, _) => true
    case Binary(_, _, r) => MayEnd(r, tok)
    case Logical(_, _, r) => MayEnd(r, tok)
    case Cond(_, _, f) => MayEnd(f, tok)
    case Assign(_, _, r) => MayEnd(r, tok)
  }

  /** `e` is a tree of `level` behind `prev`, and nothing of `rest` goes on with it. */
  predicate Stands(e: Expr, level: nat, prev: nat, rest: seq<Token>) {
    level <= UNARY_LEVEL && Fits(e, level) && Placed(e, prev, KindOf(rest)) && !GoesOn(level, KindOf(rest)) && MayEnd(e, KindOf(rest))
  }

  lemma GoesOnLooser(level: nat, tok: nat)
    ensures GoesOn(level + 1, tok) ==> GoesOn(level, tok)
    ensures OpAt(level, tok) && 2 <= level < UNARY_LEVEL ==> GoesOn(level, tok)
  {}

  /** What goes on with a tree of `level` but not with a tighter one is an operator of `level`. */
  lemma GoesOnHere(level: nat, tok: nat)
    requires GoesOn(level, tok) && !GoesOn(level + 1, tok)
    ensures level == ASSIGN_LEVEL ==> IsAssignOp(tok)
    ensures level == TERNARY_LEVEL ==> tok == TOK_QUESTION
    ensures 2 <= level ==> OpAt(level, tok)
  {}

  /** An operator does not go on with a tree that is tighter than itself, and it is not part of an operand. */
  lemma OwnLevel(op: nat)
    ensures IsBinary(op) ==> 4 <= LevelOf(op) < UNARY_LEVEL && OpAt(LevelOf(op), op) && !GoesOn(LevelOf(op) + 1, op)
    ensures IsLogical(op) ==> 2 <= LevelOf(op) < 4 && OpAt(LevelOf(op), op) && !GoesOn(LevelOf(op) + 1, op)
    ensures IsAssignOp(op) ==> !GoesOn(TERNARY_LEVEL, op)
    ensures !GoesOn(OR_LEVEL, TOK_QUESTION) && !GoesOn(TERNARY_LEVEL, TOK_COLON) && !GoesOn(ASSIGN_LEVEL, TOK_CLOSE_PAREN)
    ensures IsBinary(op) || IsLogical(op) || IsAssignOp(op) ==> IsInfix(op)
  {}

  /** An operator is the business of one level only. */
  lemma OneLevel(level: nat, op: nat)
    requires 2 <= level < UNARY_LEVEL && OpAt(level, op)
    ensures LevelOf(op) == level && IsInfix(op) && (if level < 4 then IsLogical(op) else IsBinary(op))
  {}

  /** A token behind which an operand may start. */
  predicate IsInfix(tok: nat) {
    !IsCrement(tok) && !IsMember(tok) && tok != TOK_EOF
  }

  lemma {:induction false} EndsBefore(e: Expr, tok: nat)
    requires !IsCrement(tok) && !IsMember(tok)
    ensures MayEnd(e, tok)
  {
    match e
    case Unary(_, e) => EndsBefore(e, tok);
    case Binary(_, _, r) => EndsBefore(r, tok);
    case Logical(_, _, r) => EndsBefore(r, tok);
    case Cond(_, _, f) => EndsBefore(f, tok);
    case Assign(_, _, r) => EndsBefore(r, tok);
    case _ =>
  }

  /** The tokens of a tree with two operands. */
  lemma WrittenTwo(l: seq<Token>, op: nat, r: seq<Token>, rest: seq<Token>)
    ensures l + [Plain(op)] + r + rest == l + ([Plain(op)] + (r + rest))
    ensures ([Plain(op)] + (r + rest))[1..] == r + rest && KindOf([Plain(op)] + (r + rest)) == op
  {}

  // ----- reading finds the tree that was written -----

  lemma {:induction false} Finds(e: Expr, level: nat, prev: nat, rest: seq<Token>)
    requires Stands(e, level, prev, rest) && prev != TOK_DOT
    ensures Read(level, prev, Written(e) + rest) == Found(e, rest)
    decreases e, 20 - level, 1
  {
    hide Read, ReadMore, MayEnd, Placed, GoesOn;
    GoesOnLooser(level, KindOf(rest));
    if level == UNARY_LEVEL {
      FindsUnary(e, prev, rest);
      ReadTight(prev, Written(e) + rest);
    } else if Fits(e, level + 1) {
      Finds(e, level + 1, prev, rest);
      StopsHere(level, prev, Written(e) + rest, e, rest);
    } else if e.Binary? {
      FindsMore(e, level, prev, rest);
      StopsMore(level, e, rest);
    } else if e.Logical? {
      FindsLogical(e, prev, rest);
    } else if e.Cond? {
      FindsCond(e, prev, rest);
    } else {
      FindsAssign(e, prev, rest);
    }
  }

  lemma ReadTight(prev: nat, toks: seq<Token>)
    ensures Read(UNARY_LEVEL, prev, toks) == ReadUnary(prev, toks)
  {
    hide ReadUnary;
  }

  /** A tree of a tighter level that nothing goes on with is read as it is. */
  lemma StopsHere(level: nat, prev: nat, toks: seq<Token>, e: Expr, rest: seq<Token>)
    requires level < UNARY_LEVEL && Read(level + 1, prev, toks) == Found(e, rest) && !GoesOn(level, KindOf(rest))
    ensures Read(level, prev, toks) == Found(e, rest)
  {
    hide ReadBranches, ReadUnary;
    GoesOnLooser(level, KindOf(rest));
  }

  lemma StopsMore(level: nat, e: Expr, rest: seq<Token>)
    requires 2 <= level < UNARY_LEVEL && !GoesOn(level, KindOf(rest))
    ensures ReadMore(level, e, rest) == Found(e, rest)
  {
    GoesOnLooser(level, KindOf(rest));
  }

  /** Reading the operands of one level, however many there are to the left, has built `e` when it comes to `rest`. */
  lemma {:induction false} FindsMore(e: Expr, level: nat, prev: nat, rest: seq<Token>)
    requires 4 <= level < UNARY_LEVEL && Fits(e, level) && Placed(e, prev, KindOf(rest)) && prev != TOK_DOT
    requires !GoesOn(level + 1, KindOf(rest)) && MayEnd(e, KindOf(rest))
    ensures Read(level, prev, Written(e) + rest) == ReadMore(level, e, rest)
    decreases e, 20 - level, 0
  {
    hide Read, ReadMore, GoesOn;
    if Fits(e, level + 1) {
      Finds(e, level + 1, prev, rest);
      ThenMore(level, prev, Written(e) + rest, e, rest);
    } else {
      assert e.Binary? && LevelOf(e.op) == level;
      OwnLevel(e.op);
      EndsBefore(e.l, e.op);
      var tail := [Plain(e.op)] + (Written(e.r) + rest);
      WrittenTwo(Written(e.l), e.op, Written(e.r), rest);
      FindsMore(e.l, level, prev, tail);
      Finds(e.r, level + 1, e.op, rest);
      OneMore(level, e.op, e.l, tail, e.r, rest);
    }
  }

  lemma ThenMore(level: nat, prev: nat, toks: seq<Token>, e: Expr, rest: seq<Token>)
    requires 4 <= level < UNARY_LEVEL && Read(level + 1, prev, toks) == Found(e, rest)
    ensures Read(level, prev, toks) == ReadMore(level, e, rest)
  {
    hide ReadMore, ReadBranches, ReadUnary;
  }

  lemma OneMore(level: nat, op: nat, l: Expr, toks: seq<Token>, r: Expr, rest: seq<Token>)
    requires 4 <= level < UNARY_LEVEL && toks != [] && KindOf(toks) == op && OpAt(level, op)
    requires Read(level + 1, op, toks[1..]) == Found(r, rest)
    ensures ReadMore(level, l, toks) == ReadMore(level, Binary(op, l, r), rest)
  {
    hide Read, OpAt;
  }

  lemma FindsLogical(e: Expr, prev: nat, rest: seq<Token>)
    requires e.Logical? && Stands(e, LevelOf(e.op), prev, rest) && prev != TOK_DOT
    ensures Read(LevelOf(e.op), prev, Written(e) + rest) == Found(e, rest)
    decreases e, 0
  {
    hide GoesOn;
    OwnLevel(e.op);
    EndsBefore(e.l, e.op);
    var tail := [Plain(e.op)] + (Written(e.r) + rest);
    WrittenTwo(Written(e.l), e.op, Written(e.r), rest);
    Finds(e.l, LevelOf(e.op) + 1, prev, tail);
    Finds(e.r, LevelOf(e.op), e.op, rest);
  }

  lemma FindsAssign(e: Expr, prev: nat, rest: seq<Token>)
    requires e.Assign? && Stands(e, ASSIGN_LEVEL, prev, rest) && prev != TOK_DOT
    ensures Read(ASSIGN_LEVEL, prev, Written(e) + rest) == Found(e, rest)
    decreases e, 0
  {
    hide GoesOn;
    OwnLevel(e.op);
    EndsBefore(e.l, e.op);
    var tail := [Plain(e.op)] + (Written(e.r) + rest);
    WrittenTwo(Written(e.l), e.op, Written(e.r), rest);
    Finds(e.l, TERNARY_LEVEL, prev, tail);
    Finds(e.r, ASSIGN_LEVEL, e.op, rest);
  }

  lemma FindsCond(e: Expr, prev: nat, rest: seq<Token>)
    requires e.Cond? && Stands(e, TERNARY_LEVEL, prev, rest) && prev != TOK_DOT
    ensures Read(TERNARY_LEVEL, prev, Written(e) + rest) == Found(e, rest)
    decreases e, 0
  {
    hide GoesOn;
    OwnLevel(TOK_QUESTION);
    EndsBefore(e.c, TOK_QUESTION);
    EndsBefore(e.t, TOK_COLON);
    var third := [Plain(TOK_COLON)] + (Written(e.f) + rest);
    var second := [Plain(TOK_QUESTION)] + (Written(e.t) + third);
    WrittenCond(Written(e.c), Written(e.t), Written(e.f), rest);
    Finds(e.c, OR_LEVEL, prev, second);
    Finds(e.t, TERNARY_LEVEL, TOK_QUESTION, third);
    Finds(e.f, TERNARY_LEVEL, TOK_COLON, rest);
  }

  lemma WrittenCond(c: seq<Token>, t: seq<Token>, f: seq<Token>, rest: seq<Token>)
    ensures var third := [Plain(TOK_COLON)] + (f + rest);
            var second := [Plain(TOK_QUESTION)] + (t + third);
            c + [Plain(TOK_QUESTION)] + t + [Plain(TOK_COLON)] + f + rest == c + second
            && second[1..] == t + third && third[1..] == f + rest && KindOf(second) == TOK_QUESTION && KindOf(third) == TOK_COLON
  {}

  lemma {:induction false} FindsUnary(e: Expr, prev: nat, rest: seq<Token>)
    requires Fits(e, UNARY_LEVEL) && Placed(e, prev, KindOf(rest)) && MayEnd(e, KindOf(rest)) && prev != TOK_DOT
    ensures ReadUnary(prev, Written(e) + rest) == Found(e, rest)
    decreases e, 5
  {
    hide ReadPrimary;
    if e.Unary? {
      assert Written(e) + rest == [Plain(e.op)] + (Written(e.e) + rest);
      FindsUnary(e.e, e.op, rest);
    } else if e.Postfix? {
      assert Written(e) + rest == Written(e.e) + ([Plain(e.op)] + rest);
      FindsPrimary(e.e, prev, [Plain(e.op)] + rest);
    } else {
      FindsPrimary(e, prev, rest);
    }
  }

  lemma FindsPrimary(e: Expr, prev: nat, rest: seq<Token>)
    requires Fits(e, PRIMARY_LEVEL) && Placed(e, prev, KindOf(rest)) && prev != TOK_DOT
    ensures ReadPrimary(prev, Written(e) + rest) == Found(e, rest)
    ensures !IsUnary(KindOf(Written(e) + rest))
    decreases e, 4
  {
    hide Read;
    if e.Paren? {
      OwnLevel(TOK_CLOSE_PAREN);
      EndsBefore(e.e, TOK_CLOSE_PAREN);
      assert (Written(e) + rest)[1..] == Written(e.e) + ([Plain(TOK_CLOSE_PAREN)] + rest);
      Finds(e.e, ASSIGN_LEVEL, TOK_OPEN_PAREN, [Plain(TOK_CLOSE_PAREN)] + rest);
    } else {
      assert (Written(e) + rest)[1..] == rest;
    }
  }

  // ----- what reading finds was written -----

  /** `toks` is `e` and then `rest`; an operator of a looser level may still go on with it. */
  predicate Begins(toks: seq<Token>, e: Expr, level: nat, prev: nat, rest: seq<Token>) {
    toks == Written(e) + rest && Fits(e, level) && Placed(e, prev, KindOf(rest)) && MayEnd(e, KindOf(rest))
  }

  lemma {:induction false} ReadSound(level: nat, prev: nat, toks: seq<Token>)
    requires level <= UNARY_LEVEL && Read(level, prev, toks).Found?
    ensures var r := Read(level, prev, toks);
            Begins(toks, r.tree, level, prev, r.rest) && !GoesOn(level, KindOf(r.rest))
    decreases |toks|, 20 - level, 1
  {
    hide Begins, ReadMore, ReadBranches, ReadUnary, GoesOn, OpAt;
    if level == UNARY_LEVEL {
      UnarySound(prev, toks);
      NothingGoesOn(KindOf(Read(level, prev, toks).rest));
    } else {
      var inner := Read(level + 1, prev, toks);
      ReadSound(level + 1, prev, toks);
      BeginsLooser(toks, inner.tree, level, prev, inner.rest);
      if level >= 2 {
        MoreSound(level, prev, toks, inner.tree, inner.rest);
      } else if GoesOn(level, KindOf(inner.rest)) {
        GoesOnHere(level, KindOf(inner.rest));
        RightSound(level, prev, toks, inner.tree, inner.rest);
      } else {
        StopsHere(level, prev, toks, inner.tree, inner.rest);
      }
    }
  }

  lemma NothingGoesOn(tok: nat)
    ensures !GoesOn(UNARY_LEVEL, tok)
  {}

  lemma BeginsLooser(toks: seq<Token>, e: Expr, level: nat, prev: nat, rest: seq<Token>)
    requires Begins(toks, e, level + 1, prev, rest)
    ensures Begins(toks, e, level, prev, rest)
  {}

  /** A token that stands for itself. */
  lemma PlainFirst(toks: seq<Token>, tok: nat)
    requires KindOf(toks) == tok && TOK_EOF < tok && (tok < TOK_NUM || TOK_IDENT < tok)
    ensures toks != [] && toks == [Plain(tok)] + toks[1..]
  {}

  /** What follows `=` or `?`. */
  lemma RightSound(level: nat, prev: nat, toks: seq<Token>, l: Expr, rest: seq<Token>)
    requires level < 2 && Read(level, prev, toks).Found? && Read(level + 1, prev, toks) == Found(l, rest)
    requires Begins(toks, l, level + 1, prev, rest)
    requires if level == ASSIGN_LEVEL then IsAssignOp(KindOf(rest)) else KindOf(rest) == TOK_QUESTION
    ensures var r := Read(level, prev, toks);
            Begins(toks, r.tree, level, prev, r.rest) && !GoesOn(level, KindOf(r.rest))
    decreases |toks|, 20 - level, 0
  {
    hide Begins, GoesOn, ReadBranches, ReadMore, ReadUnary;
    var op := KindOf(rest);
    PlainFirst(rest, op);
    if level == TERNARY_LEVEL {
      BranchesSound(prev, toks, l, rest);
    } else {
      assert Read(level, op, rest[1..]).Found?;
      ReadSound(level, op, rest[1..]);
      var r := Read(level, op, rest[1..]);
      AssignSound(prev, toks, l, op, rest, r.tree, r.rest);
    }
  }

  lemma AssignSound(prev: nat, toks: seq<Token>, l: Expr, op: nat, rest: seq<Token>, r: Expr, rest2: seq<Token>)
    requires IsAssignOp(op) && rest != [] && rest == [Plain(op)] + rest[1..]
    requires Begins(toks, l, TERNARY_LEVEL, prev, rest) && Begins(rest[1..], r, ASSIGN_LEVEL, op, rest2)
    ensures Begins(toks, Assign(op, l, r), ASSIGN_LEVEL, prev, rest2)
  {
    WrittenTwo(Written(l), op, Written(r), rest2);
  }

  lemma LogicalSound(level: nat, prev: nat, toks: seq<Token>, l: Expr, op: nat, rest: seq<Token>, r: Expr, rest2: seq<Token>)
    requires 2 <= level < 4 && OpAt(level, op) && rest != [] && rest == [Plain(op)] + rest[1..]
    requires Begins(toks, l, level + 1, prev, rest) && Begins(rest[1..], r, level, op, rest2)
    ensures Begins(toks, Logical(op, l, r), level, prev, rest2)
  {
    WrittenTwo(Written(l), op, Written(r), rest2);
  }

  lemma BinarySound(level: nat, prev: nat, toks: seq<Token>, l: Expr, op: nat, rest: seq<Token>, r: Expr, rest2: seq<Token>)
    requires 4 <= level < UNARY_LEVEL && OpAt(level, op) && rest != [] && rest == [Plain(op)] + rest[1..]
    requires Begins(toks, l, level, prev, rest) && Begins(rest[1..], r, level + 1, op, rest2)
    ensures Begins(toks, Binary(op, l, r), level, prev, rest2)
  {
    WrittenTwo(Written(l), op, Written(r), rest2);
  }

  lemma {:induction false} MoreSound(level: nat, prev: nat, toks: seq<Token>, l: Expr, rest: seq<Token>)
    requires 2 <= level < UNARY_LEVEL && Begins(toks, l, level, prev, rest) && |rest| < |toks|
    requires level < 4 ==> Begins(toks, l, level + 1, prev, rest)
    requires !GoesOn(level + 1, KindOf(rest)) && ReadMore(level, l, rest).Found?
    ensures var r := ReadMore(level, l, rest);
            Begins(toks, r.tree, level, prev, r.rest) && !GoesOn(level, KindOf(r.rest))
    decreases |rest|, 20 - level, 0
  {
    hide Begins, GoesOn, Read, OpAt;
    var op := KindOf(rest);
    if rest != [] && OpAt(level, op) {
      OneLevel(level, op);
      PlainFirst(rest, op);
      if level < 4 {
        ReadSound(level, op, rest[1..]);
        LogicalSound(level, prev, toks, l, op, rest, Read(level, op, rest[1..]).tree, Read(level, op, rest[1..]).rest);
      } else {
        ReadSound(level + 1, op, rest[1..]);
        var r := Read(level + 1, op, rest[1..]);
        BinarySound(level, prev, toks, l, op, rest, r.tree, r.rest);
        MoreSound(level, prev, toks, Binary(op, l, r.tree), r.rest);
      }
    } else if GoesOn(level, op) {
      GoesOnHere(level, op);
      NotEof(level);
    }
  }

  lemma NotEof(level: nat)
    ensures !OpAt(level, TOK_EOF)
  {}

  lemma BranchesSound(prev: nat, toks: seq<Token>, c: Expr, rest: seq<Token>)
    requires Begins(toks, c, OR_LEVEL, prev, rest) && rest != [] && |rest| < |toks|
    requires rest == [Plain(TOK_QUESTION)] + rest[1..] && ReadBranches(c, rest[1..]).Found?
    ensures var r := ReadBranches(c, rest[1..]);
            Begins(toks, r.tree, TERNARY_LEVEL, prev, r.rest) && !GoesOn(TERNARY_LEVEL, KindOf(r.rest))
    decreases |rest|, 20, 2
  {
    hide Begins, GoesOn, Read;
    var t := Read(TERNARY_LEVEL, TOK_QUESTION, rest[1..]);
    ReadSound(TERNARY_LEVEL, TOK_QUESTION, rest[1..]);
    PlainFirst(t.rest, TOK_COLON);
    var f := Read(TERNARY_LEVEL, TOK_COLON, t.rest[1..]);
    ReadSound(TERNARY_LEVEL, TOK_COLON, t.rest[1..]);
    CondSound(prev, toks, c, rest, t.tree, t.rest, f.tree, f.rest);
  }

  lemma CondSound(prev: nat, toks: seq<Token>, c: Expr, rest: seq<Token>, t: Expr, rest2: seq<Token>, f: Expr, rest3: seq<Token>)
    requires rest != [] && rest == [Plain(TOK_QUESTION)] + rest[1..] && rest2 != [] && rest2 == [Plain(TOK_COLON)] + rest2[1..]
    requires Begins(toks, c, OR_LEVEL, prev, rest) && Begins(rest[1..], t, TERNARY_LEVEL, TOK_QUESTION, rest2)
    requires Begins(rest2[1..], f, TERNARY_LEVEL, TOK_COLON, rest3)
    ensures Begins(toks, Cond(c, t, f), TERNARY_LEVEL, prev, rest3)
  {
    WrittenCond(Written(c), Written(t), Written(f), rest3);
  }

  lemma {:induction false} UnarySound(prev: nat, toks: seq<Token>)
    requires ReadUnary(prev, toks).Found?
    ensures var r := ReadUnary(prev, toks); Begins(toks, r.tree, UNARY_LEVEL, prev, r.rest)
    decreases |toks|, 5, 0
  {
    hide ReadPrimary, Begins;
    var op := KindOf(toks);
    if IsUnary(op) {
      PlainFirst(toks, op);
      UnarySound(op, toks[1..]);
      UnaryBegins(prev, toks, op, ReadUnary(op, toks[1..]).tree, ReadUnary(op, toks[1..]).rest);
    } else {
      PrimarySound(prev, toks);
      var r := ReadPrimary(prev, toks);
      if IsCrement(KindOf(r.rest)) {
        PlainFirst(r.rest, KindOf(r.rest));
        PostfixBegins(prev, toks, r.tree, KindOf(r.rest), r.rest);
      } else {
        PrimaryBegins(prev, toks, r.tree, r.rest);
      }
    }
  }

  /** A primary, whatever follows it. */
  predicate Opens(toks: seq<Token>, e: Expr, prev: nat, rest: seq<Token>) {
    toks == Written(e) + rest && Fits(e, PRIMARY_LEVEL) && Placed(e, prev, KindOf(rest))
  }

  lemma UnaryBegins(prev: nat, toks: seq<Token>, op: nat, e: Expr, rest: seq<Token>)
    requires IsUnary(op) && toks != [] && toks == [Plain(op)] + toks[1..] && Begins(toks[1..], e, UNARY_LEVEL, op, rest)
    ensures Begins(toks, Unary(op, e), UNARY_LEVEL, prev, rest)
  {
    assert toks == [Plain(op)] + Written(e) + rest;
  }

  lemma PostfixBegins(prev: nat, toks: seq<Token>, e: Expr, op: nat, rest: seq<Token>)
    requires IsCrement(op) && rest != [] && rest == [Plain(op)] + rest[1..] && Opens(toks, e, prev, rest)
    ensures Begins(toks, Postfix(op, e), UNARY_LEVEL, prev, rest[1..])
  {
    assert toks == Written(e) + [Plain(op)] + rest[1..];
  }

  lemma PrimaryBegins(prev: nat, toks: seq<Token>, e: Expr, rest: seq<Token>)
    requires Opens(toks, e, prev, rest) && !IsCrement(KindOf(rest)) && !IsMember(KindOf(rest))
    ensures Begins(toks, e, UNARY_LEVEL, prev, rest)
  {}

  lemma PrimarySound(prev: nat, toks: seq<Token>)
    requires ReadPrimary(prev, toks).Found?
    ensures var r := ReadPrimary(prev, toks); Opens(toks, r.tree, prev, r.rest)
    decreases |toks|, 4, 0
  {
    hide Read, Begins, GoesOn;
    assert toks == [toks[0]] + toks[1..];
    if LiteralAt(toks[0]).None? && !toks[0].Name? {
      var inner := Read(ASSIGN_LEVEL, TOK_OPEN_PAREN, toks[1..]);
      ReadSound(ASSIGN_LEVEL, TOK_OPEN_PAREN, toks[1..]);
      PlainFirst(inner.rest, TOK_CLOSE_PAREN);
      ParenOpens(prev, toks, inner.tree, inner.rest);
    }
  }

  lemma ParenOpens(prev: nat, toks: seq<Token>, e: Expr, rest: seq<Token>)
    requires toks != [] && toks == [Plain(TOK_OPEN_PAREN)] + toks[1..] && rest != [] && rest == [Plain(TOK_CLOSE_PAREN)] + rest[1..]
    requires Begins(toks[1..], e, ASSIGN_LEVEL, TOK_OPEN_PAREN, rest)
    ensures Opens(toks, Paren(e), prev, rest[1..])
  {
    assert toks == [Plain(TOK_OPEN_PAREN)] + Written(e) + [Plain(TOK_CLOSE_PAREN)] + rest[1..];
  }

  // ----- the two together -----

  /** The reader finds a tree exactly where one is written that nothing behind it goes on with. */
  lemma ReadIff(e: Expr, level: nat, prev: nat, toks: seq<Token>, rest: seq<Token>)
    requires level <= UNARY_LEVEL && prev != TOK_DOT
    ensures Read(level, prev, toks) == Found(e, rest) <==> toks == Written(e) + rest && Stands(e, level, prev, rest)
  {
    hide Read, Fits, Placed, GoesOn, MayEnd;
    if Read(level, prev, toks) == Found(e, rest) {
      ReadSound(level, prev, toks);
    }
    if toks == Written(e) + rest && Stands(e, level, prev, rest) {
      Finds(e, level, prev, rest);
    }
  }

  /** A tree of the grammar is determined by its tokens and its neighbours: so the tree the parser recognises is
      the only one, and with it the nesting of its operators. */
  lemma OneTree(e1: Expr, e2: Expr, level: nat, prev: nat, rest1: seq<Token>, rest2: seq<Token>)
    requires Stands(e1, level, prev, rest1) && Stands(e2, level, prev, rest2) && prev != TOK_DOT
    requires Written(e1) + rest1 == Written(e2) + rest2
    ensures e1 == e2 && rest1 == rest2
  {
    hide Stands, Read, Written;
    Finds(e1, level, prev, rest1);
    Finds(e2, level, prev, rest2);
  }
}
