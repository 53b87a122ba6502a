/** How statements choose, repeat and declare, in terms of what their expressions give. */
module Control {
  import opened Options
  import opened Bytecode
  import opened Tokens
  import opened Syntax
  import opened Machine
  import opened Evaluate
  import opened Operators

  // ----- choice and sequence -----

  lemma IfMeans(k: Arith, p: Expr, t: Stmt, f: Stmt, c: Ctx, h: Heap, fuel: nat, v: Val, h1: Heap)
    requires Proper(p) && ProperStmt(t) && ProperStmt(f) && Scoped(c, h) && Eval(k, p, c, h) == Value(v, h1)
    ensures Scoped(c, h1)
    ensures Exec(k, If(p, t), c, h, fuel) == if Falsy(k, v) then Normal(Undefined, h1) else Exec(k, t, c, h1, fuel)
    ensures Exec(k, IfElse(p, t, f), c, h, fuel) == if Falsy(k, v) then Exec(k, f, c, h1, fuel) else Exec(k, t, c, h1, fuel)
  {}

  /** The statements of a list run in order up to the first that does not end normally, and the last one's value is
      the list's. */
  lemma ListMeans(k: Arith, s: Stmt, semis: nat, rest: Stmts, c: Ctx, h: Heap, fuel: nat)
    requires ProperStmt(s) && (rest.Stmts? ==> ProperStmts(rest)) && Scoped(c, h)
    ensures var first := Exec(k, s, c, h, fuel);
            ExecAll(k, Stmts(s, semis, rest), c, h, fuel)
            == if first.Normal? && rest.Stmts? then ExecAll(k, rest, c, first.heap, fuel) else first
  {}

  lemma ReturnMeans(k: Arith, e: Expr, c: Ctx, h: Heap, fuel: nat, v: Val, h1: Heap)
    requires Proper(e) && Scoped(c, h) && Eval(k, e, c, h) == Value(v, h1)
    ensures Exec(k, Stmt.Return(Some(e)), c, h, fuel) == Returned(v, h1) && Exec(k, Stmt.Return(None), c, h, fuel) == Returned(Undefined, h)
  {}

  // ----- declarations -----

  /** The heap with `x` in the innermost scope: with the value it had there, or `undefined`. */
  function Created(h: Heap, ref: nat, x: Text): Heap
    requires ref < |h|
  {
    if x in h[ref] then h else Assigned(h, ref, x, Undefined)
  }

  /** A `let` of one variable. */
  function LetOne(x: Text, init: Option<Expr>): (s: Stmt)
    requires init.Some? ==> Proper(init.value)
    ensures ProperStmt(s)
  {
    assert Kept(NoDecls) == 0 && ProperDecls(NoDecls);
    Let(Decl(x, init, false, NoDecls))
  }

  function BlockOf(s: Stmt): (b: Stmt)
    requires ProperStmt(s)
    ensures ProperStmt(b)
  {
    assert ProperStmts(Stmts(s, 0, NoStmts));
    Block(Stmts(s, 0, NoStmts))
  }

  /** `let x = e` creates `x` in the innermost scope, evaluates `e` with it there, and stores the value in it; then
      the name gives that value. */
  lemma LetMeans(k: Arith, x: Text, e: Expr, c: Ctx, h: Heap, fuel: nat, v: Val, h1: Heap)
    requires Proper(e) && Scoped(c, h)
    requires Eval(k, e, c, Created(h, c.scopes[|c.scopes| - 1], x)) == Value(v, h1)
    ensures |h1| == |h|
    ensures var h2 := Assigned(h1, c.scopes[|c.scopes| - 1], x, v);
            Exec(k, LetOne(x, Some(e)), c, h, fuel) == Normal(v, h2) && Eval(k, Ident(x), c, h2) == Value(v, h2)
  {
    var ref := c.scopes[|c.scopes| - 1];
    assert Declare(h, ref, x) == Created(h, ref, x);
    assert Store(h1, ref, x, v) == Assigned(h1, ref, x, v);
    assert Declarations(k, NoDecls, c, Store(h1, ref, x, v)) == Declared([], Store(h1, ref, x, v));
    assert [v] + [] == [v];
  }

  /** Without an initialiser the variable keeps the value it had in this very scope, or becomes `undefined`. */
  lemma LetKeeps(k: Arith, x: Text, c: Ctx, h: Heap, fuel: nat)
    requires Scoped(c, h)
    ensures Exec(k, LetOne(x, None), c, h, fuel)
         == Normal(Undefined, Created(h, c.scopes[|c.scopes| - 1], x))
  {
    var ref := c.scopes[|c.scopes| - 1];
    assert Declare(h, ref, x) == Created(h, ref, x);
    assert Declarations(k, NoDecls, c, Declare(h, ref, x)) == Declared([], Declare(h, ref, x));
    assert [Undefined] + [] == [Undefined];
  }

  /** A block has a scope of its own: a variable it declares hides one of that name outside, which stays as it was
      unless the initialiser changes it. */
  lemma BlockHides(k: Arith, x: Text, e: Expr, c: Ctx, h: Heap, fuel: nat, v: Val, h1: Heap)
    requires Proper(e) && Scoped(c, h)
    requires Eval(k, e, Ctx(c.scopes + [|h|], c.self), h + [map[x := Undefined]]) == Value(v, h1)
    ensures |h1| == |h| + 1
    ensures Exec(k, BlockOf(LetOne(x, Some(e))), c, h, fuel) == Normal(v, h1[..|h|] + [h1[|h|][x := v]])
  {
    var inner, h0 := Ctx(c.scopes + [|h|], c.self), h + [map[]];
    assert Scoped(inner, h0);
    assert Created(h0, |h|, x) == h + [map[x := Undefined]];
    LetMeans(k, x, e, inner, h0, fuel, v, h1);
    assert Assigned(h1, |h|, x, v) == h1[..|h|] + [h1[|h|][x := v]];
    ListMeans(k, LetOne(x, Some(e)), 0, NoStmts, inner, h0, fuel);
  }

  // ----- loops -----

  /** How the body of a loop ends, whether in braces or not. */
  function BodyEnds(k: Arith, s: Stmt, c: Ctx, h: Heap, fuel: nat): Ending
    requires ProperStmt(s) && IsLoop(s) && Scoped(c, h)
  {
    match s
    case While(_, body) => ExecAll(k, body, c, h, fuel)
    case WhileOne(_, body) => Exec(k, body, c, h, fuel)
  }

  /** A turn that leads to the next: the condition counts as true, and the body ends normally or in `continue`. */
  predicate GoesRound(k: Arith, s: Stmt, c: Ctx, h: Heap, fuel: nat, h': Heap)
    requires ProperStmt(s) && IsLoop(s)
  {
    Scoped(c, h)
    && match Eval(k, s.c, c, h)
       case Error(_, _) => false
       case Value(v, h1) =>
         !Falsy(k, v) && var r := BodyEnds(k, s, c, h1, fuel); (r.Normal? && r.heap == h') || r == Continued(h')
  }

  /** The last turn of a loop that ends as `r`: the condition counts as false, the body ends in `break`, or either
      leaves the loop for further out. */
  predicate EndsLoop(k: Arith, s: Stmt, c: Ctx, h: Heap, fuel: nat, r: Ending)
    requires ProperStmt(s) && IsLoop(s)
  {
    Scoped(c, h)
    && match Eval(k, s.c, c, h)
       case Error(err, h1) => r == Failing(err, h1)
       case Value(v, h1) =>
         if Falsy(k, v) then r == Normal(Undefined, h1)
         else
           match BodyEnds(k, s, c, h1, fuel)
           case Broke(h2) => r == Normal(Undefined, h2)
           case Returned(w, h2) => r == Returned(w, h2)
           case Failing(err, h2) => r == Failing(err, h2)
           case _ => false
  }

  /** The turns of a loop by the heaps they start with. */
  ghost predicate Turned(k: Arith, s: Stmt, c: Ctx, hs: seq<Heap>, fuel: nat)
    requires ProperStmt(s) && IsLoop(s)
  {
    0 < |hs| <= fuel + 1 && forall i :: 0 <= i < |hs| - 1 ==> GoesRound(k, s, c, hs[i], fuel - i, hs[i + 1])
  }

  /** A loop opens one scope, takes some turns that lead to the next, and then a last one. */
  lemma LoopMeans(k: Arith, s: Stmt, c: Ctx, h: Heap, fuel: nat) returns (hs: seq<Heap>)
    requires ProperStmt(s) && IsLoop(s) && Scoped(c, h) && !Exec(k, s, c, h, fuel).OutOfFuel?
    ensures var inner := Ctx(c.scopes + [|h|], c.self);
            Turned(k, s, inner, hs, fuel) && hs[0] == h + [map[]]
            && EndsLoop(k, s, inner, hs[|hs| - 1], fuel + 1 - |hs|, Exec(k, s, c, h, fuel))
  {
    hs := Unrolled(k, s, Inner(c, h), h + [map[]], fuel);
  }

  /** One turn: it leads to the next, or it is the last. */
  lemma OneTurn(k: Arith, s: Stmt, c: Ctx, h: Heap, fuel: nat) returns (next: Option<Heap>)
    requires ProperStmt(s) && IsLoop(s) && Scoped(c, h) && !Turns(k, s, s.c, c, h, fuel).OutOfFuel?
    ensures next.None? ==> EndsLoop(k, s, c, h, fuel, Turns(k, s, s.c, c, h, fuel))
    ensures next.Some? ==> fuel > 0 && GoesRound(k, s, c, h, fuel, next.value) && Scoped(c, next.value)
                           && Turns(k, s, s.c, c, h, fuel) == Turns(k, s, s.c, c, next.value, fuel - 1)
  {
    next := None;
    var r := Eval(k, s.c, c, h);
    if r.Value? && !Falsy(k, r.v) {
      var e := BodyEnds(k, s, c, r.heap, fuel);
      if e.Normal? || e.Continued? {
        next := Some(e.heap);
      }
    }
  }

  lemma {:induction false} Unrolled(k: Arith, s: Stmt, c: Ctx, h: Heap, fuel: nat) returns (hs: seq<Heap>)
    requires ProperStmt(s) && IsLoop(s) && Scoped(c, h) && !Turns(k, s, s.c, c, h, fuel).OutOfFuel?
    ensures Turned(k, s, c, hs, fuel) && hs[0] == h
    ensures EndsLoop(k, s, c, hs[|hs| - 1], fuel + 1 - |hs|, Turns(k, s, s.c, c, h, fuel))
    decreases fuel
  {
    hide Turns, GoesRound, EndsLoop, Scoped;
    hs := [h];
    var next := OneTurn(k, s, c, h, fuel);
    if next.Some? {
      var rest := Unrolled(k, s, c, next.value, fuel - 1);
      hs := [h] + rest;
      assert forall i :: 1 <= i < |hs| - 1 ==> hs[i] == rest[i - 1] && hs[i + 1] == rest[i];
      assert forall i :: 0 <= i < |rest| - 1 ==> GoesRound(k, s, c, rest[i], fuel - 1 - i, rest[i + 1]);
    }
  }

  /** And conversely: turns of that kind make up the loop. */
  lemma {:induction false} LoopFollows(k: Arith, s: Stmt, c: Ctx, hs: seq<Heap>, fuel: nat, r: Ending)
    requires ProperStmt(s) && IsLoop(s) && Turned(k, s, c, hs, fuel) && EndsLoop(k, s, c, hs[|hs| - 1], fuel + 1 - |hs|, r)
    ensures Scoped(c, hs[0]) && Turns(k, s, s.c, c, hs[0], fuel) == r
    decreases |hs|
  {
    if |hs| > 1 {
      assert GoesRound(k, s, c, hs[0], fuel, hs[1]);
      forall i | 0 <= i < |hs| - 2
        ensures GoesRound(k, s, c, hs[1..][i], fuel - 1 - i, hs[1..][i + 1])
      {
        assert GoesRound(k, s, c, hs[i + 1], fuel - (i + 1), hs[i + 2]);
      }
      LoopFollows(k, s, c, hs[1..], fuel - 1, r);
    }
  }
}
