/** What programs of the fragment mean, by recursion over their trees. */
module Evaluate {
  import opened Options
  import opened Bytecode
  import opened Tokens
  import opened Syntax
  import opened Machine

  /** Where a program runs: the scopes, innermost last, and the value of `this`. */
  datatype Ctx = Ctx(scopes: seq<nat>, self: Val)

  datatype Outcome = Value(v: Val, heap: Heap) | Error(err: Err, heap: Heap)

  function LiteralValue(k: Arith, lit: Literal, self: Val): Val {
    match lit
    case LitFalse => Boolean(false)
    case LitTrue => Boolean(true)
    case LitUndefined => Undefined
    case LitNull => Null
    case LitThis => self
    case LitInteger(n) => Number(k.ofWhole(n))
    case LitFraction(text) => Number(k.ofText(text))
    case LitString(text) => Str(text)
  }

  /** Reading a variable. */
  function Variable(c: Ctx, h: Heap, x: Text): Outcome {
    match OwnerOf(h, c.scopes, x)
    case None => Error(ReferenceError, h)
    case Some(ref) => Value(h[ref][x], h)
  }

  function Settle(u: Updated): Outcome {
    if u.failed then Error(TypeError, u.heap) else Value(u.pushed, u.heap)
  }

  /** Incrementing or decrementing a variable. */
  function Crement(k: Arith, code: nat, c: Ctx, h: Heap, x: Text): Outcome
    requires IsStep(code)
  {
    match OwnerOf(h, c.scopes, x)
    case None => Error(ReferenceError, h)
    case Some(ref) => Settle(Update(k, code, h, ref, x, Undefined))
  }

  /** The tree evaluation of an expression, left to right. */
  function Eval(k: Arith, e: Expr, c: Ctx, h: Heap): (r: Outcome)
    requires Proper(e)
    ensures |r.heap| == |h|
  {
    match e
    case Lit(lit) => Value(LiteralValue(k, lit, c.self), h)
    case Ident(x) => Variable(c, h, x)
    case Paren(e) => Eval(k, e, c, h)
    case Unary(op, e) =>
      if IsCrement(op) then Crement(k, op, c, h, e.x) else
      (match Eval(k, e, c, h)
       case Error(err, h1) => Error(err, h1)
       case Value(v, h1) => Value(Transform(k, UnaryCode(op), v), h1))
    case Postfix(op, e) => Crement(k, PostfixCode(op), c, h, e.x)
    case Binary(op, l, r) =>
      (match Eval(k, l, c, h)
       case Error(err, h1) => Error(err, h1)
       case Value(a, h1) =>
         match Eval(k, r, c, h1)
         case Error(err, h2) => Error(err, h2)
         case Value(b, h2) =>
           match Combine(k, op, a, b)
           case Gives(v) => Value(v, h2)
           case Fails(err) => Error(err, h2))
    case Logical(op, l, r) =>
      (match Eval(k, l, c, h)
       case Error(err, h1) => Error(err, h1)
       case Value(a, h1) => if Truthy(k, a) == (op == TOK_LOGICAL_OR) then Value(a, h1) else Eval(k, r, c, h1))
    case Cond(p, t, f) =>
      (match Eval(k, p, c, h)
       case Error(err, h1) => Error(err, h1)
       case Value(a, h1) => if Truthy(k, a) then Eval(k, t, c, h1) else Eval(k, f, c, h1))
    case Assign(op, l, r) =>
      match OwnerOf(h, c.scopes, l.x)
      case None => Error(ReferenceError, h)
      case Some(ref) =>
        match Eval(k, r, c, h)
        case Error(err, h1) => Error(err, h1)
        case Value(v, h1) => Settle(Update(k, op, h1, ref, l.x, v))
  }

  /** A chain of `&&` or of `||` has the same outcome however it is nested, so the parser may nest it to the right. */
  lemma LogicalAssociates(k: Arith, op: nat, a: Expr, b: Expr, d: Expr, c: Ctx, h: Heap)
    requires IsLogical(op) && Proper(a) && Proper(b) && Proper(d)
    ensures Eval(k, Logical(op, Logical(op, a, b), d), c, h) == Eval(k, Logical(op, a, Logical(op, b, d)), c, h)
  {}

  /** A compound assignment yields the value from before it. When its operation fails, the variable has
      become `undefined` all the same. */
  lemma CompoundYieldsOld(k: Arith, op: nat, x: Text, e: Expr, c: Ctx, h: Heap)
    requires IsAssignOp(op) && op != TOK_ASSIGN && Proper(e)
    requires OwnerOf(h, c.scopes, x).Some? && Eval(k, e, c, h).Value?
    ensures var ref := OwnerOf(h, c.scopes, x).value;
            var right := Eval(k, e, c, h);
            var was := Load(right.heap, ref, x);
            var d := DoOp(k, BaseOp(op), was, right.v);
            var r := Eval(k, Assign(op, Ref(x), e), c, h);
            (if d.failed then r == Error(TypeError, r.heap) && d.v == Undefined else r == Value(was, r.heap))
            && Load(r.heap, ref, x) == d.v
  {
    hide DoOp;
    FailedIsUndefined(k, BaseOp(op), Load(Eval(k, e, c, h).heap, OwnerOf(h, c.scopes, x).value, x), Eval(k, e, c, h).v);
  }

  lemma FailedIsUndefined(k: Arith, op: nat, a: Val, b: Val)
    ensures DoOp(k, op, a, b).failed ==> DoOp(k, op, a, b).v == Undefined
  {}

  // ----- statements -----

  /** How a statement ends. `Broke` and `Continued` look for the innermost loop, `Returned` for the caller.
      `OutOfFuel` means more loop turns than allowed. */
  datatype Ending =
    | Normal(v: Val, heap: Heap)
    | Broke(heap: Heap)
    | Continued(heap: Heap)
    | Returned(v: Val, heap: Heap)
    | Failing(err: Err, heap: Heap)
    | OutOfFuel

  function EvalAll(k: Arith, es: Exprs, c: Ctx, h: Heap): (r: Outcome)
    requires ProperExprs(es)
    ensures |r.heap| == |h|
  {
    match es
    case One(e) => Eval(k, e, c, h)
    case More(e, rest) =>
      match Eval(k, e, c, h)
      case Error(err, h1) => Error(err, h1)
      case Value(_, h1) => EvalAll(k, rest, c, h1)
  }

  predicate ProperExprs(es: Exprs) {
    match es
    case One(e) => Proper(e)
    case More(e, rest) => Proper(e) && ProperExprs(rest)
  }

  predicate ProperDecls(ds: Decls) {
    match ds
    case NoDecls => true
    case Decl(_, init, _, rest) => (init.Some? ==> Proper(init.value)) && ProperDecls(rest)
  }

  /** How many values a `let` leaves behind: one for each variable that no comma follows. */
  function Kept(ds: Decls): nat {
    match ds
    case NoDecls => 0
    case Decl(_, _, comma, rest) => (if comma then 0 else 1) + Kept(rest)
  }

  /** Trees that compile to code with the stack effect of a statement: blocks have statements in them,
      and a `let` keeps one value. */
  predicate ProperStmt(s: Stmt) {
    match s
    case Empty => true
    case ExprStmt(es) => ProperExprs(es)
    case Let(ds) => ProperDecls(ds) && Kept(ds) == 1
    case Block(body) => ProperStmts(body)
    case If(c, t) => Proper(c) && ProperStmt(t)
    case IfElse(c, t, f) => Proper(c) && ProperStmt(t) && ProperStmt(f)
    case While(c, body) => Proper(c) && ProperStmts(body)
    case WhileOne(c, s) => Proper(c) && ProperStmt(s)
    case Break => true
    case Continue => true
    case Return(e) => e.Some? ==> Proper(e.value)
  }

  predicate ProperStmts(ss: Stmts) {
    match ss
    case NoStmts => false
    case Stmts(s, _, rest) => ProperStmt(s) && (rest.Stmts? ==> ProperStmts(rest))
  }

  datatype Declared = Declared(vs: seq<Val>, heap: Heap) | Undeclared(err: Err, heap: Heap)

  /** Declaring one variable in the innermost scope; the initialiser may see the variable it initialises. */
  function Declaration(k: Arith, x: Text, init: Option<Expr>, c: Ctx, h: Heap): (r: Outcome)
    requires c.scopes != [] && c.scopes[|c.scopes| - 1] < |h|
    requires init.Some? ==> Proper(init.value)
    ensures |r.heap| == |h|
  {
    var ref := c.scopes[|c.scopes| - 1];
    var h0 := Declare(h, ref, x);
    match init
    case None => Value(Undefined, h0)
    case Some(e) =>
      match Eval(k, e, c, h0)
      case Error(err, h1) => Error(err, h1)
      case Value(v, h1) => Value(v, Store(h1, ref, x, v))
  }

  function Declarations(k: Arith, ds: Decls, c: Ctx, h: Heap): (r: Declared)
    requires c.scopes != [] && c.scopes[|c.scopes| - 1] < |h|
    requires ProperDecls(ds)
    ensures |r.heap| == |h|
    ensures r.Declared? ==> |r.vs| == Kept(ds)
  {
    match ds
    case NoDecls => Declared([], h)
    case Decl(x, init, comma, rest) =>
      match Declaration(k, x, init, c, h)
      case Error(err, h1) => Undeclared(err, h1)
      case Value(v, h1) =>
        match Declarations(k, rest, c, h1)
        case Undeclared(err, h2) => Undeclared(err, h2)
        case Declared(vs, h2) => Declared((if comma then [] else [v]) + vs, h2)
  }

  /** Every scope is an object of the heap. */
  predicate Scoped(c: Ctx, h: Heap) {
    c.scopes != [] && forall i :: 0 <= i < |c.scopes| ==> c.scopes[i] < |h|
  }

  function Inner(c: Ctx, h: Heap): Ctx {
    c.(scopes := c.scopes + [|h|])
  }

  function Finish(r: Outcome): Ending {
    match r
    case Value(v, h) => Normal(v, h)
    case Error(err, h) => Failing(err, h)
  }

  predicate Grown(e: Ending, h: Heap) {
    !e.OutOfFuel? ==> |e.heap| >= |h|
  }

  /** The meaning of a statement. `fuel` bounds the turns of its loops, nothing else. */
  function Exec(k: Arith, s: Stmt, c: Ctx, h: Heap, fuel: nat): (r: Ending)
    requires ProperStmt(s) && Scoped(c, h)
    ensures Grown(r, h)
    decreases fuel, s, 3
  {
    match s
    case Empty => Normal(Undefined, h)
    case ExprStmt(es) => Finish(EvalAll(k, es, c, h))
    case Let(ds) =>
      (match Declarations(k, ds, c, h)
       case Declared(vs, h1) => Normal(vs[0], h1)
       case Undeclared(err, h1) => Failing(err, h1))
    case Block(body) => ExecAll(k, body, Inner(c, h), h + [map[]], fuel)
    case If(p, t) =>
      (match Eval(k, p, c, h)
       case Error(err, h1) => Failing(err, h1)
       case Value(v, h1) => if Truthy(k, v) then Exec(k, t, c, h1, fuel) else Normal(Undefined, h1))
    case IfElse(p, t, f) =>
      (match Eval(k, p, c, h)
       case Error(err, h1) => Failing(err, h1)
       case Value(v, h1) => if Truthy(k, v) then Exec(k, t, c, h1, fuel) else Exec(k, f, c, h1, fuel))
    case While(p, body) => Turns(k, s, p, Inner(c, h), h + [map[]], fuel)
    case WhileOne(p, body) => Turns(k, s, p, Inner(c, h), h + [map[]], fuel)
    case Break => Broke(h)
    case Continue => Continued(h)
    case Return(None) => Returned(Undefined, h)
    case Return(Some(e)) =>
      match Eval(k, e, c, h)
      case Error(err, h1) => Failing(err, h1)
      case Value(v, h1) => Returned(v, h1)
  }

  function ExecAll(k: Arith, ss: Stmts, c: Ctx, h: Heap, fuel: nat): (r: Ending)
    requires ProperStmts(ss) && Scoped(c, h)
    ensures Grown(r, h)
    decreases fuel, ss, 0
  {
    var r := Exec(k, ss.s, c, h, fuel);
    if r.Normal? && ss.rest.Stmts? then ExecAll(k, ss.rest, c, r.heap, fuel) else r
  }

  predicate IsLoop(s: Stmt) {
    s.While? || s.WhileOne?
  }

  function LoopBody(k: Arith, s: Stmt, c: Ctx, h: Heap, fuel: nat): (r: Ending)
    requires ProperStmt(s) && IsLoop(s) && Scoped(c, h)
    ensures Grown(r, h)
    decreases fuel, s, 1
  {
    if s.While? then ExecAll(k, s.body, c, h, fuel) else Exec(k, s.s, c, h, fuel)
  }

  /** The turns of the loop `s` on condition `p`, already inside the scope the loop opens. */
  function Turns(k: Arith, s: Stmt, p: Expr, c: Ctx, h: Heap, fuel: nat): (r: Ending)
    requires ProperStmt(s) && IsLoop(s) && Proper(p) && Scoped(c, h)
    ensures Grown(r, h)
    decreases fuel, s, 2
  {
    match Eval(k, p, c, h)
    case Error(err, h1) => Failing(err, h1)
    case Value(v, h1) =>
      if !Truthy(k, v) then Normal(Undefined, h1)
      else
        var r := LoopBody(k, s, c, h1, fuel);
        if r.Normal? || r.Continued? then
          if fuel == 0 then OutOfFuel else Turns(k, s, p, c, r.heap, fuel - 1)
        else if r.Broke? then Normal(Undefined, r.heap)
        else r
  }

  // ----- breaks that have no loop -----

  /** Every `break` and `continue` of `s` stands inside a loop of `s`. */
  predicate Contained(s: Stmt) {
    match s
    case Break => false
    case Continue => false
    case Block(body) => AllContained(body)
    case If(_, t) => Contained(t)
    case IfElse(_, t, f) => Contained(t) && Contained(f)
    case _ => true
  }

  predicate AllContained(ss: Stmts) {
    match ss
    case NoStmts => true
    case Stmts(s, _, rest) => Contained(s) && AllContained(rest)
  }

  /** The ending looks for a loop further out. */
  predicate Escapes(r: Ending) {
    r.Broke? || r.Continued?
  }

  /** No loop lets a `break` or a `continue` out. */
  lemma {:induction false} TurnsStay(k: Arith, s: Stmt, p: Expr, c: Ctx, h: Heap, fuel: nat)
    requires ProperStmt(s) && IsLoop(s) && Proper(p) && Scoped(c, h)
    ensures !Escapes(Turns(k, s, p, c, h, fuel))
    decreases fuel
  {
    hide Eval, LoopBody, Truthy, ProperStmt;
    var r := Eval(k, p, c, h);
    if r.Value? && Truthy(k, r.v) && fuel > 0 {
      var b := LoopBody(k, s, c, r.heap, fuel);
      if b.Normal? || b.Continued? {
        TurnsStay(k, s, p, c, b.heap, fuel - 1);
      }
    }
  }

  lemma {:induction false} ContainedStays(k: Arith, s: Stmt, c: Ctx, h: Heap, fuel: nat)
    requires ProperStmt(s) && Scoped(c, h) && Contained(s)
    ensures !Escapes(Exec(k, s, c, h, fuel))
    decreases s
  {
    hide Eval, Declarations, Turns, Truthy;
    match s
    case Block(body) => AllContainedStay(k, body, Inner(c, h), h + [map[]], fuel);
    case If(p, t) =>
      var v := Eval(k, p, c, h);
      if v.Value? {
        ContainedStays(k, t, c, v.heap, fuel);
      }
    case IfElse(p, t, f) =>
      var v := Eval(k, p, c, h);
      if v.Value? {
        ContainedStays(k, t, c, v.heap, fuel);
        ContainedStays(k, f, c, v.heap, fuel);
      }
    case While(p, _) => TurnsStay(k, s, p, Inner(c, h), h + [map[]], fuel);
    case WhileOne(p, _) => TurnsStay(k, s, p, Inner(c, h), h + [map[]], fuel);
    case _ =>
  }

  lemma {:induction false} AllContainedStay(k: Arith, ss: Stmts, c: Ctx, h: Heap, fuel: nat)
    requires ProperStmts(ss) && Scoped(c, h) && AllContained(ss)
    ensures !Escapes(ExecAll(k, ss, c, h, fuel))
    decreases ss
  {
    hide Exec;
    ContainedStays(k, ss.s, c, h, fuel);
    var r := Exec(k, ss.s, c, h, fuel);
    if r.Normal? && ss.rest.Stmts? {
      AllContainedStay(k, ss.rest, c, r.heap, fuel);
    }
  }
}
