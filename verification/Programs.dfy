/** Whole runs of compiled code: stack discipline, calls and returns, and where they fail. */
module Programs {
  import opened Varint
  import opened Bytecode
  import opened Syntax
  import opened Grammar
  import opened Machine
  import opened Evaluate
  import opened ExprRuns
  import opened StmtRuns
  import opened Interpreter

  // ----- parsed expressions -----

  /** Without assignments, increments and decrements, evaluation changes no variable. */
  lemma {:induction false} PureKeepsHeap(k: Arith, e: Expr, c: Ctx, h: Heap)
    requires Pure(e) && Proper(e)
    ensures Eval(k, e, c, h).heap == h
  {
    hide Combine, Transform, Truthy, OwnerOf, Update;
    match e
    case Paren(e) => PureKeepsHeap(k, e, c, h);
    case Unary(_, e) => PureKeepsHeap(k, e, c, h);
    case Binary(_, l, r) =>
      PureKeepsHeap(k, l, c, h);
      PureKeepsHeap(k, r, c, h);
    case Logical(_, l, r) =>
      PureKeepsHeap(k, l, c, h);
      PureKeepsHeap(k, r, c, h);
    case Cond(p, t, f) =>
      PureKeepsHeap(k, p, c, h);
      PureKeepsHeap(k, t, c, h);
      PureKeepsHeap(k, f, c, h);
    case _ =>
  }

  /** Some run of the code between `lo` and `hi` ends as the outcome `r` says: with its value pushed and nothing
      else changed but the heap, or stopped with its error. */
  ghost predicate Computes(k: Arith, code: seq<Byte>, lo: int, hi: int, m: Machine, r: Outcome) {
    exists n: nat, z: Machine :: Runs(k, code, lo, hi, m, z, n) && After(r, m, hi, z)
  }

  /** Compiled expressions compute what their trees mean. */
  lemma CompiledExpression(k: Arith, code: seq<Byte>, at: nat, e: Expr, m: Machine)
    requires Ready(code, at, Code(e), m) && Proper(e)
    ensures Computes(k, code, at, at + |Code(e)|, m, Eval(k, e, CtxOf(m), m.heap))
  {
    hide Runs, After, Eval, Code;
    var n, z := RunExpr(k, code, at, e, m);
  }

  /** Whatever the parser accepts of literals, variables, unary and binary operators, `&&`, `||` and `?:`: the
      code it emitted computes what the tree it recognised means, and no variable changes. */
  lemma ParsedExpressionRuns(k: Arith, toks: seq<Token>, start: int, pos: int, base: seq<Byte>, code: seq<Byte>, e: Expr,
                             m: Machine)
    requires Parsed(toks, start, pos, base, code, e, ASSIGN_LEVEL)
    requires Pure(e) && !Updates(KindIn(toks, start - 1), KindIn(toks, pos))
    requires Small(code) && m.pc == |base| && m.status == Running
    ensures Proper(e) && Computes(k, code, |base|, |code|, m, Eval(k, e, CtxOf(m), m.heap))
    ensures Eval(k, e, CtxOf(m), m.heap).heap == m.heap
  {
    hide Computes, Eval, Code, Fits, Placed, Proper, Pure, Written;
    PureIsProper(e, ASSIGN_LEVEL, KindIn(toks, start - 1), KindIn(toks, pos));
    PureKeepsHeap(k, e, CtxOf(m), m.heap);
    CompiledExpression(k, code, |base|, e, m);
  }

  // ----- every run of a statement -----

  /** No frame around the statement leads back into it. */
  predicate LeadsOut(m: Machine, lo: int, hi: int) {
    (m.loops != [] ==> !(lo <= TopLoop(m).brk <= hi) && !(lo <= TopLoop(m).cont <= hi))
    && (m.calls != [] ==> !(lo <= TopCall(m).ret + 1 <= hi))
  }

  /** Where a statement ends, the machine has stopped, is behind it, or is away from it. */
  lemma EndedOutside(r: Ending, m: Machine, lo: int, hi: int, z: Machine, n: nat, fuel: nat)
    requires lo <= hi && Framed(m) && LeadsOut(m, lo, hi) && Ends(r, m, hi, z, n, fuel) && n < fuel
    ensures z.status == Running ==> !(lo <= z.pc < hi)
    ensures z.status == Running && z.pc == hi ==> r.Normal? && z == With(m, hi, r.v, r.heap)
  {}

  /** A run that has left its code is over. */
  lemma Stuck(k: Arith, code: seq<Byte>, lo: int, hi: int, a: Machine, b: Machine, n: nat)
    requires Runs(k, code, lo, hi, a, b, n)
    requires a.status != Running || !(lo <= a.pc < hi)
    ensures n == 0 && a == b
  {}

  /** Whatever the run, when it first reaches the end of a statement the stack is one value higher, and scopes,
      loops and calls are as they were when it began. The value and the heap are those the tree gives. */
  lemma StackDiscipline(k: Arith, code: seq<Byte>, at: nat, s: Stmt, m: Machine, c: Machine, n: nat)
    returns (v: Val, h: Heap)
    requires ReadyStmt(code, at, StmtCode(s), m) && ProperStmt(s)
    requires LeadsOut(m, at, at + |StmtCode(s)|)
    requires Runs(k, code, at, at + |StmtCode(s)|, m, c, n) && c.pc == at + |StmtCode(s)| && c.status == Running
    ensures c == With(m, at + |StmtCode(s)|, v, h)
    ensures Scoped(CtxOf(m), m.heap)
    ensures Exec(k, s, CtxOf(m), m.heap, n + 1) == Normal(v, h)
  {
    hide Exec, Framed, Runs, Lies, StmtCode, Scoped, Ends, LeadsOut;
    FramedScoped(m);
    var hi := at + |StmtCode(s)|;
    var n1, z := RunStmt(k, code, at, s, m, n + 1);
    var r := Exec(k, s, CtxOf(m), m.heap, n + 1);
    if n < n1 {
      SamePath(k, code, at, hi, m, c, n, at, hi, z, n1);
      Stuck(k, code, at, hi, c, z, n1 - n);
    }
    SamePath(k, code, at, hi, m, z, n1, at, hi, c, n);
    EndedOutside(r, m, at, hi, z, n1, n + 1);
    Stuck(k, code, at, hi, z, c, n - n1);
    v, h := r.v, r.heap;
  }

  /** A statement whose tree needs more than `fuel` turns keeps the machine inside its code for that long. */
  lemma StaysInside(k: Arith, code: seq<Byte>, at: nat, s: Stmt, m: Machine, fuel: nat) returns (c: Machine)
    requires ReadyStmt(code, at, StmtCode(s), m) && ProperStmt(s) && Scoped(CtxOf(m), m.heap)
    requires Exec(k, s, CtxOf(m), m.heap, fuel) == OutOfFuel
    ensures Runs(k, code, at, at + |StmtCode(s)|, m, c, fuel)
  {
    hide Exec, Framed, Lies, StmtCode, Scoped, Runs;
    var n, z := RunStmt(k, code, at, s, m, fuel);
    c := Prefix(k, code, at, at + |StmtCode(s)|, m, z, n, fuel);
  }

  lemma {:induction false} Prefix(k: Arith, code: seq<Byte>, lo: int, hi: int, a: Machine, b: Machine, n: nat, n1: nat)
    returns (c: Machine)
    requires Runs(k, code, lo, hi, a, b, n) && n1 <= n
    ensures Runs(k, code, lo, hi, a, c, n1)
    decreases n1
  {
    hide Step;
    if n1 == 0 {
      c := a;
    } else {
      c := Prefix(k, code, lo, hi, Step(k, code, a), b, n - 1, n1 - 1);
    }
  }

  // ----- where the discipline fails -----

  /** A `let` leaves one value for each of its variables that no comma follows, so it has the stack effect of a
      statement exactly when there is one such variable. */
  lemma LetDiscipline(k: Arith, code: seq<Byte>, at: nat, ds: Decls, m: Machine) returns (n: nat, z: Machine)
    requires ReadyStmt(code, at, DeclsCode(ds), m) && ProperDecls(ds)
    ensures Runs(k, code, at, at + |DeclsCode(ds)|, m, z, n)
    ensures Scoped(CtxOf(m), m.heap)
    ensures Declarations(k, ds, CtxOf(m), m.heap).Declared? ==>
            z.status == Running && |z.stack| == |m.stack| + Kept(ds) && (|z.stack| == |m.stack| + 1 <==> Kept(ds) == 1)
  {
    hide Runs, Lies, Declarations, DeclsCode;
    n, z := RunDecls(k, code, at, ds, m);
  }

  /** A block is a statement when its statements are proper; an empty one leaves nothing. */
  lemma EmptyBlock(k: Arith, code: seq<Byte>, at: nat, m: Machine) returns (z: Machine)
    requires ReadyStmt(code, at, StmtCode(Block(NoStmts)), m)
    ensures Runs(k, code, at, at + |StmtCode(Block(NoStmts))|, m, z, 2)
    ensures z == m.(pc := at + |StmtCode(Block(NoStmts))|, heap := m.heap + [map[]])
  {
    hide Runs, Lies;
    assert StmtCode(Block(NoStmts)) == Asm(NewScope) + Asm(DelScope);
    LiesSplit(code, at, Asm(NewScope), Asm(DelScope));
    var y := RunSimple(k, code, at, NewScope, m);
    z := RunSimple(k, code, at + 1, DelScope, y);
    assert y.scopes[..|y.scopes| - 1] == m.scopes;
    Join(k, code, at, at + 2, m, at, at + 1, y, 1, at + 1, at + 2, z, 1);
  }

  // ----- calls -----

  function ArgsCode(params: seq<Text>, from: nat): seq<Byte>
    requires from <= |params|
    decreases |params| - from
  {
    if from == |params| then [] else Asm(SetArg(from, params[from])) + ArgsCode(params, from + 1)
  }

  /** The body `parse_function` emits, from where a call enters it. */
  function FunctionCode(params: seq<Text>, body: Stmts): seq<Byte> {
    Asm(NewScope) + ArgsCode(params, 0) + StmtsCode(body) + Asm(Instr.Return)
  }

  function ArgAt(argv: seq<Val>, i: nat): Val {
    if i < |argv| then argv[i] else Undefined
  }

  /** The heap once the parameters from `from` on are set in the scope `ref`. */
  function Bind(h: Heap, ref: nat, params: seq<Text>, argv: seq<Val>, from: nat): (r: Heap)
    requires ref < |h| && from <= |params|
    ensures |r| == |h|
    decreases |params| - from
  {
    if from == |params| then h
    else Bind(Store(h, ref, params[from], ArgAt(argv, from)), ref, params, argv, from + 1)
  }

  /** `m` is about to call the function at `addr` with `argv`, the callee and the arguments on top of `below`. */
  predicate Calling(m: Machine, below: seq<Val>, addr: nat, argv: seq<Val>) {
    m.stack == below + [Func(addr)] + argv && m.args != [] && m.args[|m.args| - 1].size == |below| + 1
  }

  /** The machine at the start of the body. */
  function InCall(m: Machine, below: seq<Val>, addr: nat, argv: seq<Val>): Machine
    requires Calling(m, below, addr, argv)
  {
    m.(pc := addr, stack := below + [Undefined] + argv,
       calls := m.calls + [CallFrame(m.self, m.pc, |m.scopes|, |m.loops|, |below| + 1)],
       args := m.args[..|m.args| - 1], self := m.args[|m.args| - 1].self)
  }

  /** The caller again, with the result in place of callee and arguments. */
  function CallDone(m: Machine, below: seq<Val>, v: Val, h: Heap): Machine
    requires m.args != []
  {
    m.(pc := m.pc + 1, stack := below + [v], args := m.args[..|m.args| - 1], heap := h)
  }

  /** The caller's frame is deep enough for everything the body needs. */
  predicate CallReady(code: seq<Byte>, m: Machine, below: seq<Val>, addr: nat, argv: seq<Val>, params: seq<Text>, body: Stmts) {
    Ready(code, m.pc, Asm(Call), m) && Lies(code, addr, FunctionCode(params, body)) && Calling(m, below, addr, argv)
    && Scoped(CtxOf(m), m.heap) && (m.loops != [] ==> TopLoop(m).scopes <= |m.scopes|) && m.pc != OFFSET_EXIT
    && ProperStmts(body)
  }

  /** The instruction that enters a function. */
  lemma RunEnter(k: Arith, code: seq<Byte>, m: Machine, below: seq<Val>, addr: nat, argv: seq<Val>)
    requires Ready(code, m.pc, Asm(Call), m) && Calling(m, below, addr, argv)
    ensures Runs(k, code, m.pc, m.pc + 1, m, InCall(m, below, addr, argv), 1)
  {
    hide Runs;
    var z := RunSimple(k, code, m.pc, Call, m);
    assert (below + [Func(addr)] + argv)[|below| := Undefined] == below + [Undefined] + argv;
  }

  /** The frame of the running call, with its arguments on top of the stack. */
  predicate HasArgs(m: Machine, argv: seq<Val>) {
    Scoped(CtxOf(m), m.heap) && m.calls != [] && TopCall(m).retval > 0
    && |m.stack| == TopCall(m).retval + |argv| && m.stack[TopCall(m).retval..] == argv
  }

  lemma RunArg(k: Arith, code: seq<Byte>, at: nat, x: Text, from: nat, argv: seq<Val>, m: Machine) returns (z: Machine)
    requires from <= INT_MAX && Ready(code, at, Asm(SetArg(from, x)), m) && HasArgs(m, argv)
    ensures var next := at + |Asm(SetArg(from, x))|;
            Runs(k, code, at, next, m, z, 1)
            && z == m.(pc := next, heap := Store(m.heap, Innermost(m), x, ArgAt(argv, from)))
    ensures HasArgs(z, argv)
  {
    hide Runs, Lies, Encode, Store;
    var i := SetArg(from, x);
    LiesWithin(code, at, Asm(i));
    RunOne(k, code, at, i, m);
    z := Do(k, i, at + |Asm(i)|, m);
    assert from < |argv| ==> argv[from] == m.stack[TopCall(m).retval + from];
  }

  /** Every parameter receives its argument, or `undefined` when there is none. */
  lemma {:induction false} RunArgs(k: Arith, code: seq<Byte>, at: nat, params: seq<Text>, from: nat, argv: seq<Val>, m: Machine)
    returns (n: nat, z: Machine)
    requires from <= |params| <= INT_MAX && Ready(code, at, ArgsCode(params, from), m) && HasArgs(m, argv)
    ensures Runs(k, code, at, at + |ArgsCode(params, from)|, m, z, n)
    ensures Innermost(m) < |m.heap|
    ensures z == m.(pc := at + |ArgsCode(params, from)|, heap := Bind(m.heap, Innermost(m), params, argv, from))
    decreases |params| - from
  {
    hide Runs, Lies, Asm, Store;
    if from == |params| {
      n, z := 0, m;
      RunNone(k, code, at, at, m);
      return;
    }
    var i := SetArg(from, params[from]);
    var a := at + |Asm(i)|;
    var hi := at + |ArgsCode(params, from)|;
    LiesSplit(code, at, Asm(i), ArgsCode(params, from + 1));
    var y := RunArg(k, code, at, params[from], from, argv, m);
    var n1: nat;
    n1, z := RunArgs(k, code, a, params, from + 1, argv, y);
    n := 1 + n1;
    Join(k, code, at, hi, m, at, a, y, 1, a, hi, z, n1);
  }

  /** The context and the heap in which the body of a call runs. */
  function BodyCtx(m: Machine): Ctx
    requires m.args != []
  {
    Ctx(m.scopes + [|m.heap|], m.args[|m.args| - 1].self)
  }

  function BodyHeap(m: Machine, params: seq<Text>, argv: seq<Val>): Heap {
    Bind(m.heap + [map[]], |m.heap|, params, argv, 0)
  }

  /** The body starts in a new scope with the parameters and nothing else: a parameter has its argument, or `undefined` when
      there is none; of parameters of the same name the last one counts. Everything else on the heap is as it was. */
  lemma BodyNames(m: Machine, params: seq<Text>, argv: seq<Val>)
    ensures var h := BodyHeap(m, params, argv);
            |h| == |m.heap| + 1 && h[..|m.heap|] == m.heap
            && (forall x :: x in h[|m.heap|] <==> x in params)
            && forall i :: 0 <= i < |params| && params[i] !in params[i + 1..] ==>
                 h[|m.heap|][params[i]] == if i < |argv| then argv[i] else Undefined
  {
    BoundNames(m.heap + [map[]], |m.heap|, params, argv, 0);
    assert params[0..] == params;
  }

  lemma {:induction false} BoundNames(h: Heap, ref: nat, params: seq<Text>, argv: seq<Val>, from: nat)
    requires ref < |h| && from <= |params|
    ensures var r := Bind(h, ref, params, argv, from);
            (forall j :: 0 <= j < |h| && j != ref ==> r[j] == h[j])
            && (forall x :: x in r[ref] <==> x in h[ref] || x in params[from..])
            && (forall x :: x in h[ref] && x !in params[from..] ==> r[ref][x] == h[ref][x])
            && forall i :: from <= i < |params| && params[i] !in params[i + 1..] ==>
                 r[ref][params[i]] == if i < |argv| then argv[i] else Undefined
    decreases |params| - from
  {
    if from < |params| {
      var y := Store(h, ref, params[from], ArgAt(argv, from));
      BoundNames(y, ref, params, argv, from + 1);
      assert params[from..] == [params[from]] + params[from + 1..];
    }
  }

  /** The machine at the first statement of the body. */
  function AtBody(m: Machine, below: seq<Val>, addr: nat, argv: seq<Val>, params: seq<Text>): Machine
    requires Calling(m, below, addr, argv)
  {
    InCall(m, below, addr, argv).(pc := addr + 1 + |ArgsCode(params, 0)|, scopes := m.scopes + [|m.heap|],
                                  heap := BodyHeap(m, params, argv))
  }

  lemma FunctionLies(code: seq<Byte>, addr: nat, params: seq<Text>, body: Stmts)
    requires Lies(code, addr, FunctionCode(params, body))
    ensures Lies(code, addr, Asm(NewScope)) && Lies(code, addr + 1, ArgsCode(params, 0))
    ensures Lies(code, addr + 1 + |ArgsCode(params, 0)|, StmtsCode(body))
    ensures Lies(code, addr + 1 + |ArgsCode(params, 0)| + |StmtsCode(body)|, Asm(Instr.Return))
    ensures |FunctionCode(params, body)| == 1 + |ArgsCode(params, 0)| + |StmtsCode(body)| + 1
  {
    hide Lies, ArgsCode, StmtsCode;
    var start := Asm(NewScope) + ArgsCode(params, 0);
    LiesSplit(code, addr, start + StmtsCode(body), Asm(Instr.Return));
    LiesSplit(code, addr, start, StmtsCode(body));
    LiesSplit(code, addr, Asm(NewScope), ArgsCode(params, 0));
  }

  /** The first byte behind the code of a function. */
  function CodeEnd(addr: nat, params: seq<Text>, body: Stmts): nat {
    addr + |FunctionCode(params, body)|
  }

  /** The instruction at hand is a call, and `n` steps inside the bytes of the function lead to `z`. */
  ghost predicate CallRuns(k: Arith, code: seq<Byte>, m: Machine, addr: nat, behind: nat, z: Machine, n: nat) {
    0 <= m.pc < |code| && m.status == Running && Runs(k, code, addr, behind, Step(k, code, m), z, n)
  }

  lemma RunsOne(k: Arith, code: seq<Byte>, lo: int, hi: int, a: Machine, b: Machine)
    requires Runs(k, code, lo, hi, a, b, 1)
    ensures lo <= a.pc < hi && a.status == Running && Step(k, code, a) == b
  {
    hide Step;
  }

  /** From the call to the first statement of the body. */
  lemma RunPrologue(k: Arith, code: seq<Byte>, m: Machine, below: seq<Val>, addr: nat, argv: seq<Val>, params: seq<Text>,
                    body: Stmts) returns (n: nat)
    requires CallReady(code, m, below, addr, argv, params, body) && |params| <= INT_MAX
    ensures CallRuns(k, code, m, addr, CodeEnd(addr, params, body), AtBody(m, below, addr, argv, params), n)
    ensures Framed(AtBody(m, below, addr, argv, params))
  {
    hide Runs, Lies, ArgsCode, StmtsCode, FunctionCode, Bind, ProperStmts, Step;
    FunctionLies(code, addr, params, body);
    LiesWithin(code, addr + 1, ArgsCode(params, 0));
    LiesWithin(code, m.pc, Asm(Call));
    RunEnter(k, code, m, below, addr, argv);
    var y, hi := InCall(m, below, addr, argv), CodeEnd(addr, params, body);
    RunsOne(k, code, m.pc, m.pc + 1, m, y);
    var w := RunSimple(k, code, addr, NewScope, y);
    assert (below + [Undefined] + argv)[|below| + 1..] == argv;
    var n1, z := RunArgs(k, code, addr + 1, params, 0, argv, w);
    Join(k, code, addr, hi, y, addr, addr + 1, w, 1, addr + 1, addr + 1 + |ArgsCode(params, 0)|, z, n1);
    n := 1 + n1;
  }

  /** Falling off the end of a body returns `undefined`. */
  lemma RunFallOff(k: Arith, code: seq<Byte>, m: Machine, below: seq<Val>, addr: nat, argv: seq<Val>, params: seq<Text>,
                   at: nat, v: Val, h: Heap) returns (z: Machine)
    requires Calling(m, below, addr, argv) && m.pc != OFFSET_EXIT && m.status == Running
    requires Small(code) && Lies(code, at, Asm(Instr.Return))
    ensures Runs(k, code, at, at + 1, With(AtBody(m, below, addr, argv, params), at, v, h), z, 1)
    ensures z == CallDone(m, below, Undefined, h)
  {
    hide Runs, Lies, BodyHeap, ArgsCode;
    var y := AtBody(m, below, addr, argv, params);
    var x := With(y, at, v, h);
    z := RunSimple(k, code, at, Instr.Return, x);
    assert x.stack[..|below| + 1] == below + [Undefined];
    assert Cut(x.scopes, |m.scopes|) == m.scopes;
    assert y.calls[..|y.calls| - 1] == m.calls;
  }

  /** The machine at the caller's innermost loop, with the call still open: where a `break` or a `continue`
      leads that has no loop in the body. */
  function Escaped(m: Machine, below: seq<Val>, addr: nat, argv: seq<Val>, r: Ending): Machine
    requires Calling(m, below, addr, argv) && Escapes(r) && m.loops != [] && TopLoop(m).scopes <= |m.scopes|
  {
    var y, f := InCall(m, below, addr, argv), TopLoop(m);
    if r.Broke? then
      y.(pc := f.brk, stack := y.stack + [Undefined], scopes := m.scopes[..f.scopes], loops := m.loops[..|m.loops| - 1], heap := r.heap)
    else
      y.(pc := f.cont, scopes := m.scopes[..f.scopes], heap := r.heap)
  }

  /** How a call comes out when its body ends as `r` says. */
  ghost predicate CallEnded(r: Ending, m: Machine, below: seq<Val>, addr: nat, argv: seq<Val>, z: Machine, n: nat, fuel: nat)
    requires Calling(m, below, addr, argv) && (m.loops != [] ==> TopLoop(m).scopes <= |m.scopes|)
  {
    match r
    case Normal(_, h) => z == CallDone(m, below, Undefined, h)
    case Returned(v, h) => z == CallDone(m, below, v, h)
    case Failing(err, h) => Stops(z, err, h)
    case OutOfFuel => n >= fuel
    case _ => if m.loops == [] then Stops(z, SyntaxError, r.heap) else z == Escaped(m, below, addr, argv, r)
  }

  /** How a call ends when its body is left early. */
  lemma CallEnds(m: Machine, below: seq<Val>, addr: nat, argv: seq<Val>, params: seq<Text>, r: Ending, pc: int, x: Machine,
                 n: nat, fuel: nat)
    requires Calling(m, below, addr, argv) && m.pc != OFFSET_EXIT && m.status == Running
    requires Framed(AtBody(m, below, addr, argv, params)) && Ends(r, AtBody(m, below, addr, argv, params), pc, x, n, fuel)
    requires m.loops != [] ==> TopLoop(m).scopes <= |m.scopes|
    ensures !r.Normal? ==> CallEnded(r, m, below, addr, argv, x, n, fuel)
  {
    hide BodyHeap, ArgsCode, Scoped;
    var y := AtBody(m, below, addr, argv, params);
    assert y.calls[..|y.calls| - 1] == m.calls;
    assert y.stack[..|below|] == below;
    assert y.scopes[..|m.scopes|] == m.scopes && y.loops[..|m.loops|] == m.loops;
    if m.loops != [] {
      assert y.scopes[..TopLoop(m).scopes] == m.scopes[..TopLoop(m).scopes];
    }
  }

  lemma NormalEnd(r: Ending, m: Machine, pc: int, z: Machine, n: nat, fuel: nat)
    requires Framed(m) && Ends(r, m, pc, z, n, fuel)
    ensures r.Normal? ==> z == With(m, pc, r.v, r.heap)
  {}

  lemma RunCall(k: Arith, code: seq<Byte>, m: Machine, below: seq<Val>, addr: nat, argv: seq<Val>,
                params: seq<Text>, body: Stmts, fuel: nat) returns (n: nat, z: Machine)
    requires CallReady(code, m, below, addr, argv, params, body) && |params| <= INT_MAX
    ensures CallRuns(k, code, m, addr, CodeEnd(addr, params, body), z, n)
    ensures Scoped(BodyCtx(m), BodyHeap(m, params, argv))
    ensures CallEnded(ExecAll(k, body, BodyCtx(m), BodyHeap(m, params, argv), fuel), m, below, addr, argv, z, n, fuel)
  {
    hide Runs, Lies, ArgsCode, StmtsCode, FunctionCode, BodyHeap, ProperStmts, ExecAll, Framed, Ends, Scoped, Step;
    var y := AtBody(m, below, addr, argv, params);
    FunctionLies(code, addr, params, body);
    var n1 := RunPrologue(k, code, m, below, addr, argv, params, body);
    var start, hi := Step(k, code, m), CodeEnd(addr, params, body);
    FramedScoped(y);
    LiesWithin(code, y.pc, StmtsCode(body));
    var n2, x := RunAll(k, code, y.pc, body, y, fuel);
    Join(k, code, addr, hi, start, addr, hi, y, n1, y.pc, y.pc + |StmtsCode(body)|, x, n2);
    var r := ExecAll(k, body, CtxOf(y), y.heap, fuel);
    NormalEnd(r, y, y.pc + |StmtsCode(body)|, x, n2, fuel);
    n, z := n1 + n2, x;
    if r.Normal? {
      z := RunFallOff(k, code, m, below, addr, argv, params, y.pc + |StmtsCode(body)|, r.v, r.heap);
      LiesWithin(code, x.pc, Asm(Instr.Return));
      Join(k, code, addr, hi, start, addr, hi, x, n, x.pc, x.pc + 1, z, 1);
      n := n + 1;
    } else {
      CallEnds(m, below, addr, argv, params, r, y.pc + |StmtsCode(body)|, x, n2, fuel);
    }
  }

  /** Some run of the call ends as the body `r` does; until then the machine stays inside the function. */
  ghost predicate CallBehaves(k: Arith, code: seq<Byte>, m: Machine, below: seq<Val>, addr: nat, behind: nat, argv: seq<Val>,
                              r: Ending, fuel: nat)
    requires Calling(m, below, addr, argv) && (m.loops != [] ==> TopLoop(m).scopes <= |m.scopes|)
  {
    exists n: nat, z: Machine :: CallRuns(k, code, m, addr, behind, z, n) && CallEnded(r, m, below, addr, argv, z, n, fuel)
  }

  /** A call puts the result of the body in place of callee and arguments, and gives back scopes, loops, calls
      and `this` as they were, however deeply blocks and loops were nested around the return. Only a `break` or a
      `continue` outside the loops of the body leads to the caller's loop instead, and not out of the call. */
  lemma CallRestores(k: Arith, code: seq<Byte>, m: Machine, below: seq<Val>, addr: nat, argv: seq<Val>,
                     params: seq<Text>, body: Stmts, fuel: nat)
    requires CallReady(code, m, below, addr, argv, params, body) && |params| <= INT_MAX
    ensures CallBehaves(k, code, m, below, addr, CodeEnd(addr, params, body), argv,
                        ExecAll(k, body, BodyCtx(m), BodyHeap(m, params, argv), fuel), fuel)
    ensures AllContained(body) ==> !Escapes(ExecAll(k, body, BodyCtx(m), BodyHeap(m, params, argv), fuel))
  {
    hide Runs, CallRuns, ExecAll, BodyHeap, Scoped, CallEnded, Lies, ProperStmts, AllContained, FunctionCode, Asm;
    var n, z := RunCall(k, code, m, below, addr, argv, params, body, fuel);
    if AllContained(body) {
      AllContainedStay(k, body, BodyCtx(m), BodyHeap(m, params, argv), fuel);
    }
  }

  /** The call has given way to its result, has stopped with an error, or is still inside the function after as many
      steps as `fuel`. */
  ghost predicate Completes(k: Arith, code: seq<Byte>, m: Machine, below: seq<Val>, addr: nat, behind: nat, fuel: nat)
    requires m.args != []
  {
    exists n: nat, z: Machine ::
      CallRuns(k, code, m, addr, behind, z, n)
      && (n >= fuel || z.status.Failed? || exists v: Val, h: Heap :: z == CallDone(m, below, v, h))
  }

  /** A body in which every `break` and `continue` has its loop never gets at the loops of its caller. */
  lemma ContainedCallCompletes(k: Arith, code: seq<Byte>, m: Machine, below: seq<Val>, addr: nat, argv: seq<Val>,
                               params: seq<Text>, body: Stmts, fuel: nat)
    requires CallReady(code, m, below, addr, argv, params, body) && |params| <= INT_MAX && AllContained(body)
    ensures Completes(k, code, m, below, addr, CodeEnd(addr, params, body), fuel)
  {
    hide Runs, CallRuns, ExecAll, BodyHeap, Scoped, Lies, ProperStmts, AllContained, CallDone, Asm, FunctionCode;
    var n, z := RunCall(k, code, m, below, addr, argv, params, body, fuel);
    AllContainedStay(k, body, BodyCtx(m), BodyHeap(m, params, argv), fuel);
  }

  const JUST_BREAK: Stmts := Stmts(Stmt.Break, 0, NoStmts)

  /** A function whose body is `break`, called inside a loop: the machine goes on behind that loop, one frame too
      deep, and the call never returns. */
  lemma BreakEscapes(k: Arith, code: seq<Byte>, m: Machine, below: seq<Val>, addr: nat, argv: seq<Val>) returns (n: nat, z: Machine)
    requires CallReady(code, m, below, addr, argv, [], JUST_BREAK) && m.loops != []
    ensures CallRuns(k, code, m, addr, CodeEnd(addr, [], JUST_BREAK), z, n)
    ensures z.status == Running && z.pc == TopLoop(m).brk && z.loops == m.loops[..|m.loops| - 1]
    ensures |z.calls| == |m.calls| + 1 && z.stack == below + [Undefined] + argv + [Undefined]
  {
    hide Runs, CallRuns, Lies, FunctionCode, Asm, Scoped;
    n, z := RunCall(k, code, m, below, addr, argv, [], JUST_BREAK, 0);
    assert ExecAll(k, JUST_BREAK, BodyCtx(m), BodyHeap(m, [], argv), 0).Broke?;
  }

  /** A function at byte 1 is about to be called, without arguments, from inside a loop. */
  function CallerInLoop(brk: int, cont: int): Machine {
    Machine(0, Running, [Func(1)], [0], [LoopFrame(1, brk, cont)], [], [ArgFrame(Undefined, 1)], Undefined, [map[]])
  }

  /** Such a call exists, wherever the loop leads. */
  lemma BreakEscapesSomewhere(brk: int, cont: int)
    ensures var code := Asm(Call) + FunctionCode([], JUST_BREAK);
            var m := CallerInLoop(brk, cont);
            CallReady(code, m, [], 1, [], [], JUST_BREAK) && m.loops != [] && TopLoop(m).brk == brk
  {
    var code := Asm(Call) + FunctionCode([], JUST_BREAK);
    var m := CallerInLoop(brk, cont);
    assert code[0..1] == Asm(Call);
    assert code[1..] == FunctionCode([], JUST_BREAK);
  }

  // ----- whole programs -----

  /** The machine takes `n` steps before it can have stopped. */
  ghost predicate Busy(k: Arith, code: seq<Byte>, m: Machine, n: nat) {
    forall i: nat :: i < n ==> RunFor(k, code, m, i).status == Running
  }

  lemma {:induction false} RunsIsRunFor(k: Arith, code: seq<Byte>, lo: int, hi: int, a: Machine, b: Machine, n: nat)
    requires Runs(k, code, lo, hi, a, b, n)
    ensures RunFor(k, code, a, n) == b && Busy(k, code, a, n)
    decreases n
  {
    hide Step;
    if n > 0 {
      var y := Step(k, code, a);
      RunsIsRunFor(k, code, lo, hi, y, b, n - 1);
      forall i: nat | 0 < i < n
        ensures RunFor(k, code, a, i).status == Running
      {
        assert RunFor(k, code, a, i) == RunFor(k, code, y, i - 1);
      }
    }
  }

  /** How a program comes out when its tree ends as `r` says. */
  ghost predicate ProgramEnded(r: Ending, m: Machine, z: Machine, n: nat, fuel: nat) {
    match r
    case Normal(v, h) => z.status == Halted && z.stack == m.stack + [v] && z.scopes == m.scopes && z.heap == h
    case Failing(err, h) => Stops(z, err, h)
    case Broke(h) => Stops(z, SyntaxError, h)
    case Continued(h) => Stops(z, SyntaxError, h)
    case Returned(_, h) => Stops(z, InternalError, h)
    case OutOfFuel => n >= fuel
  }

  /** A program that `MjsParse` accepted, executed from its first byte: it halts with the value of its last
      statement on the stack, or stops with the error of its tree, or is still running after `fuel` steps. */
  lemma ProgramRuns(k: Arith, code: seq<Byte>, at: nat, ss: Stmts, m: Machine, fuel: nat) returns (n: nat)
    requires ReadyStmt(code, at, StmtsCode(ss) + Asm(Exit), m) && ProperStmts(ss) && m.loops == [] && m.calls == []
    ensures Scoped(CtxOf(m), m.heap)
    ensures Busy(k, code, m, n) && ProgramEnded(ExecAll(k, ss, CtxOf(m), m.heap, fuel), m, RunFor(k, code, m, n), n, fuel)
    ensures AllContained(ss) ==> !Escapes(ExecAll(k, ss, CtxOf(m), m.heap, fuel))
  {
    hide Runs, Lies, Framed, StmtsCode, ExecAll, Scoped, RunFor, ProperStmts, AllContained, Busy;
    FramedScoped(m);
    LiesSplit(code, at, StmtsCode(ss), Asm(Exit));
    var b := at + |StmtsCode(ss)|;
    var n1, y := RunAll(k, code, at, ss, m, fuel);
    n := n1;
    if ExecAll(k, ss, CtxOf(m), m.heap, fuel).Normal? {
      var z := RunSimple(k, code, b, Exit, y);
      Join(k, code, at, b + 1, m, at, b, y, n1, b, b + 1, z, 1);
      n := n1 + 1;
      RunsIsRunFor(k, code, at, b + 1, m, z, n);
    } else {
      RunsIsRunFor(k, code, at, b, m, y, n1);
    }
    if AllContained(ss) {
      AllContainedStay(k, ss, CtxOf(m), m.heap, fuel);
    }
  }
}
