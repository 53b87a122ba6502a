/** Compiled statements keep the discipline of the stacks and do what their trees mean. */
module StmtRuns {
  import opened Options
  import opened Varint
  import opened Bytecode
  import opened Tokens
  import opened Syntax
  import opened Machine
  import opened Evaluate
  import opened ExprRuns

  // ----- where statements end -----

  /** What the machine needs around a statement: real scopes, and frames that lie below them. */
  predicate Framed(m: Machine) {
    Scoped(CtxOf(m), m.heap)
    && (m.loops != [] ==> TopLoop(m).scopes <= |m.scopes|)
    && (m.calls != [] ==> CallFits(m, TopCall(m)))
  }

  function TopLoop(m: Machine): LoopFrame
    requires m.loops != []
  {
    m.loops[|m.loops| - 1]
  }

  function TopCall(m: Machine): CallFrame
    requires m.calls != []
  {
    m.calls[|m.calls| - 1]
  }

  predicate CallFits(m: Machine, f: CallFrame) {
    1 <= f.retval <= |m.stack| && f.scopes <= |m.scopes| && f.loops <= |m.loops|
  }

  /** Behind the innermost loop, with the `undefined` it leaves. */
  function AtBreak(m: Machine, h: Heap): Machine
    requires m.loops != [] && TopLoop(m).scopes <= |m.scopes|
  {
    m.(pc := TopLoop(m).brk, stack := m.stack + [Undefined], scopes := m.scopes[..TopLoop(m).scopes],
       loops := m.loops[..|m.loops| - 1], heap := h)
  }

  /** At the next turn of the innermost loop. */
  function AtContinue(m: Machine, h: Heap): Machine
    requires m.loops != [] && TopLoop(m).scopes <= |m.scopes|
  {
    m.(pc := TopLoop(m).cont, scopes := m.scopes[..TopLoop(m).scopes], heap := h)
  }

  /** Behind the call: callee and arguments are replaced by the result, and scopes, loops and `this` are
      those of the caller. */
  function AtReturn(m: Machine, v: Val, h: Heap): Machine
    requires m.calls != [] && CallFits(m, TopCall(m))
  {
    var f := TopCall(m);
    m.(pc := f.ret + 1, status := if f.ret == OFFSET_EXIT then Halted else Running,
       stack := m.stack[..f.retval - 1] + [v], scopes := m.scopes[..f.scopes], loops := m.loops[..f.loops],
       calls := m.calls[..|m.calls| - 1], self := f.self, heap := h)
  }

  ghost predicate Stops(z: Machine, err: Err, h: Heap) {
    z.status == Failed(err) && z.heap == h
  }

  /** `z` is where a statement that started in `m` leaves it early. */
  ghost predicate Leaves(r: Ending, m: Machine, z: Machine)
    requires Framed(m)
  {
    match r
    case Normal(_, _) => false
    case Broke(h) => if m.loops == [] then Stops(z, SyntaxError, h) else z == AtBreak(m, h)
    case Continued(h) => if m.loops == [] then Stops(z, SyntaxError, h) else z == AtContinue(m, h)
    case Returned(v, h) => if m.calls == [] then Stops(z, InternalError, h) else z == AtReturn(m, v, h)
    case Failing(err, h) => Stops(z, err, h)
    case OutOfFuel => false
  }

  /** `z` is where a statement that started in `m` and ends at `pc` gets in `n` steps. A statement whose loops
      run out of fuel is still running after that many steps. */
  ghost predicate Ends(r: Ending, m: Machine, pc: int, z: Machine, n: nat, fuel: nat)
    requires Framed(m)
  {
    match r
    case Normal(v, h) => z == With(m, pc, v, h)
    case OutOfFuel => n >= fuel
    case _ => Leaves(r, m, z)
  }

  /** Leaving a statement undoes whatever scopes and loops were opened inside it. */
  lemma LeavesOuter(r: Ending, inner: Machine, m: Machine, z: Machine)
    requires Framed(inner) && Framed(m) && Leaves(r, inner, z)
    requires m.scopes <= inner.scopes && m.stack == inner.stack
    requires m.calls == inner.calls && m.args == inner.args && m.self == inner.self && m.status == inner.status
    requires m.loops == inner.loops || (m.loops <= inner.loops && !r.Broke? && !r.Continued?)
    ensures Leaves(r, m, z)
  {
    if r.Returned? && m.calls != [] {
      var f := TopCall(m);
      assert inner.scopes[..f.scopes] == m.scopes[..f.scopes];
      assert inner.loops[..f.loops] == m.loops[..f.loops];
    } else if (r.Broke? || r.Continued?) && m.loops != [] {
      assert inner.scopes[..TopLoop(m).scopes] == m.scopes[..TopLoop(m).scopes];
    }
  }

  /** A statement may start a few steps late, with another heap. */
  lemma EndsLater(r: Ending, y: Machine, m: Machine, pc: int, z: Machine, n: nat, n1: nat, fuel: nat)
    requires Framed(m) && Framed(y) && y == m.(pc := y.pc, heap := y.heap)
    requires Ends(r, y, pc, z, n, fuel)
    ensures Ends(r, m, pc, z, n1 + n, fuel)
  {
    hide Framed, AtBreak, AtContinue, AtReturn;
    if !r.Normal? && !r.OutOfFuel? {
      LeavesOuter(r, y, m, z);
    }
  }

  lemma FramedLater(m: Machine, y: Machine)
    requires Framed(m) && y == m.(pc := y.pc, heap := y.heap) && |y.heap| >= |m.heap|
    ensures Framed(y)
  {}

  predicate ReadyStmt(code: seq<Byte>, at: int, s: seq<Byte>, m: Machine) {
    Ready(code, at, s, m) && Framed(m)
  }

  // ----- single instructions -----

  lemma RunSimple(k: Arith, code: seq<Byte>, at: nat, i: Instr, m: Machine) returns (z: Machine)
    requires Ready(code, at, Asm(i), m) && |Asm(i)| == 1 && Encodable(i)
    ensures Runs(k, code, at, at + 1, m, z, 1) && z == Do(k, i, at + 1, m)
  {
    hide Runs, Lies, Do, Asm, Encodable;
    RunOne(k, code, at, i, m);
    z := Do(k, i, at + 1, m);
  }

  // ----- simple statements -----

  lemma {:induction false} RunExprs(k: Arith, code: seq<Byte>, at: nat, es: Exprs, m: Machine)
    returns (n: nat, z: Machine)
    requires Ready(code, at, ExprsCode(es), m) && ProperExprs(es)
    ensures Runs(k, code, at, at + |ExprsCode(es)|, m, z, n)
    ensures After(EvalAll(k, es, CtxOf(m), m.heap), m, at + |ExprsCode(es)|, z)
    decreases es
  {
    hide Runs, Lies, Eval, Code;
    if es.One? {
      n, z := RunExpr(k, code, at, es.e, m);
      return;
    }
    var a := at + |Code(es.e)|;
    var hi := at + |ExprsCode(es)|;
    LiesSplit(code, at, Code(es.e) + Asm(Drop), ExprsCode(es.rest));
    LiesSplit(code, at, Code(es.e), Asm(Drop));
    var n1, y := RunExpr(k, code, at, es.e, m);
    var r := Eval(k, es.e, CtxOf(m), m.heap);
    if r.Error? {
      Widen(k, code, at, hi, at, a, m, y, n1);
      return n1, y;
    }
    var w := RunSimple(k, code, a, Drop, y);
    assert Below(y, 1) == m.stack;
    Join(k, code, at, hi, m, at, a, y, n1, a, a + 1, w, 1);
    var n2: nat;
    n2, z := RunExprs(k, code, a + 1, es.rest, w);
    n := n1 + 1 + n2;
    Join(k, code, at, hi, m, at, hi, w, n1 + 1, a + 1, hi, z, n2);
  }

  lemma RunBreak(k: Arith, code: seq<Byte>, at: nat, m: Machine) returns (z: Machine)
    requires ReadyStmt(code, at, StmtCode(Stmt.Break), m)
    ensures Runs(k, code, at, at + 2, m, z, 2)
    ensures Leaves(Broke(m.heap), m, z)
  {
    hide Runs, Lies;
    LiesSplit(code, at, Asm(PushUndef), Asm(Instr.Break));
    var y := RunSimple(k, code, at, PushUndef, m);
    z := RunSimple(k, code, at + 1, Instr.Break, y);
    Join(k, code, at, at + 2, m, at, at + 1, y, 1, at + 1, at + 2, z, 1);
  }

  lemma RunContinue(k: Arith, code: seq<Byte>, at: nat, m: Machine) returns (z: Machine)
    requires ReadyStmt(code, at, StmtCode(Stmt.Continue), m)
    ensures Runs(k, code, at, at + 1, m, z, 1)
    ensures Leaves(Continued(m.heap), m, z)
  {
    hide Runs, Lies;
    z := RunSimple(k, code, at, Instr.Continue, m);
  }

  /** The two instructions of a return, with the result on top of the stack. */
  lemma RunReturn(k: Arith, code: seq<Byte>, at: nat, m: Machine, y: Machine, v: Val) returns (n: nat, z: Machine)
    requires Ready(code, at, Asm(SetRetval) + Asm(Instr.Return), y) && Framed(m) && m.status == Running
    requires y == With(m, at, v, y.heap)
    ensures Runs(k, code, at, at + 2, y, z, n)
    ensures Leaves(Returned(v, y.heap), m, z)
  {
    hide Runs, Lies;
    LiesSplit(code, at, Asm(SetRetval), Asm(Instr.Return));
    var w := RunSimple(k, code, at, SetRetval, y);
    if m.calls == [] {
      Widen(k, code, at, at + 2, at, at + 1, y, w, 1);
      return 1, w;
    }
    var f := TopCall(m);
    assert Below(y, 1) == m.stack;
    z := RunSimple(k, code, at + 1, Instr.Return, w);
    n := 2;
    Join(k, code, at, at + 2, y, at, at + 1, w, 1, at + 1, at + 2, z, 1);
    assert m.stack[f.retval - 1 := v][..f.retval] == m.stack[..f.retval - 1] + [v];
  }

  lemma RunReturnStmt(k: Arith, code: seq<Byte>, at: nat, e: Option<Expr>, m: Machine, fuel: nat)
    returns (n: nat, z: Machine)
    requires ReadyStmt(code, at, StmtCode(Stmt.Return(e)), m) && (e.Some? ==> Proper(e.value))
    ensures Runs(k, code, at, at + |StmtCode(Stmt.Return(e))|, m, z, n)
    ensures Leaves(Exec(k, Stmt.Return(e), CtxOf(m), m.heap, fuel), m, z)
  {
    hide Runs, Lies, Code, Eval, Framed, AtReturn;
    var value := if e.Some? then Code(e.value) else Asm(PushUndef);
    var tail := Asm(SetRetval) + Asm(Instr.Return);
    assert StmtCode(Stmt.Return(e)) == value + tail;
    LiesSplit(code, at, value, tail);
    var a := at + |value|;
    var n1, y, v;
    if e.Some? {
      n1, y := RunExpr(k, code, at, e.value, m);
      var r := Eval(k, e.value, CtxOf(m), m.heap);
      if r.Error? {
        Widen(k, code, at, a + 2, at, a, m, y, n1);
        return n1, y;
      }
      v := r.v;
    } else {
      n1, v := 1, Undefined;
      y := RunSimple(k, code, at, PushUndef, m);
    }
    var n2: nat;
    n2, z := RunReturn(k, code, a, m, y, v);
    n := n1 + n2;
    Join(k, code, at, a + 2, m, at, a, y, n1, a, a + 2, z, n2);
  }

  // ----- declarations -----

  function Innermost(m: Machine): nat
    requires m.scopes != []
  {
    m.scopes[|m.scopes| - 1]
  }

  lemma RunDeclare(k: Arith, code: seq<Byte>, at: nat, x: Text, m: Machine) returns (n: nat, z: Machine)
    requires ReadyStmt(code, at, DeclareCode(x), m)
    ensures Runs(k, code, at, at + |DeclareCode(x)|, m, z, n)
    ensures z == m.(pc := at + |DeclareCode(x)|, heap := Declare(m.heap, Innermost(m), x))
  {
    hide Runs, Lies, Encode, Declare, DoExpr, DoControl;
    var a := at + |Asm(PushStr(x))|;
    LiesSplit(code, at, Asm(PushStr(x)) + Asm(PushScope), Asm(Create));
    LiesSplit(code, at, Asm(PushStr(x)), Asm(PushScope));
    SmallOperand(code, at, PushStr(x));
    RunOne(k, code, at, PushStr(x), m);
    var y := Push(m, a, Str(x));
    var w := RunSimple(k, code, a, PushScope, y);
    z := RunSimple(k, code, a + 1, Create, w);
    n := 3;
    Join(k, code, at, a + 2, m, at, a, y, 1, a, a + 1, w, 1);
    Join(k, code, at, a + 2, m, at, a + 2, w, 2, a + 1, a + 2, z, 1);
    assert Below(w, 2) == m.stack;
  }

  /** A declared variable is found in the innermost scope. */
  lemma DeclaredHere(m: Machine, h: Heap, x: Text)
    requires m.scopes != [] && Innermost(m) < |h|
    ensures OwnerOf(Declare(h, Innermost(m), x), m.scopes, x) == Some(Innermost(m))
  {}

  lemma RunDecl(k: Arith, code: seq<Byte>, at: nat, x: Text, init: Option<Expr>, m: Machine) returns (n: nat, z: Machine)
    requires ReadyStmt(code, at, DeclareCode(x) + InitCode(x, init), m) && (init.Some? ==> Proper(init.value))
    ensures Runs(k, code, at, at + |DeclareCode(x)| + |InitCode(x, init)|, m, z, n)
    ensures After(Declaration(k, x, init, CtxOf(m), m.heap), m, at + |DeclareCode(x)| + |InitCode(x, init)|, z)
  {
    hide Runs, Lies, Code, DeclareCode, InitCode, Eval, OwnerOf, Declare, Store;
    var a := at + |DeclareCode(x)|;
    var hi := a + |InitCode(x, init)|;
    LiesSplit(code, at, DeclareCode(x), InitCode(x, init));
    var n1, y := RunDeclare(k, code, at, x, m);
    DeclaredHere(m, m.heap, x);
    var n2: nat;
    n2, z := RunInit(k, code, a, x, init, y, Innermost(m));
    n := n1 + n2;
    Join(k, code, at, hi, m, at, a, y, n1, a, hi, z, n2);
  }

  lemma RunInit(k: Arith, code: seq<Byte>, a: nat, x: Text, init: Option<Expr>, y: Machine, ref: nat)
    returns (n: nat, z: Machine)
    requires Ready(code, a, InitCode(x, init), y) && (init.Some? ==> Proper(init.value))
    requires OwnerOf(y.heap, y.scopes, x) == Some(ref)
    ensures Runs(k, code, a, a + |InitCode(x, init)|, y, z, n)
    ensures match init
            case None => z == With(y, a + 1, Undefined, y.heap) && |InitCode(x, init)| == 1
            case Some(e) =>
              match Eval(k, e, CtxOf(y), y.heap)
              case Error(err, h) => Stops(z, err, h)
              case Value(v, h) => z == With(y, a + |InitCode(x, init)|, v, Store(h, ref, x, v))
  {
    hide Runs, Lies, Code, Eval, OwnerOf, Store, Encode, RefCode;
    if init.Some? {
      AssignLayout(TOK_ASSIGN, x, init.value);
      n, z := RunExpr(k, code, a, Assign(TOK_ASSIGN, Ref(x), init.value), y);
      EvalStore(k, x, init.value, CtxOf(y), y.heap);
    } else {
      n := 1;
      z := RunSimple(k, code, a, PushUndef, y);
    }
  }

  lemma EvalStore(k: Arith, x: Text, e: Expr, c: Ctx, h: Heap)
    requires Proper(e) && OwnerOf(h, c.scopes, x).Some?
    ensures Eval(k, Assign(TOK_ASSIGN, Ref(x), e), c, h)
         == match Eval(k, e, c, h)
            case Error(err, h1) => Error(err, h1)
            case Value(v, h1) => Value(v, Store(h1, OwnerOf(h, c.scopes, x).value, x, v))
  {
    hide OwnerOf;
  }

  /** The code of one variable, with the drop of its value when a comma follows. */
  function VariableCode(x: Text, init: Option<Expr>, comma: bool): seq<Byte> {
    DeclareCode(x) + InitCode(x, init) + (if comma then Asm(Drop) else [])
  }

  lemma DeclsParts(ds: Decls)
    ensures ds.NoDecls? ==> DeclsCode(ds) == []
    ensures ds.Decl? ==> DeclsCode(ds) == VariableCode(ds.x, ds.init, ds.comma) + DeclsCode(ds.rest)
  {
    hide DeclareCode, InitCode;
  }

  /** One variable. */
  lemma RunFirst(k: Arith, code: seq<Byte>, at: nat, x: Text, init: Option<Expr>, comma: bool, m: Machine) returns (n: nat, z: Machine)
    requires ReadyStmt(code, at, VariableCode(x, init, comma), m)
    requires init.Some? ==> Proper(init.value)
    ensures var hi := at + |VariableCode(x, init, comma)|;
            Runs(k, code, at, hi, m, z, n)
            && match Declaration(k, x, init, CtxOf(m), m.heap)
               case Value(v, h) => z == m.(pc := hi, stack := m.stack + if comma then [] else [v], heap := h)
               case Error(err, h) => Stops(z, err, h)
  {
    hide Runs, Lies, DeclareCode, InitCode, Declaration;
    var one := DeclareCode(x) + InitCode(x, init);
    var a := at + |one|;
    LiesSplit(code, at, one, if comma then Asm(Drop) else []);
    n, z := RunDecl(k, code, at, x, init, m);
    var r := Declaration(k, x, init, CtxOf(m), m.heap);
    if comma {
      Widen(k, code, at, a + 1, at, a, m, z, n);
      if r.Value? {
        var w := RunSimple(k, code, a, Drop, z);
        Join(k, code, at, a + 1, m, at, a, z, n, a, a + 1, w, 1);
        assert Below(z, 1) == m.stack;
        n, z := n + 1, w;
      }
    }
  }

  /** A `let` leaves one value for each variable that no comma follows. */
  lemma {:induction false} RunDecls(k: Arith, code: seq<Byte>, at: nat, ds: Decls, m: Machine)
    returns (n: nat, z: Machine)
    requires ReadyStmt(code, at, DeclsCode(ds), m) && ProperDecls(ds)
    ensures Runs(k, code, at, at + |DeclsCode(ds)|, m, z, n)
    ensures match Declarations(k, ds, CtxOf(m), m.heap)
            case Declared(vs, h) => z == m.(pc := at + |DeclsCode(ds)|, stack := m.stack + vs, heap := h)
            case Undeclared(err, h) => Stops(z, err, h)
    decreases ds
  {
    hide Runs, Lies, VariableCode, DeclsCode, Declaration, Declarations, Framed;
    FramedScoped(m);
    DeclsParts(ds);
    DeclsSteps(k, ds, CtxOf(m), m.heap);
    if ds.NoDecls? {
      RunNone(k, code, at, at, m);
      assert m.stack + [] == m.stack;
      return 0, m;
    }
    var b, hi := at + |VariableCode(ds.x, ds.init, ds.comma)|, at + |DeclsCode(ds)|;
    LiesSplit(code, at, VariableCode(ds.x, ds.init, ds.comma), DeclsCode(ds.rest));
    n, z := RunFirst(k, code, at, ds.x, ds.init, ds.comma, m);
    Widen(k, code, at, hi, at, b, m, z, n);
    var r := Declaration(k, ds.x, ds.init, CtxOf(m), m.heap);
    if r.Value? {
      FramedPast(m, z, if ds.comma then [] else [r.v]);
      var n2, y := RunDecls(k, code, b, ds.rest, z);
      Join(k, code, at, hi, m, at, hi, z, n, b, hi, y, n2);
      n, z := n + n2, y;
      DeclsStack(k, ds, m, r.v, r.heap);
    }
  }

  lemma FramedPast(m: Machine, z: Machine, vs: seq<Val>)
    requires Framed(m) && z == m.(pc := z.pc, stack := m.stack + vs, heap := z.heap) && |z.heap| == |m.heap|
    ensures Framed(z) && CtxOf(z) == CtxOf(m)
  {}

  /** The first variable, and the others. */
  lemma DeclsSteps(k: Arith, ds: Decls, c: Ctx, h: Heap)
    requires Scoped(c, h) && ProperDecls(ds)
    ensures c.scopes[|c.scopes| - 1] < |h|
    ensures ds.NoDecls? ==> Declarations(k, ds, c, h) == Declared([], h)
    ensures ds.Decl? && Declaration(k, ds.x, ds.init, c, h).Error? ==>
            var r := Declaration(k, ds.x, ds.init, c, h); Declarations(k, ds, c, h) == Undeclared(r.err, r.heap)
  {
    hide Declaration;
  }

  lemma RunNone(k: Arith, code: seq<Byte>, lo: int, hi: int, m: Machine)
    ensures Runs(k, code, lo, hi, m, m, 0)
  {}

  lemma DeclsStack(k: Arith, ds: Decls, m: Machine, v: Val, h: Heap)
    requires ds.Decl? && ProperDecls(ds) && m.scopes != [] && Innermost(m) < |m.heap|
    requires Declaration(k, ds.x, ds.init, CtxOf(m), m.heap) == Value(v, h)
    ensures var all, rest := Declarations(k, ds, CtxOf(m), m.heap), Declarations(k, ds.rest, CtxOf(m), h);
            (rest.Undeclared? ==> all == rest)
            && (rest.Declared? ==>
                all.Declared? && all.heap == rest.heap
                && m.stack + all.vs == (if ds.comma then m.stack else m.stack + [v]) + rest.vs)
  {
    hide Declaration;
  }

  // ----- compound statements -----

  /** Running the code of a statement, wherever it lies and whatever is on the stacks, ends as its tree says:
      one value higher with scopes and loops as before, or early at the innermost loop or the caller, or stopped
      with the error; or it is still inside after as many steps as `fuel` grants turns. */
  lemma {:induction false} RunStmt(k: Arith, code: seq<Byte>, at: nat, s: Stmt, m: Machine, fuel: nat)
    returns (n: nat, z: Machine)
    requires ReadyStmt(code, at, StmtCode(s), m) && ProperStmt(s)
    ensures Runs(k, code, at, at + |StmtCode(s)|, m, z, n)
    ensures Ends(Exec(k, s, CtxOf(m), m.heap, fuel), m, at + |StmtCode(s)|, z, n, fuel)
    decreases fuel, s, 4
  {
    hide Runs, Lies, Framed, Ends, Exec, StmtCode, Scoped;
    FramedScoped(m);
    match s {
      case Block(body) => n, z := RunBlock(k, code, at, body, m, fuel);
      case If(c, t) => n, z := RunIf(k, code, at, c, t, m, fuel);
      case IfElse(c, t, f) => n, z := RunIfElse(k, code, at, c, t, f, m, fuel);
      case While(_, _) => n, z := RunLoop(k, code, at, s, m, fuel);
      case WhileOne(_, _) => n, z := RunLoop(k, code, at, s, m, fuel);
      case _ => n, z := RunLeaf(k, code, at, s, m, fuel);
    }
  }

  predicate IsLeaf(s: Stmt) {
    s.Empty? || s.ExprStmt? || s.Let? || s.Break? || s.Continue? || s.Return?
  }

  lemma FramedScoped(m: Machine)
    requires Framed(m)
    ensures Scoped(CtxOf(m), m.heap)
  {}

  lemma RunLeaf(k: Arith, code: seq<Byte>, at: nat, s: Stmt, m: Machine, fuel: nat) returns (n: nat, z: Machine)
    requires ReadyStmt(code, at, StmtCode(s), m) && ProperStmt(s) && IsLeaf(s)
    ensures Runs(k, code, at, at + |StmtCode(s)|, m, z, n)
    ensures Ends(Exec(k, s, CtxOf(m), m.heap, fuel), m, at + |StmtCode(s)|, z, n, fuel)
  {
    hide Runs, Lies, Framed, AtBreak, AtContinue, AtReturn, Code, Eval, Scoped, Declarations, DeclsCode;
    FramedScoped(m);
    if s.Let? {
      n, z := RunDecls(k, code, at, s.ds, m);
      var r := Declarations(k, s.ds, CtxOf(m), m.heap);
      assert r.Declared? ==> r.vs == [r.vs[0]];
    } else if s.ExprStmt? {
      n, z := RunExprs(k, code, at, s.es, m);
    } else if s.Return? {
      n, z := RunReturnStmt(k, code, at, s.result, m, fuel);
    } else {
      n, z := RunJump(k, code, at, s, m, fuel);
    }
  }

  lemma RunJump(k: Arith, code: seq<Byte>, at: nat, s: Stmt, m: Machine, fuel: nat) returns (n: nat, z: Machine)
    requires ReadyStmt(code, at, StmtCode(s), m) && (s.Empty? || s.Break? || s.Continue?)
    ensures Runs(k, code, at, at + |StmtCode(s)|, m, z, n)
    ensures Scoped(CtxOf(m), m.heap)
    ensures Ends(Exec(k, s, CtxOf(m), m.heap, fuel), m, at + |StmtCode(s)|, z, n, fuel)
  {
    hide Runs, Lies, Framed, AtBreak, AtContinue, AtReturn, Scoped;
    FramedScoped(m);
    if s.Empty? {
      z := RunSimple(k, code, at, PushUndef, m);
      n := 1;
    } else if s.Break? {
      z := RunBreak(k, code, at, m);
      n := 2;
    } else {
      z := RunContinue(k, code, at, m);
      n := 1;
    }
  }

  lemma {:induction false} RunAll(k: Arith, code: seq<Byte>, at: nat, ss: Stmts, m: Machine, fuel: nat)
    returns (n: nat, z: Machine)
    requires ReadyStmt(code, at, StmtsCode(ss), m) && ProperStmts(ss)
    ensures Runs(k, code, at, at + |StmtsCode(ss)|, m, z, n)
    ensures Ends(ExecAll(k, ss, CtxOf(m), m.heap, fuel), m, at + |StmtsCode(ss)|, z, n, fuel)
    decreases fuel, ss, 0
  {
    hide Runs, Lies, Framed, Exec, StmtCode, AtBreak, AtContinue, AtReturn, Scoped;
    FramedScoped(m);
    if ss.rest.NoStmts? {
      n, z := RunStmt(k, code, at, ss.s, m, fuel);
      return;
    }
    var a := at + |StmtCode(ss.s)|;
    var hi := at + |StmtsCode(ss)|;
    LiesSplit(code, at, StmtCode(ss.s) + Asm(Drop), StmtsCode(ss.rest));
    LiesSplit(code, at, StmtCode(ss.s), Asm(Drop));
    var n1, y := RunStmt(k, code, at, ss.s, m, fuel);
    Widen(k, code, at, hi, at, a, m, y, n1);
    var r := Exec(k, ss.s, CtxOf(m), m.heap, fuel);
    if !r.Normal? {
      return n1, y;
    }
    var w := RunSimple(k, code, a, Drop, y);
    assert Below(y, 1) == m.stack;
    Join(k, code, at, hi, m, at, hi, y, n1, a, a + 1, w, 1);
    FramedLater(m, w);
    FramedScoped(w);
    var n2: nat;
    n2, z := RunAll(k, code, a + 1, ss.rest, w, fuel);
    n := n1 + 1 + n2;
    Join(k, code, at, hi, m, at, hi, w, n1 + 1, a + 1, hi, z, n2);
    EndsLater(ExecAll(k, ss.rest, CtxOf(w), w.heap, fuel), w, m, hi, z, n2, n1 + 1, fuel);
  }

  /** A block opens one scope and closes it again. */
  lemma RunBlock(k: Arith, code: seq<Byte>, at: nat, body: Stmts, m: Machine, fuel: nat) returns (n: nat, z: Machine)
    requires ReadyStmt(code, at, StmtCode(Block(body)), m) && ProperStmts(body)
    ensures Runs(k, code, at, at + |StmtCode(Block(body))|, m, z, n)
    ensures Ends(Exec(k, Block(body), CtxOf(m), m.heap, fuel), m, at + |StmtCode(Block(body))|, z, n, fuel)
    decreases fuel, Block(body), 0
  {
    hide Runs, Lies, ExecAll, StmtsCode, AtBreak, AtContinue, AtReturn, Framed, Leaves, Scoped;
    FramedScoped(m);
    var b := at + 1 + |StmtsCode(body)|;
    LiesSplit(code, at, Asm(NewScope) + StmtsCode(body), Asm(DelScope));
    LiesSplit(code, at, Asm(NewScope), StmtsCode(body));
    var y := RunSimple(k, code, at, NewScope, m);
    FramedInner(m, at + 1);
    FramedScoped(y);
    var n1, w := RunAll(k, code, at + 1, body, y, fuel);
    Join(k, code, at, b + 1, m, at, at + 1, y, 1, at + 1, b, w, n1);
    var r := ExecAll(k, body, CtxOf(y), y.heap, fuel);
    if r.Normal? {
      z := RunSimple(k, code, b, DelScope, w);
      n := 1 + n1 + 1;
      Join(k, code, at, b + 1, m, at, b + 1, w, 1 + n1, b, b + 1, z, 1);
      assert w.scopes[..|w.scopes| - 1] == m.scopes;
    } else {
      n, z := 1 + n1, w;
      if !r.OutOfFuel? {
        LeavesOuter(r, y, m, z);
      }
    }
  }

  /** Behind `OP_NEW_SCOPE`. */
  function Opened(m: Machine, pc: int): Machine {
    m.(pc := pc, scopes := m.scopes + [|m.heap|], heap := m.heap + [map[]])
  }

  lemma FramedInner(m: Machine, pc: int)
    requires Framed(m)
    ensures Framed(Opened(m, pc)) && CtxOf(Opened(m, pc)) == Inner(CtxOf(m), m.heap)
  {}

  lemma RunIf(k: Arith, code: seq<Byte>, at: nat, c: Expr, t: Stmt, m: Machine, fuel: nat) returns (n: nat, z: Machine)
    requires ReadyStmt(code, at, StmtCode(If(c, t)), m) && Proper(c) && ProperStmt(t)
    ensures Runs(k, code, at, at + |StmtCode(If(c, t))|, m, z, n)
    ensures Ends(Exec(k, If(c, t), CtxOf(m), m.heap, fuel), m, at + |StmtCode(If(c, t))|, z, n, fuel)
    decreases fuel, If(c, t), 0
  {
    hide Runs, Lies, Code, Truthy, Eval, AtBreak, AtContinue, AtReturn, Framed, StmtCode, Encode, Ends, Exec, Asm;
    var i := JmpFalse(|StmtCode(t)|);
    IfLayout(c, t);
    var a := at + |Code(c)|;
    var b := a + |Asm(i)|;
    var hi := b + |StmtCode(t)|;
    LiesSplit(code, at, Code(c) + Asm(i), StmtCode(t));
    LiesSplit(code, at, Code(c), Asm(i));
    LiesWithin(code, b, StmtCode(t));
    var n1, y := RunExpr(k, code, at, c, m);
    var r := Eval(k, c, CtxOf(m), m.heap);
    EvalIf(k, c, t, m, fuel);
    if r.Error? {
      EndsFailing(r.err, r.heap, m, hi, y, n1, fuel);
      Widen(k, code, at, hi, at, a, m, y, n1);
      return n1, y;
    }
    RunOne(k, code, a, i, y);
    var w := Do(k, i, b, y);
    Join(k, code, at, hi, m, at, a, y, n1, a, b, w, 1);
    assert Below(y, 1) == m.stack;
    if !Truthy(k, r.v) {
      EndsNormal(Undefined, r.heap, m, hi, w, n1 + 1, fuel);
      return n1 + 1, w;
    }
    FramedLater(m, w);
    var n2: nat;
    n2, z := RunStmt(k, code, b, t, w, fuel);
    n := n1 + 1 + n2;
    Join(k, code, at, hi, m, at, hi, w, n1 + 1, b, hi, z, n2);
    EndsLater(Exec(k, t, CtxOf(w), w.heap, fuel), w, m, hi, z, n2, n1 + 1, fuel);
  }

  lemma EvalIf(k: Arith, c: Expr, t: Stmt, m: Machine, fuel: nat)
    requires Proper(c) && ProperStmt(t) && Framed(m)
    ensures var r := Eval(k, c, CtxOf(m), m.heap);
            Scoped(CtxOf(m), r.heap)
            && Exec(k, If(c, t), CtxOf(m), m.heap, fuel)
               == if r.Error? then Failing(r.err, r.heap)
                  else if Truthy(k, r.v) then Exec(k, t, CtxOf(m), r.heap, fuel)
                  else Normal(Undefined, r.heap)
  {
    hide Eval, Truthy;
  }

  lemma EndsNormal(v: Val, h: Heap, m: Machine, pc: int, z: Machine, n: nat, fuel: nat)
    requires Framed(m) && z == With(m, pc, v, h)
    ensures Ends(Normal(v, h), m, pc, z, n, fuel)
  {}

  lemma IfLayout(c: Expr, t: Stmt)
    ensures StmtCode(If(c, t)) == Code(c) + Asm(JmpFalse(|StmtCode(t)|)) + StmtCode(t)
  {}

  lemma IfElseLayout(c: Expr, t: Stmt, f: Stmt)
    ensures StmtCode(IfElse(c, t, f)) == Code(c) + Branches(StmtCode(t), StmtCode(f))
  {}

  lemma RunIfElse(k: Arith, code: seq<Byte>, at: nat, c: Expr, t: Stmt, f: Stmt, m: Machine, fuel: nat)
    returns (n: nat, z: Machine)
    requires ReadyStmt(code, at, StmtCode(IfElse(c, t, f)), m) && Proper(c) && ProperStmt(t) && ProperStmt(f)
    ensures Runs(k, code, at, at + |StmtCode(IfElse(c, t, f))|, m, z, n)
    ensures Ends(Exec(k, IfElse(c, t, f), CtxOf(m), m.heap, fuel), m, at + |StmtCode(IfElse(c, t, f))|, z, n, fuel)
    decreases fuel, IfElse(c, t, f), 0
  {
    hide Runs, Lies, Code, Truthy, Eval, AtBreak, AtContinue, AtReturn, Framed, StmtCode, Encode, Branches, Ends;
    var ct, cf := StmtCode(t), StmtCode(f);
    IfElseLayout(c, t, f);
    var a := at + |Code(c)|;
    var hi := a + |Branches(ct, cf)|;
    LiesSplit(code, at, Code(c), Branches(ct, cf));
    var n1, y := RunExpr(k, code, at, c, m);
    var r := Eval(k, c, CtxOf(m), m.heap);
    EvalIfElse(k, c, t, f, m, fuel);
    if r.Error? {
      EndsFailing(r.err, r.heap, m, hi, y, n1, fuel);
      Widen(k, code, at, hi, at, a, m, y, n1);
      return n1, y;
    }
    var n2, w := RunFork(k, code, a, ct, cf, y, m, r.v);
    Join(k, code, at, hi, m, at, a, y, n1, a, hi, w, n2);
    FramedLater(m, w);
    var n3: nat;
    var s := if Truthy(k, r.v) then t else f;
    n3, z := RunStmt(k, code, w.pc, s, w, fuel);
    n := n1 + n2 + n3;
    Join(k, code, at, hi, m, at, hi, w, n1 + n2, w.pc, w.pc + |StmtCode(s)|, z, n3);
    EndsLater(Exec(k, s, CtxOf(w), w.heap, fuel), w, m, w.pc + |StmtCode(s)|, z, n3, n1 + n2, fuel);
    if Truthy(k, r.v) {
      var e := Exec(k, t, CtxOf(m), r.heap, fuel);
      if e.Normal? {
        var x := RunOn(k, code, a, ct, cf, m, e, z, n, fuel);
        Join(k, code, at, hi, m, at, hi, z, n, a, hi, x, 1);
        n, z := n + 1, x;
      } else {
        EndsElsewhere(e, m, w.pc + |StmtCode(s)|, hi, z, n, fuel);
      }
    }
  }

  lemma EvalIfElse(k: Arith, c: Expr, t: Stmt, f: Stmt, m: Machine, fuel: nat)
    requires Proper(c) && ProperStmt(t) && ProperStmt(f) && Framed(m)
    ensures var r := Eval(k, c, CtxOf(m), m.heap);
            Scoped(CtxOf(m), r.heap)
            && Exec(k, IfElse(c, t, f), CtxOf(m), m.heap, fuel)
               == if r.Error? then Failing(r.err, r.heap)
                  else Exec(k, if Truthy(k, r.v) then t else f, CtxOf(m), r.heap, fuel)
  {
    hide Eval, Truthy;
  }

  lemma EndsFailing(err: Err, h: Heap, m: Machine, pc: int, z: Machine, n: nat, fuel: nat)
    requires Framed(m) && Stops(z, err, h)
    ensures Ends(Failing(err, h), m, pc, z, n, fuel)
  {}

  /** A statement that ended normally goes on behind the other branch. */
  lemma RunOn(k: Arith, code: seq<Byte>, a: nat, t: seq<Byte>, f: seq<Byte>, m: Machine, e: Ending, y: Machine,
              n: nat, fuel: nat) returns (z: Machine)
    requires Ready(code, a, Branches(t, f), m.(pc := a)) && Framed(m)
    requires e.Normal? && Ends(e, m, ThenAt(a, t, f) + |t|, y, n, fuel)
    ensures Runs(k, code, a, a + |Branches(t, f)|, y, z, 1)
    ensures Ends(e, m, a + |Branches(t, f)|, z, n + 1, fuel)
  {
    hide Runs, Lies, Branches, Framed, Encode;
    z := RunPast(k, code, a, t, f, y);
  }

  /** Only a normal ending depends on where the statement ends. */
  lemma EndsElsewhere(r: Ending, m: Machine, pc: int, pc2: int, z: Machine, n: nat, fuel: nat)
    requires Framed(m) && Ends(r, m, pc, z, n, fuel) && !r.Normal?
    ensures Ends(r, m, pc2, z, n, fuel)
  {
    hide Framed, AtBreak, AtContinue, AtReturn;
  }

  // ----- loops -----

  function BodyCode(s: Stmt): seq<Byte>
    requires IsLoop(s)
  {
    if s.While? then StmtsCode(s.body) else StmtCode(s.s)
  }

  /** A loop without the scope around it: `LoopTurn` and the break that ends the last turn. */
  function TurnsCode(s: Stmt): seq<Byte>
    requires IsLoop(s)
  {
    LoopTurn(Code(s.c), BodyCode(s)) + Asm(Instr.Break)
  }

  lemma LoopLayout(s: Stmt)
    requires IsLoop(s)
    ensures StmtCode(s) == Asm(NewScope) + LoopHead(Code(s.c), BodyCode(s)) + LoopTurn(Code(s.c), BodyCode(s))
                           + Asm(Instr.Break) + Asm(DelScope)
  {}

  lemma {:induction false} RunBody(k: Arith, code: seq<Byte>, at: nat, s: Stmt, m: Machine, fuel: nat)
    returns (n: nat, z: Machine)
    requires IsLoop(s) && ReadyStmt(code, at, BodyCode(s), m) && ProperStmt(s)
    ensures Runs(k, code, at, at + |BodyCode(s)|, m, z, n)
    ensures Scoped(CtxOf(m), m.heap)
    ensures Ends(LoopBody(k, s, CtxOf(m), m.heap, fuel), m, at + |BodyCode(s)|, z, n, fuel)
    decreases fuel, s, 1
  {
    hide Runs, Lies, Framed, Ends, Exec, ExecAll, StmtCode, StmtsCode, Scoped;
    FramedScoped(m);
    if s.While? {
      n, z := RunAll(k, code, at, s.body, m, fuel);
    } else {
      n, z := RunStmt(k, code, at, s.s, m, fuel);
    }
  }

  /** The innermost loop of `w` is the one whose turns start at `at` and whose break leads to `out`. */
  predicate InLoop(w: Machine, at: int, out: int) {
    w.loops != [] && TopLoop(w) == LoopFrame(|w.scopes|, out, at)
  }

  /** The machine when the innermost loop is over. */
  function LoopOver(w: Machine, pc: int, h: Heap): Machine
    requires w.loops != []
  {
    w.(pc := pc, stack := w.stack + [Undefined], loops := w.loops[..|w.loops| - 1], heap := h)
  }

  /** How the turns of a loop end. */
  ghost predicate Over(r: Ending, w: Machine, out: int, z: Machine, n: nat, fuel: nat)
    requires Framed(w) && w.loops != []
  {
    match r
    case Normal(v, h) => v == Undefined && z == LoopOver(w, out, h)
    case Broke(_) => false
    case Continued(_) => false
    case OutOfFuel => n >= fuel
    case _ => Leaves(r, w, z)
  }

  /** Where the body of a loop starts. */
  function BodyAt(at: nat, s: Stmt): (r: nat)
    requires IsLoop(s)
    ensures r >= at
  {
    at + |Code(s.c)| + |Asm(JmpFalse(|BodyCode(s)| + 2))|
  }

  lemma TurnsLie(code: seq<Byte>, at: nat, s: Stmt)
    requires IsLoop(s) && Small(code) && Lies(code, at, TurnsCode(s))
    ensures var c, b, i := Code(s.c), BodyCode(s), JmpFalse(|BodyCode(s)| + 2);
            var end := BodyAt(at, s) + |b|;
            Lies(code, at, c) && Lies(code, at + |c|, Asm(i)) && Encodable(i) && Lies(code, BodyAt(at, s), b)
            && Lies(code, end, Asm(Drop)) && Lies(code, end + 1, Asm(Instr.Continue)) && Lies(code, end + 2, Asm(Instr.Break))
            && end + 3 == at + |TurnsCode(s)| <= |code|
  {
    hide Lies, Encode, Code, BodyCode, Asm;
    SingleBytes();
    var c, b, i := Code(s.c), BodyCode(s), JmpFalse(|BodyCode(s)| + 2);
    LiesSplit(code, at, LoopTurn(c, b), Asm(Instr.Break));
    LiesSplit(code, at, c + Asm(i) + b + Asm(Drop), Asm(Instr.Continue));
    LiesSplit(code, at, c + Asm(i) + b, Asm(Drop));
    LiesSplit(code, at, c + Asm(i), b);
    LiesSplit(code, at, c, Asm(i));
    LiesWithin(code, BodyAt(at, s) + |b| + 2, Asm(Instr.Break));
  }

  lemma SingleBytes()
    ensures |Asm(Drop)| == 1 && |Asm(Instr.Continue)| == 1 && |Asm(Instr.Break)| == 1
  {}

  /** The condition of a loop: on to the body with the stack as it was, or out of the loop. */
  lemma RunTest(k: Arith, code: seq<Byte>, at: nat, s: Stmt, w: Machine) returns (n: nat, y: Machine)
    requires IsLoop(s) && ReadyStmt(code, at, TurnsCode(s), w) && ProperStmt(s)
    requires InLoop(w, at, at + |TurnsCode(s)|)
    ensures Runs(k, code, at, at + |TurnsCode(s)|, w, y, n) && n > 0
    ensures match Eval(k, s.c, CtxOf(w), w.heap)
            case Error(err, h) => Stops(y, err, h)
            case Value(v, h) => y == if Truthy(k, v) then w.(pc := BodyAt(at, s), heap := h)
                                     else LoopOver(w, at + |TurnsCode(s)|, h)
  {
    hide Runs, Lies, Code, BodyCode, TurnsCode, Eval, Truthy, Framed, Encode;
    TurnsLie(code, at, s);
    var hi := at + |TurnsCode(s)|;
    var i := JmpFalse(|BodyCode(s)| + 2);
    var a := at + |Code(s.c)|;
    var b := BodyAt(at, s);
    var n1, x := RunExpr(k, code, at, s.c, w);
    Widen(k, code, at, hi, at, a, w, x, n1);
    SomeSteps(k, code, at, a, w, x, n1);
    var r := Eval(k, s.c, CtxOf(w), w.heap);
    if r.Error? {
      return n1, x;
    }
    RunOne(k, code, a, i, x);
    y := Do(k, i, b, x);
    n := n1 + 1;
    Join(k, code, at, hi, w, at, hi, x, n1, a, b, y, 1);
    assert Below(x, 1) == w.stack;
    if !Truthy(k, r.v) {
      var q := RunSimple(k, code, hi - 1, Instr.Break, y);
      Join(k, code, at, hi, w, at, hi, y, n, hi - 1, hi, q, 1);
      n, y := n + 1, q;
    }
  }

  lemma SomeSteps(k: Arith, code: seq<Byte>, lo: int, hi: int, a: Machine, b: Machine, n: nat)
    requires Runs(k, code, lo, hi, a, b, n) && (a.pc != b.pc || a.status != b.status)
    ensures n > 0
  {}

  /** From a normal end of the body, or from a `continue` in it, back to the condition. */
  lemma RunAgain(k: Arith, code: seq<Byte>, at: nat, s: Stmt, w: Machine, y: Machine, e: Ending, x: Machine,
                 n1: nat, fuel: nat) returns (n: nat, v: Machine)
    requires IsLoop(s) && ReadyStmt(code, at, TurnsCode(s), w) && InLoop(w, at, at + |TurnsCode(s)|)
    requires Framed(y) && y == w.(pc := BodyAt(at, s), heap := y.heap) && |y.heap| >= |w.heap|
    requires e.Normal? || e.Continued?
    requires Grown(e, y.heap) && Ends(e, y, BodyAt(at, s) + |BodyCode(s)|, x, n1, fuel)
    ensures Runs(k, code, at, at + |TurnsCode(s)|, x, v, n)
    ensures v == w.(pc := at, heap := e.heap)
    ensures ReadyStmt(code, at, TurnsCode(s), v) && InLoop(v, at, at + |TurnsCode(s)|)
  {
    hide Runs, Lies, Code, BodyCode, TurnsCode, Encode, Framed;
    TurnsLie(code, at, s);
    var hi := at + |TurnsCode(s)|;
    v := w.(pc := at, heap := e.heap);
    FramedLater(w, v);
    assert w.scopes[..|w.scopes|] == w.scopes;
    if e.Continued? {
      n := 0;
      RunNone(k, code, at, hi, x);
      return;
    }
    var p := RunSimple(k, code, hi - 3, Drop, x);
    assert Below(x, 1) == w.stack;
    var q := RunSimple(k, code, hi - 2, Instr.Continue, p);
    n := 2;
    Join(k, code, at, hi, x, hi - 3, hi - 2, p, 1, hi - 2, hi - 1, q, 1);
  }

  /** The equations of `Turns`, with the machine `y` that starts the body. */
  lemma TurnsCases(k: Arith, s: Stmt, w: Machine, fuel: nat)
    requires IsLoop(s) && ProperStmt(s) && Scoped(CtxOf(w), w.heap)
    ensures var c := CtxOf(w);
            var r, all := Eval(k, s.c, c, w.heap), Turns(k, s, s.c, c, w.heap, fuel);
            Scoped(c, r.heap)
            && (r.Error? ==> all == Failing(r.err, r.heap))
            && (r.Value? && !Truthy(k, r.v) ==> all == Normal(Undefined, r.heap))
            && (r.Value? && Truthy(k, r.v) ==> all == AfterBody(k, s, c, LoopBody(k, s, c, r.heap, fuel), fuel))
  {
    hide Eval, Truthy, LoopBody;
  }

  /** How a loop goes on once its body has ended. */
  function AfterBody(k: Arith, s: Stmt, c: Ctx, e: Ending, fuel: nat): Ending
    requires IsLoop(s) && ProperStmt(s) && (!e.OutOfFuel? ==> Scoped(c, e.heap))
  {
    if e.Normal? || e.Continued? then
      if fuel == 0 then OutOfFuel else Turns(k, s, s.c, c, e.heap, fuel - 1)
    else if e.Broke? then Normal(Undefined, e.heap)
    else e
  }

  /** A body that ended for good ends the loop. */
  lemma BodyOver(e: Ending, y: Machine, w: Machine, at: nat, out: int, pc: int, x: Machine, n1: nat, n: nat, fuel: nat)
    requires Framed(w) && Framed(y) && y == w.(pc := y.pc, heap := y.heap) && InLoop(w, at, out)
    requires Ends(e, y, pc, x, n1, fuel) && !e.Normal? && !e.Continued? && n >= n1
    ensures Over(if e.Broke? then Normal(Undefined, e.heap) else e, w, out, x, n, fuel)
  {
    hide Framed, AtContinue, AtReturn;
    if e.Broke? {
      assert w.scopes[..|w.scopes|] == w.scopes;
    } else if !e.OutOfFuel? {
      LeavesOuter(e, y, w, x);
    }
  }

  /** A loop may start a turn late. */
  lemma OverLater(r: Ending, v: Machine, w: Machine, out: int, z: Machine, n1: nat, n: nat, fuel: nat)
    requires Framed(w) && Framed(v) && v == w.(pc := v.pc, heap := v.heap) && w.loops != []
    requires Over(r, v, out, z, n1, fuel) && n > n1
    ensures Over(r, w, out, z, n, fuel + 1)
  {
    hide Framed, AtContinue, AtReturn, AtBreak;
    if r.Returned? || r.Failing? {
      LeavesOuter(r, v, w, z);
    }
  }

  lemma OverAtOnce(r: Outcome, w: Machine, out: int, z: Machine, n: nat, fuel: nat)
    requires Framed(w) && w.loops != []
    requires if r.Error? then Stops(z, r.err, r.heap) else z == LoopOver(w, out, r.heap)
    ensures Over(if r.Error? then Failing(r.err, r.heap) else Normal(Undefined, r.heap), w, out, z, n, fuel)
  {}

  /** Running the turns of a loop ends as the tree of the loop says. */
  lemma {:induction false} RunTurns(k: Arith, code: seq<Byte>, at: nat, s: Stmt, w: Machine, fuel: nat)
    returns (n: nat, z: Machine)
    requires IsLoop(s) && ReadyStmt(code, at, TurnsCode(s), w) && ProperStmt(s)
    requires InLoop(w, at, at + |TurnsCode(s)|)
    ensures Runs(k, code, at, at + |TurnsCode(s)|, w, z, n)
    ensures Scoped(CtxOf(w), w.heap)
    ensures Over(Turns(k, s, s.c, CtxOf(w), w.heap, fuel), w, at + |TurnsCode(s)|, z, n, fuel)
    decreases fuel, s, 2
  {
    hide Runs, Lies, Framed, Scoped, TurnsCode, Ends, Over, Turns, LoopBody, BodyCode, Eval, Truthy, Code, LoopOver, BodyAt;
    FramedScoped(w);
    TurnsCases(k, s, w, fuel);
    var hi := at + |TurnsCode(s)|;
    var r := Eval(k, s.c, CtxOf(w), w.heap);
    var n1, y := RunTest(k, code, at, s, w);
    if r.Error? || !Truthy(k, r.v) {
      OverAtOnce(r, w, hi, y, n1, fuel);
      return n1, y;
    }
    TurnsLie(code, at, s);
    FramedLater(w, y);
    var n2, x := RunBody(k, code, y.pc, s, y, fuel);
    Join(k, code, at, hi, w, at, hi, y, n1, y.pc, y.pc + |BodyCode(s)|, x, n2);
    var e := LoopBody(k, s, CtxOf(y), y.heap, fuel);
    if e.Normal? || e.Continued? {
      n, z := RunRest(k, code, at, s, w, y, e, x, n1, n2, fuel);
    } else {
      n, z := n1 + n2, x;
      BodyOver(e, y, w, at, hi, y.pc + |BodyCode(s)|, x, n2, n, fuel);
    }
  }

  /** The remaining turns, once a body has ended that lets the loop go on. */
  lemma RunRest(k: Arith, code: seq<Byte>, at: nat, s: Stmt, w: Machine, y: Machine, e: Ending, x: Machine,
                n1: nat, n2: nat, fuel: nat) returns (n: nat, z: Machine)
    requires IsLoop(s) && ReadyStmt(code, at, TurnsCode(s), w) && ProperStmt(s)
    requires InLoop(w, at, at + |TurnsCode(s)|)
    requires Framed(y) && y == w.(pc := BodyAt(at, s), heap := y.heap) && |y.heap| >= |w.heap|
    requires e.Normal? || e.Continued?
    requires Grown(e, y.heap) && Ends(e, y, BodyAt(at, s) + |BodyCode(s)|, x, n2, fuel)
    requires Runs(k, code, at, at + |TurnsCode(s)|, w, x, n1 + n2) && n1 > 0
    ensures Runs(k, code, at, at + |TurnsCode(s)|, w, z, n)
    ensures Scoped(CtxOf(w), e.heap)
    ensures Over(AfterBody(k, s, CtxOf(w), e, fuel), w, at + |TurnsCode(s)|, z, n, fuel)
    decreases fuel, s, 0
  {
    hide Runs, Lies, Framed, Scoped, TurnsCode, Ends, Turns, BodyCode, Code, LoopOver, BodyAt, Leaves;
    var hi := at + |TurnsCode(s)|;
    var n3, v := RunAgain(k, code, at, s, w, y, e, x, n2, fuel);
    Join(k, code, at, hi, w, at, hi, x, n1 + n2, at, hi, v, n3);
    FramedScoped(v);
    if fuel == 0 {
      return n1 + n2 + n3, v;
    }
    var n4: nat;
    n4, z := RunTurns(k, code, at, s, v, fuel - 1);
    n := n1 + n2 + n3 + n4;
    Join(k, code, at, hi, w, at, hi, v, n1 + n2 + n3, at, hi, z, n4);
    OverLater(Turns(k, s, s.c, CtxOf(v), v.heap, fuel - 1), v, w, hi, z, n4, n, fuel - 1);
  }

  // ----- whole loops -----

  /** Behind `OP_LOOP`, whose break leads to `out`. */
  function Entered(m: Machine, at: int, out: int): Machine {
    Opened(m, at).(loops := m.loops + [LoopFrame(|m.scopes| + 1, out, at)])
  }

  lemma FramedEntered(m: Machine, at: int, out: int)
    requires Framed(m)
    ensures Framed(Entered(m, at, out)) && CtxOf(Entered(m, at, out)) == Inner(CtxOf(m), m.heap)
  {}

  /** Where the turns of a loop start. */
  function TurnsAt(at: nat, s: Stmt): (r: nat)
    requires IsLoop(s)
    ensures r >= at + 1
  {
    at + 1 + |LoopHead(Code(s.c), BodyCode(s))|
  }

  lemma LoopLies(code: seq<Byte>, at: nat, s: Stmt)
    requires IsLoop(s) && Lies(code, at, StmtCode(s))
    ensures Lies(code, at, Asm(NewScope)) && Lies(code, at + 1, LoopHead(Code(s.c), BodyCode(s)))
    ensures Lies(code, TurnsAt(at, s), TurnsCode(s))
    ensures Lies(code, TurnsAt(at, s) + |TurnsCode(s)|, Asm(DelScope))
    ensures TurnsAt(at, s) + |TurnsCode(s)| + 1 == at + |StmtCode(s)|
  {
    hide Lies, Code, BodyCode, StmtCode, LoopTurn, LoopHead;
    var c, b := Code(s.c), BodyCode(s);
    LoopLayout(s);
    LiesSplit(code, at, Asm(NewScope) + LoopHead(c, b) + LoopTurn(c, b) + Asm(Instr.Break), Asm(DelScope));
    LoopRegroup(Asm(NewScope), LoopHead(c, b), LoopTurn(c, b), Asm(Instr.Break));
    LiesSplit(code, at, Asm(NewScope) + LoopHead(c, b), TurnsCode(s));
    LiesSplit(code, at, Asm(NewScope), LoopHead(c, b));
  }

  /** The scope and the frame that open a loop. */
  lemma RunHead(k: Arith, code: seq<Byte>, at: nat, s: Stmt, m: Machine) returns (p: nat)
    requires IsLoop(s) && ReadyStmt(code, at, StmtCode(s), m)
    ensures p == TurnsAt(at, s)
    ensures Lies(code, p, TurnsCode(s)) && Lies(code, p + |TurnsCode(s)|, Asm(DelScope))
    ensures p + |TurnsCode(s)| + 1 == at + |StmtCode(s)|
    ensures Runs(k, code, at, p, m, Entered(m, p, p + |TurnsCode(s)|), 2)
  {
    hide Runs, Lies, Code, BodyCode, Encode, StmtCode, LoopTurn, Framed;
    var c, b := Code(s.c), BodyCode(s);
    var i := Loop(1 + |LoopTurn(c, b)| + 1, 0, 1);
    LoopLies(code, at, s);
    p := TurnsAt(at, s);
    LiesWithin(code, p, TurnsCode(s));
    OneByteZero();
    var y := RunSimple(k, code, at, NewScope, m);
    RunOne(k, code, at + 1, i, y);
    Join(k, code, at, p, m, at, at + 1, y, 1, at + 1, p, Do(k, i, p, y), 1);
  }

  lemma OneByteZero()
    ensures Encode(0) == [0]
  {}

  lemma LoopRegroup(a: seq<Byte>, b: seq<Byte>, c: seq<Byte>, d: seq<Byte>)
    ensures a + b + c + d == a + b + (c + d)
  {}

  lemma RunLoop(k: Arith, code: seq<Byte>, at: nat, s: Stmt, m: Machine, fuel: nat) returns (n: nat, z: Machine)
    requires IsLoop(s) && ReadyStmt(code, at, StmtCode(s), m) && ProperStmt(s)
    ensures Runs(k, code, at, at + |StmtCode(s)|, m, z, n)
    ensures Scoped(CtxOf(m), m.heap)
    ensures Ends(Exec(k, s, CtxOf(m), m.heap, fuel), m, at + |StmtCode(s)|, z, n, fuel)
    decreases fuel, s, 3
  {
    hide Runs, Lies, Framed, Scoped, TurnsCode, Over, Turns, BodyCode, Code, StmtCode, Ends, Eval;
    FramedScoped(m);
    var p := RunHead(k, code, at, s, m);
    var q := p + |TurnsCode(s)|;
    var w := Entered(m, p, q);
    FramedEntered(m, p, q);
    FramedScoped(w);
    var n1, x := RunTurns(k, code, p, s, w, fuel);
    Join(k, code, at, q + 1, m, at, p, w, 2, p, q, x, n1);
    var r := Turns(k, s, s.c, CtxOf(w), w.heap, fuel);
    n, z := RunClose(k, code, m, p, q, r, x, n1, fuel);
    Join(k, code, at, q + 1, m, at, q + 1, x, 2 + n1, q, q + 1, z, n);
    LoopExec(k, s, m, fuel);
    n := 2 + n1 + n;
    EndsElsewhen(r, m, q + 1, z, n - 2, n, fuel);
  }

  lemma LoopExec(k: Arith, s: Stmt, m: Machine, fuel: nat)
    requires IsLoop(s) && ProperStmt(s) && Framed(m)
    ensures Scoped(Inner(CtxOf(m), m.heap), m.heap + [map[]])
    ensures Exec(k, s, CtxOf(m), m.heap, fuel) == Turns(k, s, s.c, Inner(CtxOf(m), m.heap), m.heap + [map[]], fuel)
  {
    hide Turns;
  }

  lemma EndsElsewhen(r: Ending, m: Machine, pc: int, z: Machine, n1: nat, n: nat, fuel: nat)
    requires Framed(m) && Ends(r, m, pc, z, n1, fuel) && n1 <= n
    ensures Ends(r, m, pc, z, n, fuel)
  {
    hide Framed, Leaves;
  }

  /** The scope of a loop is closed behind it; whoever leaves the loop early is past it. */
  lemma RunClose(k: Arith, code: seq<Byte>, m: Machine, p: nat, q: nat, r: Ending, x: Machine, n1: nat, fuel: nat)
    returns (n: nat, z: Machine)
    requires Framed(m) && m.status == Running && Framed(Entered(m, p, q)) && Over(r, Entered(m, p, q), q, x, n1, fuel)
    requires Lies(code, q, Asm(DelScope))
    requires Small(code)
    ensures Runs(k, code, q, q + 1, x, z, n)
    ensures Ends(r, m, q + 1, z, n1 + n, fuel)
  {
    hide Runs, Lies, Framed, AtBreak, AtContinue, AtReturn;
    var w := Entered(m, p, q);
    if r.Normal? {
      assert w.loops[..|w.loops| - 1] == m.loops && w.scopes[..|w.scopes| - 1] == m.scopes;
      z := RunSimple(k, code, q, DelScope, x);
      n := 1;
    } else {
      n, z := 0, x;
      RunNone(k, code, q, q + 1, x);
      if !r.OutOfFuel? {
        LeavesOuter(r, w, m, z);
      }
    }
  }
}
