/** Compiled expressions compute what their trees mean. */
module ExprRuns {
  import opened Varint
  import opened Bytecode
  import opened Tokens
  import opened Syntax
  import opened Machine
  import opened Evaluate

  // ----- runs -----

  /** `n` steps lead from `a` to `b`, every one of them at an instruction in `code[lo..hi]`. */
  ghost predicate Runs(k: Arith, code: seq<Byte>, lo: int, hi: int, a: Machine, b: Machine, n: nat)
    decreases n
  {
    if n == 0 then a == b
    else lo <= a.pc < hi && a.status == Running && Runs(k, code, lo, hi, Step(k, code, a), b, n - 1)
  }

  lemma {:induction false} Join(k: Arith, code: seq<Byte>, lo: int, hi: int, a: Machine,
                                lo1: int, hi1: int, b: Machine, n1: nat, lo2: int, hi2: int, c: Machine, n2: nat)
    requires Runs(k, code, lo1, hi1, a, b, n1) && Runs(k, code, lo2, hi2, b, c, n2)
    requires lo <= lo1 && hi1 <= hi && lo <= lo2 && hi2 <= hi
    ensures Runs(k, code, lo, hi, a, c, n1 + n2)
    decreases n1, n2
  {
    hide Step;
    if n1 > 0 {
      Join(k, code, lo, hi, Step(k, code, a), lo1, hi1, b, n1 - 1, lo2, hi2, c, n2);
    } else if n2 > 0 {
      Join(k, code, lo, hi, Step(k, code, b), lo2, hi2, Step(k, code, b), 0, lo2, hi2, c, n2 - 1);
    }
  }

  lemma Widen(k: Arith, code: seq<Byte>, lo: int, hi: int, lo1: int, hi1: int, a: Machine, b: Machine, n: nat)
    requires Runs(k, code, lo1, hi1, a, b, n)
    requires lo <= lo1 && hi1 <= hi
    ensures Runs(k, code, lo, hi, a, b, n)
  {
    hide Step;
    Join(k, code, lo, hi, a, lo1, hi1, b, n, lo1, hi1, b, 0);
  }

  /** Runs are deterministic: the longer of two runs passes through the end of the shorter one. */
  lemma {:induction false} SamePath(k: Arith, code: seq<Byte>, lo: int, hi: int, a: Machine, b: Machine, n: nat,
                                    lo2: int, hi2: int, c: Machine, n2: nat)
    requires Runs(k, code, lo, hi, a, b, n) && Runs(k, code, lo2, hi2, a, c, n2) && n <= n2
    ensures Runs(k, code, lo2, hi2, b, c, n2 - n)
    decreases n
  {
    hide Step;
    if n > 0 {
      SamePath(k, code, lo, hi, Step(k, code, a), b, n - 1, lo2, hi2, c, n2 - 1);
    }
  }

  /** One instruction that lies where the machine is. */
  lemma RunOne(k: Arith, code: seq<Byte>, at: nat, i: Instr, m: Machine)
    requires Lies(code, at, Asm(i)) && Encodable(i) && m.pc == at && m.status == Running
    ensures Runs(k, code, at, at + |Asm(i)|, m, Do(k, i, at + |Asm(i)|, m), 1)
  {
    hide Do, Asm, Fetch;
    FetchOfAsm(code, at, i);
    var next := Do(k, i, at + |Asm(i)|, m);
    assert Step(k, code, m) == next;
    assert Runs(k, code, at, at + |Asm(i)|, next, next, 0);
  }

  // ----- expressions -----

  function CtxOf(m: Machine): Ctx {
    Ctx(m.scopes, m.self)
  }

  /** The machine once it has computed a value at `pc`. */
  function With(m: Machine, pc: int, v: Val, h: Heap): Machine {
    m.(pc := pc, stack := m.stack + [v], heap := h)
  }

  /** `z` is where an evaluation that started in `m` ends: one more value on the stack and nothing else
      changed but the heap, or stopped with the error. */
  ghost predicate After(r: Outcome, m: Machine, pc: int, z: Machine) {
    match r
    case Value(v, h) => z == With(m, pc, v, h)
    case Error(err, h) => z.status == Failed(err) && z.heap == h
  }

  /** Code positions fit a C `int`. */
  predicate Small(code: seq<Byte>) {
    |code| <= INT_MAX
  }

  predicate Ready(code: seq<Byte>, at: int, s: seq<Byte>, m: Machine) {
    Small(code) && Lies(code, at, s) && m.pc == at && m.status == Running
  }

  /** Running the code of `e`, wherever it lies and whatever is on the stacks, has the outcome of its tree. */
  lemma {:induction false} RunExpr(k: Arith, code: seq<Byte>, at: nat, e: Expr, m: Machine)
    returns (n: nat, z: Machine)
    requires Ready(code, at, Code(e), m) && Proper(e)
    ensures Runs(k, code, at, at + |Code(e)|, m, z, n)
    ensures After(Eval(k, e, CtxOf(m), m.heap), m, at + |Code(e)|, z)
    decreases e, 1
  {
    hide Runs, After, Eval, Code, Lies;
    match e {
      case Lit(_) => n, z := RunLit(k, code, at, e, m);
      case Ident(x) => n, z := RunIdent(k, code, at, x, m);
      case Paren(x) => n, z := RunParen(k, code, at, x, m);
      case Unary(op, x) =>
        if IsCrement(op) {
          n, z := RunCrement(k, code, at, e, x.x, op, m);
        } else {
          n, z := RunUnary(k, code, at, op, x, m);
        }
      case Postfix(op, x) => n, z := RunCrement(k, code, at, e, x.x, PostfixCode(op), m);
      case Binary(op, l, r) => n, z := RunBinary(k, code, at, op, l, r, m);
      case Logical(op, l, r) => n, z := RunLogical(k, code, at, op, l, r, m);
      case Cond(c, t, f) => n, z := RunCond(k, code, at, c, t, f, m);
      case Assign(op, l, r) => n, z := RunAssign(k, code, at, op, l.x, r, m);
    }
  }

  lemma RunParen(k: Arith, code: seq<Byte>, at: nat, e: Expr, m: Machine) returns (n: nat, z: Machine)
    requires Ready(code, at, Code(Paren(e)), m) && Proper(e)
    ensures Runs(k, code, at, at + |Code(Paren(e))|, m, z, n)
    ensures After(Eval(k, Paren(e), CtxOf(m), m.heap), m, at + |Code(Paren(e))|, z)
    decreases Paren(e), 0
  {
    hide Runs, After, Lies, Code, Eval;
    ParenIsTransparent(k, e, CtxOf(m), m.heap);
    n, z := RunExpr(k, code, at, e, m);
  }

  lemma ParenIsTransparent(k: Arith, e: Expr, c: Ctx, h: Heap)
    requires Proper(e)
    ensures Code(Paren(e)) == Code(e) && Eval(k, Paren(e), c, h) == Eval(k, e, c, h)
  {}

  lemma RunLit(k: Arith, code: seq<Byte>, at: nat, e: Expr, m: Machine) returns (n: nat, z: Machine)
    requires e.Lit? && Ready(code, at, Code(e), m)
    ensures Runs(k, code, at, at + |Code(e)|, m, z, n)
    ensures After(Eval(k, e, CtxOf(m), m.heap), m, at + |Code(e)|, z)
  {
    hide Runs, Encode, Lies;
    var i := LiteralCode(e.lit);
    SmallOperand(code, at, i);
    RunOne(k, code, at, i, m);
    n, z := 1, Do(k, i, at + |Asm(i)|, m);
  }

  /** What lies in small code fits its operands. */
  lemma SmallOperand(code: seq<Byte>, at: nat, i: Instr)
    requires Small(code) && Lies(code, at, Asm(i))
    requires i.PushStr? || i.PushDbl? || (i.PushInt? && 0 <= i.whole < 0x8000_0000_0000_0000) || i.PushBool? || i.PushNull?
             || i.PushUndef? || i.PushThis?
    ensures Encodable(i)
  {
    if i.PushInt? {
      Pow2At64();
      assert Pow2(64) == 2 * Pow2(63);
    }
  }

  /** Finding the scope of a variable. */
  lemma RunRef(k: Arith, code: seq<Byte>, at: nat, x: Text, m: Machine) returns (n: nat, z: Machine)
    requires Ready(code, at, RefCode(x), m)
    ensures Runs(k, code, at, at + |RefCode(x)|, m, z, n)
    ensures match OwnerOf(m.heap, m.scopes, x)
            case None => z.status == Failed(ReferenceError) && z.heap == m.heap
            case Some(ref) => z == m.(pc := at + |RefCode(x)|, stack := m.stack + [Str(x), Obj(ref)])
  {
    hide Runs, Encode, Lies, OwnerOf;
    var a := Asm(PushStr(x));
    LiesSplit(code, at, a, Asm(FindScope));
    SmallOperand(code, at, PushStr(x));
    RunOne(k, code, at, PushStr(x), m);
    var y := Push(m, at + |a|, Str(x));
    RunOne(k, code, at + |a|, FindScope, y);
    n, z := 2, Do(k, FindScope, at + |a| + 1, y);
    Join(k, code, at, at + |RefCode(x)|, m, at, at + |a|, y, 1, at + |a|, at + |a| + 1, z, 1);
    assert y.stack[..|y.stack|] == y.stack && y.stack + [Obj(0)] == m.stack + [Str(x), Obj(0)];
    forall ref: nat ensures y.stack + [Obj(ref)] == m.stack + [Str(x), Obj(ref)] {}
  }

  lemma RunIdent(k: Arith, code: seq<Byte>, at: nat, x: Text, m: Machine) returns (n: nat, z: Machine)
    requires Ready(code, at, Code(Ident(x)), m)
    ensures Runs(k, code, at, at + |Code(Ident(x))|, m, z, n)
    ensures After(Eval(k, Ident(x), CtxOf(m), m.heap), m, at + |Code(Ident(x))|, z)
  {
    hide Runs, Encode, Lies, OwnerOf, RefCode;
    var b := at + |RefCode(x)|;
    LiesSplit(code, at, RefCode(x), Asm(Get));
    var n1, y := RunRef(k, code, at, x, m);
    if OwnerOf(m.heap, m.scopes, x).None? {
      Widen(k, code, at, b + 1, at, b, m, y, n1);
      return n1, y;
    }
    RunOne(k, code, b, Get, y);
    z := Do(k, Get, b + 1, y);
    n := n1 + 1;
    Join(k, code, at, b + 1, m, at, b, y, n1, b, b + 1, z, 1);
    assert Below(y, 2) == m.stack;
  }

  lemma RunUnary(k: Arith, code: seq<Byte>, at: nat, op: nat, e: Expr, m: Machine) returns (n: nat, z: Machine)
    requires Ready(code, at, Code(Unary(op, e)), m) && Proper(e) && IsUnary(op) && !IsCrement(op)
    ensures Runs(k, code, at, at + |Code(Unary(op, e))|, m, z, n)
    ensures After(Eval(k, Unary(op, e), CtxOf(m), m.heap), m, at + |Code(Unary(op, e))|, z)
    decreases e, 2
  {
    hide Runs, Encode, Lies, Code, Transform;
    var i := Instr.Expr(UnaryCode(op));
    var b := at + |Code(e)|;
    UnaryLayout(op, e);
    LiesSplit(code, at, Code(e), Asm(i));
    var n1, y := RunExpr(k, code, at, e, m);
    var r := Eval(k, e, CtxOf(m), m.heap);
    if r.Error? {
      Widen(k, code, at, b + 2, at, b, m, y, n1);
      return n1, y;
    }
    RunOne(k, code, b, i, y);
    z := Do(k, i, b + 2, y);
    n := n1 + 1;
    Join(k, code, at, b + 2, m, at, b, y, n1, b, b + 2, z, 1);
    assert Below(y, 1) == m.stack;
  }

  lemma UnaryLayout(op: nat, e: Expr)
    requires IsUnary(op)
    ensures Code(Unary(op, e)) == Code(e) + Asm(Instr.Expr(UnaryCode(op)))
  {}

  /** An increment or decrement, before or after the variable. */
  lemma RunCrement(k: Arith, code: seq<Byte>, at: nat, e: Expr, x: Text, op: Byte, m: Machine)
    returns (n: nat, z: Machine)
    requires Ready(code, at, Code(e), m) && Proper(e)
    requires (e.Unary? && IsCrement(e.op) && op == e.op && x == e.e.x) || (e.Postfix? && op == PostfixCode(e.op) && x == e.e.x)
    ensures Runs(k, code, at, at + |Code(e)|, m, z, n)
    ensures After(Eval(k, e, CtxOf(m), m.heap), m, at + |Code(e)|, z)
  {
    hide Runs, Encode, Lies, OwnerOf, RefCode, Update, Do, Settle;
    assert Code(e) == RefCode(x) + Asm(Instr.Expr(op));
    var i := Instr.Expr(op);
    var b := at + |RefCode(x)|;
    LiesSplit(code, at, RefCode(x), Asm(i));
    var n1, y := RunRef(k, code, at, x, m);
    if OwnerOf(m.heap, m.scopes, x).None? {
      Widen(k, code, at, b + 2, at, b, m, y, n1);
      return n1, y;
    }
    z := RunStep(k, code, b, op, y, m, x, OwnerOf(m.heap, m.scopes, x).value);
    n := n1 + 1;
    Join(k, code, at, b + 2, m, at, b, y, n1, b, b + 2, z, 1);
  }

  /** The increment or decrement behind key and scope. */
  lemma RunStep(k: Arith, code: seq<Byte>, b: nat, op: Byte, y: Machine, m: Machine, x: Text, ref: nat)
    returns (z: Machine)
    requires Ready(code, b, Asm(Instr.Expr(op)), y) && IsStep(op) && ref < |m.heap|
    requires y == m.(pc := b, stack := m.stack + [Str(x), Obj(ref)])
    ensures Runs(k, code, b, b + 2, y, z, 1)
    ensures After(Settle(Update(k, op, m.heap, ref, x, Undefined)), m, b + 2, z)
  {
    hide Runs, Lies, Update, Fetch, Encode;
    var i := Instr.Expr(op);
    RunOne(k, code, b, i, y);
    z := Do(k, i, b + 2, y);
    assert Below(y, 2) == m.stack;
  }

  lemma RunBinary(k: Arith, code: seq<Byte>, at: nat, op: nat, l: Expr, r: Expr, m: Machine)
    returns (n: nat, z: Machine)
    requires Ready(code, at, Code(Binary(op, l, r)), m) && Proper(l) && Proper(r) && IsBinary(op)
    ensures Runs(k, code, at, at + |Code(Binary(op, l, r))|, m, z, n)
    ensures After(Eval(k, Binary(op, l, r), CtxOf(m), m.heap), m, at + |Code(Binary(op, l, r))|, z)
    decreases Binary(op, l, r), 0
  {
    hide Runs, Encode, Lies, Code, Combine, Do, Eval;
    BinaryLayout(op, l, r);
    EvalBinary(k, op, l, r, CtxOf(m), m.heap);
    var i := Instr.Expr(op);
    var a := at + |Code(l)|;
    var b := a + |Code(r)|;
    LiesSplit(code, at, Code(l) + Code(r), Asm(i));
    LiesSplit(code, at, Code(l), Code(r));
    var n1, y := RunExpr(k, code, at, l, m);
    var rl := Eval(k, l, CtxOf(m), m.heap);
    if rl.Error? {
      Widen(k, code, at, b + 2, at, a, m, y, n1);
      return n1, y;
    }
    var n2, w := RunExpr(k, code, a, r, y);
    Join(k, code, at, b + 2, m, at, a, y, n1, a, b, w, n2);
    var rr := Eval(k, r, CtxOf(m), rl.heap);
    if rr.Error? {
      return n1 + n2, w;
    }
    z := RunOperator(k, code, b, op, w, m, rl.v, rr.v);
    n := n1 + n2 + 1;
    Join(k, code, at, b + 2, m, at, b + 2, w, n1 + n2, b, b + 2, z, 1);
  }

  /** The operator behind its two operands. */
  lemma RunOperator(k: Arith, code: seq<Byte>, b: nat, op: Byte, w: Machine, m: Machine, v1: Val, v2: Val)
    returns (z: Machine)
    requires Ready(code, b, Asm(Instr.Expr(op)), w) && IsBinary(op)
    requires w == With(With(m, b, v1, w.heap), b, v2, w.heap)
    ensures Runs(k, code, b, b + 2, w, z, 1)
    ensures match Combine(k, op, v1, v2)
            case Gives(v) => z == With(m, b + 2, v, w.heap)
            case Fails(err) => z.status == Failed(err) && z.heap == w.heap
  {
    hide Runs, Lies, Combine;
    var i := Instr.Expr(op);
    RunOne(k, code, b, i, w);
    z := Do(k, i, b + 2, w);
    assert Below(w, 2) == m.stack;
  }

  lemma EvalBinary(k: Arith, op: nat, l: Expr, r: Expr, c: Ctx, h: Heap)
    requires Proper(l) && Proper(r) && IsBinary(op)
    ensures var e, a := Eval(k, Binary(op, l, r), c, h), Eval(k, l, c, h);
            (a.Error? ==> e == a)
            && (a.Value? ==>
                var b := Eval(k, r, c, a.heap);
                (b.Error? ==> e == b)
                && (b.Value? ==>
                    e == match Combine(k, op, a.v, b.v) case Gives(v) => Value(v, b.heap) case Fails(err) => Error(err, b.heap)))
  {
    hide Combine, IsBinary, OwnerOf, Update, Transform, Truthy, Settle, Crement, Variable, LiteralValue, UnaryCode;
  }

  lemma BinaryLayout(op: nat, l: Expr, r: Expr)
    requires IsBinary(op)
    ensures Code(Binary(op, l, r)) == Code(l) + Code(r) + Asm(Instr.Expr(op))
  {}

  lemma AssignLayout(op: nat, x: Text, r: Expr)
    requires IsAssignOp(op)
    ensures Code(Assign(op, Ref(x), r)) == RefCode(x) + Code(r) + Asm(Instr.Expr(op))
  {}

  lemma LogicalLayout(op: nat, l: Expr, r: Expr)
    ensures Code(Logical(op, l, r)) == Code(l) + SkipCode(op, |Code(r)|) + Code(r)
  {}

  lemma CondLayout(c: Expr, t: Expr, f: Expr)
    ensures Code(Cond(c, t, f)) == Code(c) + Branches(Code(t), Code(f))
  {}

  lemma RunAssign(k: Arith, code: seq<Byte>, at: nat, op: nat, x: Text, r: Expr, m: Machine)
    returns (n: nat, z: Machine)
    requires Ready(code, at, Code(Assign(op, Ref(x), r)), m) && Proper(r) && IsAssignOp(op)
    ensures Runs(k, code, at, at + |Code(Assign(op, Ref(x), r))|, m, z, n)
    ensures After(Eval(k, Assign(op, Ref(x), r), CtxOf(m), m.heap), m, at + |Code(Assign(op, Ref(x), r))|, z)
    decreases Assign(op, Ref(x), r), 0
  {
    hide Runs, Encode, Lies, Code, Update, OwnerOf, RefCode, Do, Settle;
    AssignLayout(op, x, r);
    var i := Instr.Expr(op);
    var a := at + |RefCode(x)|;
    var b := a + |Code(r)|;
    LiesSplit(code, at, RefCode(x) + Code(r), Asm(i));
    LiesSplit(code, at, RefCode(x), Code(r));
    var n1, y := RunRef(k, code, at, x, m);
    if OwnerOf(m.heap, m.scopes, x).None? {
      Widen(k, code, at, b + 2, at, a, m, y, n1);
      return n1, y;
    }
    var n2, w := RunExpr(k, code, a, r, y);
    Join(k, code, at, b + 2, m, at, a, y, n1, a, b, w, n2);
    var rr := Eval(k, r, CtxOf(m), m.heap);
    if rr.Error? {
      return n1 + n2, w;
    }
    z := RunUpdate(k, code, b, op, w, m, x, OwnerOf(m.heap, m.scopes, x).value, rr.v);
    n := n1 + n2 + 1;
    Join(k, code, at, b + 2, m, at, b + 2, w, n1 + n2, b, b + 2, z, 1);
  }

  /** The assignment behind key, scope and value. */
  lemma RunUpdate(k: Arith, code: seq<Byte>, b: nat, op: Byte, w: Machine, m: Machine, x: Text, ref: nat, v: Val)
    returns (z: Machine)
    requires Ready(code, b, Asm(Instr.Expr(op)), w) && IsAssignOp(op) && ref < |w.heap|
    requires w == With(m.(stack := m.stack + [Str(x), Obj(ref)]), b, v, w.heap)
    ensures Runs(k, code, b, b + 2, w, z, 1)
    ensures After(Settle(Update(k, op, w.heap, ref, x, v)), m, b + 2, z)
  {
    hide Runs, Lies, Update;
    var i := Instr.Expr(op);
    RunOne(k, code, b, i, w);
    z := Do(k, i, b + 2, w);
    assert Below(w, 1) == m.stack + [Str(x), Obj(ref)];
    assert (m.stack + [Str(x), Obj(ref)])[..|m.stack|] == m.stack;
  }

  lemma RunLogical(k: Arith, code: seq<Byte>, at: nat, op: nat, l: Expr, r: Expr, m: Machine)
    returns (n: nat, z: Machine)
    requires Ready(code, at, Code(Logical(op, l, r)), m) && Proper(l) && Proper(r) && IsLogical(op)
    ensures Runs(k, code, at, at + |Code(Logical(op, l, r))|, m, z, n)
    ensures After(Eval(k, Logical(op, l, r), CtxOf(m), m.heap), m, at + |Code(Logical(op, l, r))|, z)
    decreases Logical(op, l, r), 0
  {
    hide Runs, Encode, Lies, Code, Truthy, Do, SkipCode;
    LogicalLayout(op, l, r);
    var a := at + |Code(l)|;
    var b := a + |SkipCode(op, |Code(r)|)|;
    var hi := b + |Code(r)|;
    LiesSplit(code, at, Code(l) + SkipCode(op, |Code(r)|), Code(r));
    LiesSplit(code, at, Code(l), SkipCode(op, |Code(r)|));
    LiesWithin(code, b, Code(r));
    var n1, y := RunExpr(k, code, at, l, m);
    var rl := Eval(k, l, CtxOf(m), m.heap);
    if rl.Error? {
      Widen(k, code, at, hi, at, a, m, y, n1);
      return n1, y;
    }
    var n2, w := RunSkip(k, code, a, op, |Code(r)|, y, m, rl.v);
    Join(k, code, at, hi, m, at, a, y, n1, a, hi, w, n2);
    if Truthy(k, rl.v) == (op == TOK_LOGICAL_OR) {
      return n1 + n2, w;
    }
    var n3: nat;
    n3, z := RunExpr(k, code, b, r, w);
    n := n1 + n2 + n3;
    Join(k, code, at, hi, m, at, hi, w, n1 + n2, b, hi, z, n3);
  }

  /** The jump of `&&` and `||` looks at the left operand `v`, and drops it unless it is the result. */
  lemma RunSkip(k: Arith, code: seq<Byte>, a: nat, op: nat, len: nat, y: Machine, m: Machine, v: Val)
    returns (n: nat, z: Machine)
    requires Ready(code, a, SkipCode(op, len), y) && a + |SkipCode(op, len)| + len <= |code|
    requires y == With(m, a, v, y.heap)
    ensures Runs(k, code, a, a + |SkipCode(op, len)| + len, y, z, n)
    ensures z == if Truthy(k, v) == (op == TOK_LOGICAL_OR) then With(m, a + |SkipCode(op, len)| + len, v, y.heap)
                 else m.(pc := a + |SkipCode(op, len)|, heap := y.heap)
  {
    hide Runs, Encode, Lies, Truthy;
    var i := JmpNeutral(op == TOK_LOGICAL_OR, 1 + len);
    var b := a + |Asm(i)|;
    LiesSplit(code, a, Asm(i), Asm(Drop));
    RunOne(k, code, a, i, y);
    var w := Do(k, i, b, y);
    Widen(k, code, a, b + 1 + len, a, b, y, w, 1);
    if Truthy(k, v) == (op == TOK_LOGICAL_OR) {
      return 1, w;
    }
    RunOne(k, code, b, Drop, w);
    z := Do(k, Drop, b + 1, w);
    n := 2;
    Join(k, code, a, b + 1 + len, y, a, b + 1 + len, w, 1, b, b + 1, z, 1);
    assert Below(w, 1) == m.stack;
  }

  lemma LiesWithin(code: seq<Byte>, at: int, s: seq<Byte>)
    requires Lies(code, at, s)
    ensures 0 <= at && at + |s| <= |code|
  {}

  lemma RunCond(k: Arith, code: seq<Byte>, at: nat, c: Expr, t: Expr, f: Expr, m: Machine) returns (n: nat, z: Machine)
    requires Ready(code, at, Code(Cond(c, t, f)), m) && Proper(c) && Proper(t) && Proper(f)
    ensures Runs(k, code, at, at + |Code(Cond(c, t, f))|, m, z, n)
    ensures After(Eval(k, Cond(c, t, f), CtxOf(m), m.heap), m, at + |Code(Cond(c, t, f))|, z)
    decreases Cond(c, t, f), 0
  {
    hide Runs, Encode, Lies, Code, Truthy, Branches, Do, OwnerOf, Update, Transform, Combine, Crement, Variable, Settle;
    CondLayout(c, t, f);
    var a := at + |Code(c)|;
    var hi := a + |Branches(Code(t), Code(f))|;
    LiesSplit(code, at, Code(c), Branches(Code(t), Code(f)));
    var n1, y := RunExpr(k, code, at, c, m);
    var rc := Eval(k, c, CtxOf(m), m.heap);
    if rc.Error? {
      Widen(k, code, at, hi, at, a, m, y, n1);
      return n1, y;
    }
    var n2, w := RunFork(k, code, a, Code(t), Code(f), y, m, rc.v);
    Join(k, code, at, hi, m, at, a, y, n1, a, hi, w, n2);
    if Truthy(k, rc.v) {
      var n3, v := RunExpr(k, code, w.pc, t, w);
      Join(k, code, at, hi, m, at, hi, w, n1 + n2, w.pc, w.pc + |Code(t)|, v, n3);
      if Eval(k, t, CtxOf(m), rc.heap).Error? {
        return n1 + n2 + n3, v;
      }
      z := RunPast(k, code, a, Code(t), Code(f), v);
      n := n1 + n2 + n3 + 1;
      Join(k, code, at, hi, m, at, hi, v, n1 + n2 + n3, a, hi, z, 1);
    } else {
      var n3: nat;
      n3, z := RunExpr(k, code, w.pc, f, w);
      n := n1 + n2 + n3;
      Join(k, code, at, hi, m, at, hi, w, n1 + n2, w.pc, hi, z, n3);
    }
  }

  /** Where the first branch starts. */
  function ThenAt(a: nat, t: seq<Byte>, f: seq<Byte>): nat {
    a + |Asm(JmpFalse(ElseDistance(|t|, |f|)))|
  }

  /** Where the second branch starts, behind its drop. */
  function ElseAt(a: nat, t: seq<Byte>, f: seq<Byte>): nat {
    ThenAt(a, t, f) + |t| + |ElseCode(|f|)|
  }

  lemma BranchesLie(code: seq<Byte>, a: nat, t: seq<Byte>, f: seq<Byte>)
    requires Lies(code, a, Branches(t, f)) && Small(code)
    ensures Lies(code, a, Asm(JmpFalse(ElseDistance(|t|, |f|)))) && Encodable(JmpFalse(ElseDistance(|t|, |f|)))
    ensures Lies(code, ThenAt(a, t, f), t)
    ensures Lies(code, ThenAt(a, t, f) + |t|, Asm(Jmp(1 + |f|))) && Encodable(Jmp(1 + |f|))
    ensures Lies(code, ElseAt(a, t, f) - 1, Asm(Drop))
    ensures Lies(code, ElseAt(a, t, f), f)
    ensures ElseAt(a, t, f) + |f| == a + |Branches(t, f)|
    ensures a + |Branches(t, f)| <= |code|
  {
    hide Lies, Encode;
    var j := Asm(JmpFalse(ElseDistance(|t|, |f|)));
    LiesSplit(code, a, j + t + ElseCode(|f|), f);
    LiesSplit(code, a, j + t, ElseCode(|f|));
    LiesSplit(code, a, j, t);
    LiesSplit(code, ThenAt(a, t, f) + |t|, Asm(Jmp(1 + |f|)), Asm(Drop));
    LiesWithin(code, ElseAt(a, t, f), f);
  }

  /** The fork at the start of a two-way branch, having computed `v` on the stack of `m`: the stack of `m`
      is back when either branch starts. */
  lemma RunFork(k: Arith, code: seq<Byte>, a: nat, t: seq<Byte>, f: seq<Byte>, y: Machine, m: Machine, v: Val)
    returns (n: nat, z: Machine)
    requires Ready(code, a, Branches(t, f), y) && y == With(m, a, v, y.heap)
    ensures Runs(k, code, a, a + |Branches(t, f)|, y, z, n)
    ensures z == m.(pc := if Truthy(k, v) then ThenAt(a, t, f) else ElseAt(a, t, f), heap := y.heap)
    ensures Lies(code, z.pc, if Truthy(k, v) then t else f)
    ensures ThenAt(a, t, f) + |t| <= ElseAt(a, t, f) && ElseAt(a, t, f) + |f| == a + |Branches(t, f)|
    ensures n > 0
  {
    hide Runs, Encode, Lies, Truthy, Branches;
    BranchesLie(code, a, t, f);
    var i := JmpFalse(ElseDistance(|t|, |f|));
    var b := ThenAt(a, t, f);
    var hi := a + |Branches(t, f)|;
    RunOne(k, code, a, i, y);
    var w := Do(k, i, b, y);
    assert Below(y, 1) == m.stack;
    if Truthy(k, v) {
      Widen(k, code, a, hi, a, b, y, w, 1);
      return 1, w;
    }
    var d := ElseAt(a, t, f);
    RunOne(k, code, d - 1, Drop, w);
    z := Do(k, Drop, d, w);
    n := 2;
    Join(k, code, a, hi, y, a, b, w, 1, d - 1, d, z, 1);
    assert Below(w, 1) == m.stack;
  }

  /** The end of the first branch jumps behind the second. */
  lemma RunPast(k: Arith, code: seq<Byte>, a: nat, t: seq<Byte>, f: seq<Byte>, y: Machine) returns (z: Machine)
    requires Ready(code, a, Branches(t, f), y.(pc := a)) && y.pc == ThenAt(a, t, f) + |t|
    ensures Runs(k, code, a, a + |Branches(t, f)|, y, z, 1)
    ensures z == y.(pc := a + |Branches(t, f)|)
  {
    hide Runs, Encode, Lies, Branches;
    BranchesLie(code, a, t, f);
    var i := Jmp(1 + |f|);
    RunOne(k, code, y.pc, i, y);
    z := Do(k, i, y.pc + |Asm(i)|, y);
    Widen(k, code, a, a + |Branches(t, f)|, y.pc, y.pc + |Asm(i)|, y, z, 1);
  }
}
