/** The stack machine of `mjs_execute`: values, operators and one instruction at a time. */
module Machine {
  import opened Options
  import opened Varint
  import opened Bytecode
  import opened Tokens

  // ----- values -----

  /** Numbers are bit patterns of doubles, told apart but never computed with here. */
  datatype Val =
    | Undefined
    | Null
    | Boolean(b: bool)
    | Number(bits: int)
    | Str(text: Text)
    | Obj(ref: nat)
    | Func(addr: nat)

  /** Double arithmetic, left open. */
  datatype Arith = Arith(
    nan: int,
    ofWhole: int -> int,
    ofText: Text -> int,
    isZero: int -> bool,
    negate: int -> int,
    complement: int -> int,
    binary: (nat, int, int) -> int,
    compare: (nat, int, int) -> bool
  )

  datatype Err = TypeError | ReferenceError | SyntaxError | InternalError | NotImplemented

  /** The own properties of every object. */
  type Heap = seq<map<Text, Val>>

  /** `mjs_is_truthy`. */
  predicate Truthy(k: Arith, v: Val) {
    match v
    case Undefined => false
    case Null => false
    case Boolean(b) => b
    case Number(n) => !k.isZero(n) && n != k.nan
    case Str(text) => |text| > 0
    case Obj(_) => true
    case Func(_) => true
  }

  /** `mjs_get_double`: anything that is not a number reads as NaN. */
  function AsNumber(k: Arith, v: Val): int {
    if v.Number? then v.bits else k.nan
  }

  /** `check_equal`. Equal bits are equal values, except that NaN equals nothing. */
  predicate SameValue(k: Arith, a: Val, b: Val) {
    a == b && a != Number(k.nan)
  }

  datatype Computed = Computed(v: Val, failed: bool)

  /** `do_op`. A failed operation still yields `undefined`. */
  function DoOp(k: Arith, op: nat, a: Val, b: Val): Computed {
    if a.Number? && b.Number? then Computed(Number(k.binary(op, a.bits, b.bits)), false)
    else if a.Str? && b.Str? && op == TOK_PLUS then Computed(Str(a.text + b.text), false)
    else Computed(Undefined, true)
  }

  datatype Combined = Gives(v: Val) | Fails(err: Err)

  /** `exec_expr` on a binary operator; `b` was on top of the stack. */
  function Combine(k: Arith, op: nat, a: Val, b: Val): Combined
    requires IsBinary(op)
  {
    if IsArith(op) then
      var d := DoOp(k, op, a, b);
      if d.failed then Fails(TypeError) else Gives(d.v)
    else if IsComparison(op) then Gives(Boolean(k.compare(op, AsNumber(k, a), AsNumber(k, b))))
    else if op == TOK_EQ_EQ then Gives(Boolean(SameValue(k, b, a)))
    else if op == TOK_NE_NE then Gives(Boolean(!SameValue(k, b, a)))
    else Fails(NotImplemented)
  }

  /** `exec_expr` on a unary operator. */
  function Transform(k: Arith, op: nat, a: Val): Val
    requires IsUnaryCode(op)
  {
    if op == TOK_UNARY_MINUS then Number(k.negate(AsNumber(k, a)))
    else if op == TOK_NOT then Boolean(!Truthy(k, a))
    else if op == TOK_TILDA then Number(k.complement(AsNumber(k, a)))
    else if op == TOK_KEYWORD_TYPEOF then Str(TypeName(a))
    else a
  }

  /** `mjs_typeof`, as bytes. */
  function TypeName(v: Val): Text {
    match v
    case Undefined => [117, 110, 100, 101, 102, 105, 110, 101, 100]
    case Null => [110, 117, 108, 108]
    case Boolean(_) => [98, 111, 111, 108, 101, 97, 110]
    case Number(_) => [110, 117, 109, 98, 101, 114]
    case Str(_) => [115, 116, 114, 105, 110, 103]
    case Obj(_) => [111, 98, 106, 101, 99, 116]
    case Func(_) => [102, 117, 110, 99, 116, 105, 111, 110]
  }

  // ----- variables -----

  predicate Has(h: Heap, ref: nat, x: Text) {
    ref < |h| && x in h[ref]
  }

  /** `mjs_find_scope`: the innermost scope object that owns `x`. */
  function OwnerOf(h: Heap, scopes: seq<nat>, x: Text): (r: Option<nat>)
    ensures r.Some? ==> Has(h, r.value, x)
  {
    if scopes == [] then None
    else if Has(h, scopes[|scopes| - 1], x) then Some(scopes[|scopes| - 1])
    else OwnerOf(h, scopes[..|scopes| - 1], x)
  }

  /** `mjs_set_v` on an object. */
  function Store(h: Heap, ref: nat, x: Text, v: Val): (r: Heap)
    requires ref < |h|
    ensures |r| == |h|
  {
    h[ref := h[ref][x := v]]
  }

  /** `mjs_get_v` on an object. */
  function Load(h: Heap, ref: nat, x: Text): Val {
    if Has(h, ref, x) then h[ref][x] else Undefined
  }

  datatype Updated = Updated(heap: Heap, pushed: Val, failed: bool)

  /** `exec_expr` on an assignment, an increment or a decrement of property `x`. A compound assignment yields
      the value from before it, and stores even when its operation fails. */
  function Update(k: Arith, op: nat, h: Heap, ref: nat, x: Text, v: Val): (r: Updated)
    requires ref < |h| && (IsAssignOp(op) || IsStep(op))
    ensures |r.heap| == |h|
  {
    var was := Load(h, ref, x);
    if op == TOK_ASSIGN then
      Updated(Store(h, ref, x, v), v, false)
    else if IsStep(op) then
      var d := DoOp(k, StepOp(op), was, Number(k.ofWhole(1)));
      Updated(Store(h, ref, x, d.v), if IsPostfix(op) then was else d.v, d.failed)
    else
      var d := DoOp(k, BaseOp(op), was, v);
      Updated(Store(h, ref, x, d.v), was, d.failed)
  }

  // ----- the machine -----

  /** One entry of `loop_addresses`, three words in the source. */
  datatype LoopFrame = LoopFrame(scopes: nat, brk: int, cont: int)

  /** One entry of `call_stack`, five words in the source. */
  datatype CallFrame = CallFrame(self: Val, ret: int, scopes: nat, loops: nat, retval: nat)

  /** One entry of `arg_stack`: the value of `this` and the stack size below the arguments. */
  datatype ArgFrame = ArgFrame(self: Val, size: nat)

  /** `Beyond` marks what this model does not describe. */
  datatype Status = Running | Halted | Failed(err: Err) | Beyond

  datatype Machine = Machine(
    pc: int,
    status: Status,
    stack: seq<Val>,
    scopes: seq<nat>,
    loops: seq<LoopFrame>,
    calls: seq<CallFrame>,
    args: seq<ArgFrame>,
    self: Val,
    heap: Heap
  )

  /** `MJS_BCODE_OFFSET_EXIT`. */
  const OFFSET_EXIT: nat := 0x7fff_ffff

  function Top(m: Machine): Val
    requires m.stack != []
  {
    m.stack[|m.stack| - 1]
  }

  function Below(m: Machine, n: nat): seq<Val>
    requires n <= |m.stack|
  {
    m.stack[..|m.stack| - n]
  }

  function Push(m: Machine, next: int, v: Val): Machine {
    m.(pc := next, stack := m.stack + [v])
  }

  function Fail(m: Machine, err: Err): Machine {
    m.(status := Failed(err))
  }

  function Beyonds(m: Machine): Machine {
    m.(status := Beyond)
  }

  /** One turn of the loop in `mjs_execute`. */
  function Step(k: Arith, code: seq<Byte>, m: Machine): Machine {
    if m.status != Running then m
    else if !(0 <= m.pc < |code|) then m.(status := Halted)
    else
      match Fetch(code, m.pc)
      case Unreadable => Beyonds(m)
      case Fetched(i, next) => Do(k, i, next, m)
  }

  /** The effect of an instruction whose successor lies at `next`. */
  function Do(k: Arith, i: Instr, next: nat, m: Machine): Machine {
    match i
    case Nop => m.(pc := next)
    case Drop => if m.stack == [] then Fail(m, InternalError) else m.(pc := next, stack := Below(m, 1))
    case Dup => Push(m, next, if m.stack == [] then Undefined else Top(m))
    case Swap =>
      if |m.stack| < 2 then Beyonds(m)
      else m.(pc := next, stack := Below(m, 2) + [Top(m), m.stack[|m.stack| - 2]])
    case Jmp(n) => m.(pc := next + n)
    case JmpFalse(n) =>
      if m.stack == [] then Beyonds(m)
      else if Truthy(k, Top(m)) then m.(pc := next, stack := Below(m, 1))
      else m.(pc := next + n, stack := Below(m, 1) + [Undefined])
    case JmpNeutral(when, n) =>
      if m.stack == [] then Beyonds(m)
      else if Truthy(k, Top(m)) == when then m.(pc := next + n)
      else m.(pc := next)
    case PushStr(text) => Push(m, next, Str(text))
    case PushBool(b) => Push(m, next, Boolean(b))
    case PushInt(n) => Push(m, next, Number(k.ofWhole(n)))
    case PushDbl(text) => Push(m, next, Number(k.ofText(text)))
    case PushNull => Push(m, next, Null)
    case PushUndef => Push(m, next, Undefined)
    case PushThis => Push(m, next, m.self)
    case Expr(op) => DoExpr(k, op, next, m)
    case Exit => m.(status := Halted)
    case _ =>
      if i.FindScope? || i.PushScope? || i.Get? || i.Create? || i.NewScope? || i.DelScope? then DoScope(i, next, m)
      else DoControl(i, next, m)
  }

  function DoExpr(k: Arith, op: nat, next: nat, m: Machine): Machine {
    if IsUnaryCode(op) then
      if m.stack == [] then Beyonds(m)
      else m.(pc := next, stack := Below(m, 1) + [Transform(k, op, Top(m))])
    else if IsBinary(op) then
      if |m.stack| < 2 then Beyonds(m)
      else
        match Combine(k, op, m.stack[|m.stack| - 2], Top(m))
        case Gives(v) => m.(pc := next, stack := Below(m, 2) + [v])
        case Fails(err) => Fail(m, err)
    else if IsAssignOp(op) then
      if |m.stack| < 3 then Beyonds(m)
      else DoUpdate(k, op, next, m.(stack := Below(m, 1)), Top(m))
    else if IsStep(op) then
      if |m.stack| < 2 then Beyonds(m) else DoUpdate(k, op, next, m, Undefined)
    else
      m.(pc := next)
  }

  /** The object on top of the stack and the key below it. */
  function DoUpdate(k: Arith, op: nat, next: nat, m: Machine, v: Val): Machine
    requires |m.stack| >= 2 && (IsAssignOp(op) || IsStep(op))
  {
    var obj, key := Top(m), m.stack[|m.stack| - 2];
    if obj.Obj? && obj.ref < |m.heap| && key.Str? then
      var u := Update(k, op, m.heap, obj.ref, key.text, v);
      var w := m.(heap := u.heap);
      if u.failed then Fail(w, TypeError) else w.(pc := next, stack := Below(m, 2) + [u.pushed])
    else
      Beyonds(m)
  }

  /** Instructions on variables and scopes. */
  function DoScope(i: Instr, next: nat, m: Machine): Machine {
    match i
    case FindScope =>
      if m.stack == [] || !Top(m).Str? then Beyonds(m)
      else (
        match OwnerOf(m.heap, m.scopes, Top(m).text)
        case None => Fail(m, ReferenceError)
        case Some(ref) => Push(m, next, Obj(ref)))
    case PushScope => if m.scopes == [] then Beyonds(m) else Push(m, next, Obj(m.scopes[|m.scopes| - 1]))
    case Get =>
      if |m.stack| >= 2 && Top(m).Obj? && m.stack[|m.stack| - 2].Str?
        && Has(m.heap, Top(m).ref, m.stack[|m.stack| - 2].text)
      then m.(pc := next, stack := Below(m, 2) + [m.heap[Top(m).ref][m.stack[|m.stack| - 2].text]])
      else Beyonds(m)
    case Create =>
      if |m.stack| >= 2 && Top(m).Obj? && m.stack[|m.stack| - 2].Str? && Top(m).ref < |m.heap| then
        m.(pc := next, stack := Below(m, 2), heap := Declare(m.heap, Top(m).ref, m.stack[|m.stack| - 2].text))
      else Beyonds(m)
    case NewScope => m.(pc := next, scopes := m.scopes + [|m.heap|], heap := m.heap + [map[]])
    case DelScope =>
      if m.scopes == [] then Fail(m, InternalError) else m.(pc := next, scopes := m.scopes[..|m.scopes| - 1])
    case _ => Beyonds(m)
  }

  /** `OP_CREATE`: an existing property keeps its value. */
  function Declare(h: Heap, ref: nat, x: Text): (r: Heap)
    requires ref < |h|
    ensures |r| == |h|
  {
    if x in h[ref] then h else Store(h, ref, x, Undefined)
  }

  /** Loops, calls and returns. Continuing or breaking cuts the scopes back to those of the loop. */
  function DoControl(i: Instr, next: nat, m: Machine): Machine {
    match i
    case Loop(brk, cont, gap) => m.(pc := next, loops := m.loops + [LoopFrame(|m.scopes|, next - gap + brk, next + cont)])
    case Continue =>
      if m.loops == [] then Fail(m, SyntaxError)
      else
        var f := m.loops[|m.loops| - 1];
        if f.scopes > |m.scopes| then Beyonds(m) else m.(pc := f.cont, scopes := m.scopes[..f.scopes])
    case Break =>
      if m.loops == [] then Fail(m, SyntaxError)
      else
        var f := m.loops[|m.loops| - 1];
        if f.scopes > |m.scopes| then Beyonds(m)
        else m.(pc := f.brk, scopes := m.scopes[..f.scopes], loops := m.loops[..|m.loops| - 1])
    case SetArg(n, x) =>
      if m.calls == [] || m.scopes == [] || m.scopes[|m.scopes| - 1] >= |m.heap| then Beyonds(m)
      else m.(pc := next, heap := Store(m.heap, m.scopes[|m.scopes| - 1], x, Argument(m, n)))
    case Call => DoCall(next, m)
    case SetRetval =>
      if m.calls == [] then Fail(m, InternalError)
      else
        var at := m.calls[|m.calls| - 1].retval;
        if 1 <= at < |m.stack| then m.(pc := next, stack := Below(m, 1)[at - 1 := Top(m)]) else Beyonds(m)
    case Return => DoReturn(m)
    case _ => Beyonds(m)
  }

  /** `mjs_arg`. */
  function Argument(m: Machine, n: int): Val
    requires m.calls != []
  {
    var at := m.calls[|m.calls| - 1].retval;
    if at > 0 && 0 <= at + n < |m.stack| then m.stack[at + n] else Undefined
  }

  /** `OP_CALL` on a script function: `call_stack_push_frame`, then enter the body. */
  function DoCall(next: nat, m: Machine): Machine {
    if m.args == [] then Beyonds(m)
    else
      var a := m.args[|m.args| - 1];
      if 1 <= a.size <= |m.stack| && m.stack[a.size - 1].Func? then
        m.(pc := m.stack[a.size - 1].addr,
           stack := m.stack[a.size - 1 := Undefined],
           calls := m.calls + [CallFrame(m.self, next - 1, |m.scopes|, |m.loops|, a.size)],
           args := m.args[..|m.args| - 1],
           self := a.self)
      else Beyonds(m)
  }

  function Cut<T>(s: seq<T>, n: nat): seq<T> {
    if n < |s| then s[..n] else s
  }

  /** `OP_RETURN`: `call_stack_restore_frame`, then resume behind the call. */
  function DoReturn(m: Machine): Machine {
    if m.calls == [] then Beyonds(m)
    else
      var f := m.calls[|m.calls| - 1];
      if f.retval > |m.stack| then Beyonds(m)
      else
        m.(pc := f.ret + 1,
           status := if f.ret == OFFSET_EXIT then Halted else Running,
           stack := m.stack[..f.retval],
           scopes := Cut(m.scopes, f.scopes),
           loops := Cut(m.loops, f.loops),
           calls := m.calls[..|m.calls| - 1],
           self := f.self)
  }
}
