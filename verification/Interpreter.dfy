/** `mjs_execute` on the stacks it changes in place. */
module Interpreter {
  import opened Options
  import opened Varint
  import opened Bytecode
  import opened Tokens
  import opened Machine

  /** `n` turns of the loop in `mjs_execute`. */
  function RunFor(k: Arith, code: seq<Byte>, m: Machine, n: nat): Machine
    decreases n
  {
    if n == 0 then m else RunFor(k, code, Step(k, code, m), n - 1)
  }

  /** Stepping a stopped machine changes nothing. */
  lemma {:induction false} RunForStopped(k: Arith, code: seq<Byte>, m: Machine, n: nat)
    requires m.status != Running
    ensures RunFor(k, code, m, n) == m
  {
    if n > 0 {
      RunForStopped(k, code, m, n - 1);
    }
  }

  class Interp {
    var stack: seq<Val>
    var scopes: seq<nat>
    var loopAddresses: seq<LoopFrame>
    var callStack: seq<CallFrame>
    var argStack: seq<ArgFrame>
    var thisObj: Val
    var heap: Heap

    function State(pc: int, status: Status): Machine
      reads this
    {
      Machine(pc, status, stack, scopes, loopAddresses, callStack, argStack, thisObj, heap)
    }

    /** `mjs_find_scope`: from the innermost scope outwards. */
    method MjsFindScope(key: Text) returns (r: Option<nat>)
      ensures r == OwnerOf(heap, scopes, key)
      ensures r.Some? ==>
              exists i :: 0 <= i < |scopes| && scopes[i] == r.value && Has(heap, scopes[i], key)
                          && forall j :: i < j < |scopes| ==> !Has(heap, scopes[j], key)
      ensures r.None? ==> forall j :: 0 <= j < |scopes| ==> !Has(heap, scopes[j], key)
    {
      var n := |scopes|;
      assert scopes[..n] == scopes;
      while n > 0
        invariant 0 <= n <= |scopes|
        invariant OwnerOf(heap, scopes, key) == OwnerOf(heap, scopes[..n], key)
        invariant forall j :: n <= j < |scopes| ==> !Has(heap, scopes[j], key)
      {
        var scope := scopes[n - 1];
        assert scopes[..n][..n - 1] == scopes[..n - 1];
        n := n - 1;
        if Has(heap, scope, key) {
          return Some(scope);
        }
      }
      return None;
    }

    /** `call_stack_push_frame`. */
    method CallStackPushFrame(offset: int, retval: nat)
      requires argStack != []
      modifies this`argStack, this`callStack, this`thisObj
      ensures argStack == old(argStack[..|argStack| - 1])
      ensures callStack == old(callStack) + [CallFrame(old(thisObj), offset, |scopes|, |loopAddresses|, retval)]
      ensures thisObj == old(argStack[|argStack| - 1].self)
    {
      var self := argStack[|argStack| - 1].self;
      argStack := argStack[..|argStack| - 1];
      callStack := callStack + [CallFrame(thisObj, offset, |scopes|, |loopAddresses|, retval)];
      thisObj := self;
    }

    /** `call_stack_restore_frame`: scopes and loops are popped one by one. */
    method CallStackRestoreFrame() returns (ret: int)
      requires callStack != [] && callStack[|callStack| - 1].retval <= |stack|
      modifies this`stack, this`scopes, this`loopAddresses, this`callStack, this`thisObj
      ensures var f := old(callStack[|callStack| - 1]);
              ret == f.ret && thisObj == f.self && callStack == old(callStack[..|callStack| - 1])
              && scopes == Cut(old(scopes), f.scopes) && loopAddresses == Cut(old(loopAddresses), f.loops)
              && stack == old(stack)[..f.retval]
    {
      var f := callStack[|callStack| - 1];
      callStack := callStack[..|callStack| - 1];
      thisObj := f.self;
      while |scopes| > f.scopes
        invariant Cut(scopes, f.scopes) == Cut(old(scopes), f.scopes)
        decreases |scopes|
        modifies this`scopes
      {
        assert Cut(scopes[..|scopes| - 1], f.scopes) == Cut(scopes, f.scopes);
        scopes := scopes[..|scopes| - 1];
      }
      while |loopAddresses| > f.loops
        invariant Cut(loopAddresses, f.loops) == Cut(old(loopAddresses), f.loops)
        decreases |loopAddresses|
        modifies this`loopAddresses
      {
        assert Cut(loopAddresses[..|loopAddresses| - 1], f.loops) == Cut(loopAddresses, f.loops);
        loopAddresses := loopAddresses[..|loopAddresses| - 1];
      }
      stack := stack[..f.retval];
      ret := f.ret;
    }

    method MjsPush(v: Val)
      modifies this`stack
      ensures stack == old(stack) + [v]
    {
      stack := stack + [v];
    }

    method MjsPop() returns (v: Val)
      requires stack != []
      modifies this`stack
      ensures v == old(stack)[|old(stack)| - 1] && stack == old(stack)[..|old(stack)| - 1]
    {
      v := stack[|stack| - 1];
      stack := stack[..|stack| - 1];
    }

    /** `exec_expr` on operators that compute a value. */
    method ExecValue(k: Arith, op: Byte, at: int, next: nat) returns (pc: int, status: Status)
      requires IsUnaryCode(op) || IsBinary(op)
      modifies this`stack
      ensures State(pc, status) == DoExpr(k, op, next, old(State(at, Running)))
    {
      hide Transform, Combine;
      if |stack| < (if IsUnaryCode(op) then 1 else 2) {
        return at, Beyond;
      }
      if IsUnaryCode(op) {
        var a := MjsPop();
        MjsPush(Transform(k, op, a));
      } else {
        var b := stack[|stack| - 1];
        var a := stack[|stack| - 2];
        var r := Combine(k, op, a, b);
        if r.Fails? {
          return at, Failed(r.err);
        }
        stack := stack[..|stack| - 2];
        MjsPush(r.v);
      }
      return next, Running;
    }

    /** `exec_expr` on assignments, increments and decrements, and `op_assign`. */
    method ExecUpdate(k: Arith, op: Byte, at: int, next: nat) returns (pc: int, status: Status)
      requires IsAssignOp(op) || IsStep(op)
      modifies this`stack, this`heap
      ensures Alike(State(pc, status), DoExpr(k, op, next, old(State(at, Running))))
    {
      hide DoUpdate;
      if |stack| < (if IsAssignOp(op) then 3 else 2) {
        return at, Beyond;
      }
      var val := Undefined;
      if IsAssignOp(op) {
        val := MjsPop();
      }
      pc, status := UpdateProperty(k, op, at, next, val);
    }

    method UpdateProperty(k: Arith, op: Byte, at: int, next: nat, val: Val) returns (pc: int, status: Status)
      requires |stack| >= 2 && (IsAssignOp(op) || IsStep(op))
      modifies this`stack, this`heap
      ensures Alike(State(pc, status), DoUpdate(k, op, next, old(State(at, Running)), val))
    {
      hide Update;
      var obj := stack[|stack| - 1];
      var key := stack[|stack| - 2];
      stack := stack[..|stack| - 2];
      if obj.Obj? && obj.ref < |heap| && key.Str? {
        var u := Update(k, op, heap, obj.ref, key.text, val);
        heap := u.heap;
        if u.failed {
          return at, Failed(TypeError);
        }
        MjsPush(u.pushed);
        return next, Running;
      }
      return at, Beyond;
    }

    /** `OP_SWAP`. */
    method MjsSwap()
      requires |stack| >= 2
      modifies this`stack
      ensures stack == old(stack)[..|old(stack)| - 2] + [old(stack)[|old(stack)| - 1], old(stack)[|old(stack)| - 2]]
    {
      ghost var was := stack;
      var a := MjsPop();
      var b := MjsPop();
      assert stack == was[..|was| - 2];
      MjsPush(a);
      MjsPush(b);
    }

    /** Jumps, and the instructions that only move values on the stack. */
    method ExecStack(k: Arith, i: Instr, at: int, next: nat) returns (pc: int, status: Status)
      requires IsStackInstr(i)
      modifies this`stack
      ensures State(pc, status) == Do(k, i, next, old(State(at, Running)))
    {
      hide Truthy, DoExpr, DoScope, DoControl;
      if NeedsOperands(i) > |stack| {
        return at, if i.Drop? then Failed(InternalError) else Beyond;
      }
      if i.Jmp? || i.JmpFalse? || i.JmpNeutral? {
        pc := ExecJump(k, i, at, next);
      } else {
        pc := next;
        ExecMove(k, i, at, next);
      }
      status := Running;
    }

    method ExecMove(k: Arith, i: Instr, at: int, next: nat)
      requires i.Nop? || i.Drop? || i.Dup? || i.Swap?
      requires NeedsOperands(i) <= |stack|
      modifies this`stack
      ensures State(next, Running) == Do(k, i, next, old(State(at, Running)))
    {
      hide Truthy, DoExpr, DoScope, DoControl;
      match i
      case Nop =>
      case Drop => var _ := MjsPop();
      case Dup => MjsPush(if stack == [] then Undefined else stack[|stack| - 1]);
      case Swap => MjsSwap();
    }

    method ExecJump(k: Arith, i: Instr, at: int, next: nat) returns (pc: int)
      requires i.Jmp? || i.JmpFalse? || i.JmpNeutral?
      requires NeedsOperands(i) <= |stack|
      modifies this`stack
      ensures State(pc, Running) == Do(k, i, next, old(State(at, Running)))
    {
      hide Truthy, DoExpr, DoScope, DoControl;
      pc := next;
      match i
      case Jmp(n) => pc := next + n;
      case JmpFalse(n) =>
        var v := MjsPop();
        if !Truthy(k, v) {
          MjsPush(Undefined);
          pc := next + n;
        }
      case JmpNeutral(when, n) =>
        if Truthy(k, stack[|stack| - 1]) == when {
          pc := next + n;
        }
    }

    /** Constants. */
    method ExecPush(k: Arith, i: Instr, at: int, next: nat) returns (pc: int, status: Status)
      requires IsPush(i)
      modifies this`stack
      ensures State(pc, status) == Do(k, i, next, old(State(at, Running)))
    {
      pc, status := next, Running;
      match i
      case PushStr(text) => MjsPush(Str(text));
      case PushBool(b) => MjsPush(Boolean(b));
      case PushInt(n) => MjsPush(Number(k.ofWhole(n)));
      case PushDbl(text) => MjsPush(Number(k.ofText(text)));
      case PushNull => MjsPush(Null);
      case PushUndef => MjsPush(Undefined);
      case PushThis => MjsPush(thisObj);
    }

    /** Variables and scopes. */
    method ExecScope(i: Instr, at: int, next: nat) returns (pc: int, status: Status)
      requires IsScopeInstr(i)
      modifies this`stack, this`scopes, this`heap
      ensures State(pc, status) == DoScope(i, next, old(State(at, Running)))
    {
      hide OwnerOf, Declare;
      if i.Get? || i.Create? {
        pc, status := ExecProperty(i, at, next);
        return;
      }
      pc, status := next, Running;
      match i
      case FindScope =>
        if stack == [] || !stack[|stack| - 1].Str? {
          return at, Beyond;
        }
        var r := MjsFindScope(stack[|stack| - 1].text);
        if r.None? {
          return at, Failed(ReferenceError);
        }
        MjsPush(Obj(r.value));
      case PushScope =>
        if scopes == [] {
          return at, Beyond;
        }
        MjsPush(Obj(scopes[|scopes| - 1]));
      case NewScope =>
        scopes, heap := scopes + [|heap|], heap + [map[]];
      case DelScope =>
        if scopes == [] {
          return at, Failed(InternalError);
        }
        scopes := scopes[..|scopes| - 1];
    }

    /** `OP_GET` and `OP_CREATE`. */
    method ExecProperty(i: Instr, at: int, next: nat) returns (pc: int, status: Status)
      requires i.Get? || i.Create?
      modifies this`stack, this`heap
      ensures State(pc, status) == DoScope(i, next, old(State(at, Running)))
    {
      hide Declare;
      if |stack| < 2 {
        return at, Beyond;
      }
      var obj := stack[|stack| - 1];
      var key := stack[|stack| - 2];
      if !obj.Obj? || !key.Str? || obj.ref >= |heap| || (i.Get? && key.text !in heap[obj.ref]) {
        return at, Beyond;
      }
      stack := stack[..|stack| - 2];
      if i.Get? {
        MjsPush(heap[obj.ref][key.text]);
      } else {
        heap := Declare(heap, obj.ref, key.text);
      }
      return next, Running;
    }

    /** Loops. */
    method ExecLoop(i: Instr, at: int, next: nat) returns (pc: int, status: Status)
      requires i.Loop? || i.Break? || i.Continue?
      modifies this`scopes, this`loopAddresses
      ensures State(pc, status) == DoControl(i, next, old(State(at, Running)))
    {
      if i.Loop? {
        loopAddresses := loopAddresses + [LoopFrame(|scopes|, next - i.gap + i.brk, next + i.cont)];
        return next, Running;
      }
      if loopAddresses == [] {
        return at, Failed(SyntaxError);
      }
      var f := loopAddresses[|loopAddresses| - 1];
      if f.scopes > |scopes| {
        return at, Beyond;
      }
      if i.Break? {
        loopAddresses := loopAddresses[..|loopAddresses| - 1];
      }
      scopes := scopes[..f.scopes];
      return if i.Break? then f.brk else f.cont, Running;
    }

    /** Calls of script functions and returns from them. */
    method ExecCall(i: Instr, at: int, next: nat) returns (pc: int, status: Status)
      requires i.Call? || i.Return? || i.SetRetval? || i.SetArg?
      modifies this
      ensures State(pc, status) == DoControl(i, next, old(State(at, Running)))
    {
      hide DoCall, DoReturn;
      match i
      case Call => pc, status := EnterFunction(at, next);
      case Return => pc, status := LeaveFunction(at);
      case SetRetval =>
        if callStack == [] {
          return at, Failed(InternalError);
        }
        var pos := callStack[|callStack| - 1].retval;
        if !(1 <= pos < |stack|) {
          return at, Beyond;
        }
        var v := MjsPop();
        stack := stack[pos - 1 := v];
        return next, Running;
      case SetArg(n, x) =>
        if callStack == [] || scopes == [] || scopes[|scopes| - 1] >= |heap| {
          return at, Beyond;
        }
        heap := Store(heap, scopes[|scopes| - 1], x, Argument(State(at, Running), n));
        return next, Running;
    }

    method LeaveFunction(at: int) returns (pc: int, status: Status)
      modifies this
      ensures State(pc, status) == DoReturn(old(State(at, Running)))
    {
      if callStack == [] || callStack[|callStack| - 1].retval > |stack| {
        return at, Beyond;
      }
      var ret := CallStackRestoreFrame();
      return ret + 1, if ret == OFFSET_EXIT then Halted else Running;
    }

    method EnterFunction(at: int, next: nat) returns (pc: int, status: Status)
      modifies this
      ensures State(pc, status) == DoCall(next, old(State(at, Running)))
    {
      if argStack == [] {
        return at, Beyond;
      }
      var size := argStack[|argStack| - 1].size;
      if !(1 <= size <= |stack|) || !stack[size - 1].Func? {
        return at, Beyond;
      }
      CallStackPushFrame(next - 1, size);
      pc := stack[size - 1].addr;
      stack := stack[size - 1 := Undefined];
      status := Running;
    }

    /** One instruction of `mjs_execute`. */
    method ExecuteOne(k: Arith, i: Instr, at: int, next: nat) returns (pc: int, status: Status)
      modifies this
      ensures Alike(State(pc, status), Do(k, i, next, old(State(at, Running))))
    {
      hide DoScope, DoControl, DoExpr, Truthy;
      if i.Expr? {
        pc, status := ExecExpr(k, i.op, at, next);
      } else if IsStackInstr(i) {
        pc, status := ExecStack(k, i, at, next);
      } else if IsPush(i) {
        pc, status := ExecPush(k, i, at, next);
      } else if i.Exit? {
        pc, status := at, Halted;
      } else if IsScopeInstr(i) {
        pc, status := ExecScope(i, at, next);
      } else if i.Loop? || i.Break? || i.Continue? {
        pc, status := ExecLoop(i, at, next);
      } else {
        pc, status := ExecCall(i, at, next);
      }
    }

    method ExecExpr(k: Arith, op: Byte, at: int, next: nat) returns (pc: int, status: Status)
      modifies this
      ensures Alike(State(pc, status), DoExpr(k, op, next, old(State(at, Running))))
    {
      hide Transform, Combine, Update;
      if IsUnaryCode(op) || IsBinary(op) {
        pc, status := ExecValue(k, op, at, next);
      } else if IsAssignOp(op) || IsStep(op) {
        pc, status := ExecUpdate(k, op, at, next);
      } else {
        pc, status := next, Running;
      }
    }

    /** One turn of the loop in `mjs_execute`. */
    method ExecuteAt(k: Arith, code: seq<Byte>, at: int) returns (pc: int, status: Status)
      modifies this
      ensures Alike(State(pc, status), Step(k, code, old(State(at, Running))))
    {
      hide Do, Fetch;
      pc, status := at, Halted;
      if 0 <= at < |code| {
        var f := Fetch(code, at);
        if f.Unreadable? {
          status := Beyond;
        } else {
          pc, status := ExecuteOne(k, f.instr, at, f.next);
        }
      }
    }

    /** `mjs_execute`, for as many instructions as `fuel` allows. An error cuts every stack back to the
        length it had and leaves `undefined`. */
    method MjsExecute(k: Arith, code: seq<Byte>, off: nat, fuel: nat) returns (pc: int, status: Status)
      modifies this
      ensures var m := RunFor(k, code, old(State(off, Running)), fuel);
              status == m.status && heap == m.heap && (!m.status.Failed? && !m.status.Beyond? ==> State(pc, status) == m)
              && (m.status.Failed? ==>
                  |scopes| <= |old(scopes)| && |loopAddresses| <= |old(loopAddresses)| && |callStack| <= |old(callStack)|
                  && 0 < |stack| <= |old(stack)| + 1 && stack[|stack| - 1] == Undefined)
    {
      hide Step;
      var stackLen, scopesLen, loopsLen, callsLen := |stack|, |scopes|, |loopAddresses|, |callStack|;
      ghost var m := State(off, Running);
      ghost var all := RunFor(k, code, m, fuel);
      pc, status := off, Running;
      var n := 0;
      while n < fuel && status == Running
        invariant 0 <= n <= fuel
        invariant Alike(State(pc, status), m)
        invariant all == RunFor(k, code, m, fuel - n)
        decreases fuel - n
      {
        m := Step(k, code, State(pc, status));
        pc, status := ExecuteAt(k, code, pc);
        n := n + 1;
      }
      if status != Running {
        RunForStopped(k, code, m, fuel - n);
      }
      if status.Failed? {
        stack := Cut(stack, stackLen);
        scopes := Cut(scopes, scopesLen);
        loopAddresses := Cut(loopAddresses, loopsLen);
        callStack := Cut(callStack, callsLen);
        MjsPush(Undefined);
      }
    }
  }

  /** Once the machine has stopped, only how it stopped and the heap matter. */
  predicate Alike(a: Machine, b: Machine) {
    if b.status.Failed? || b.status.Beyond? then a.status == b.status && a.heap == b.heap else a == b
  }

  predicate IsStackInstr(i: Instr) {
    i.Nop? || i.Drop? || i.Dup? || i.Swap? || IsJump(i)
  }

  function NeedsOperands(i: Instr): nat {
    if i.Swap? then 2 else if i.Drop? || i.JmpFalse? || i.JmpNeutral? then 1 else 0
  }

  predicate IsPush(i: Instr) {
    i.PushStr? || i.PushBool? || i.PushInt? || i.PushDbl? || i.PushNull? || i.PushUndef? || i.PushThis?
  }

  predicate IsScopeInstr(i: Instr) {
    i.FindScope? || i.PushScope? || i.Get? || i.Create? || i.NewScope? || i.DelScope?
  }
}
