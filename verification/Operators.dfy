/** What every operator computes, in terms of the values of its operands. */
module Operators {
  import opened Options
  import opened Bytecode
  import opened Tokens
  import opened Syntax
  import opened Machine
  import opened Evaluate

  /** The values that count as false. */
  predicate Falsy(k: Arith, v: Val) {
    v == Undefined || v == Null || v == Boolean(false) || v == Str([]) || (v.Number? && (k.isZero(v.bits) || v.bits == k.nan))
  }

  /** The number that a value is, or NaN. */
  function Numeric(k: Arith, v: Val): int {
    match v
    case Number(n) => n
    case _ => k.nan
  }

  // ----- unary operators -----

  /** An operand that fails makes its operator fail. */
  lemma UnaryFails(k: Arith, op: nat, e: Expr, c: Ctx, h: Heap)
    requires op in {TOK_NOT, TOK_TILDA, TOK_KEYWORD_TYPEOF, TOK_MINUS, TOK_PLUS} && Proper(e) && Eval(k, e, c, h).Error?
    ensures Proper(Unary(op, e)) && Eval(k, Unary(op, e), c, h) == Eval(k, e, c, h)
  {}

  lemma NotValue(k: Arith, e: Expr, c: Ctx, h: Heap, v: Val, h1: Heap)
    requires Proper(e) && Eval(k, e, c, h) == Value(v, h1)
    ensures Proper(Unary(TOK_NOT, e)) && Eval(k, Unary(TOK_NOT, e), c, h) == Value(Boolean(Falsy(k, v)), h1)
  {}

  lemma SignValue(k: Arith, e: Expr, c: Ctx, h: Heap, v: Val, h1: Heap)
    requires Proper(e) && Eval(k, e, c, h) == Value(v, h1)
    ensures Proper(Unary(TOK_MINUS, e)) && Eval(k, Unary(TOK_MINUS, e), c, h) == Value(Number(k.negate(Numeric(k, v))), h1)
    ensures Proper(Unary(TOK_TILDA, e)) && Eval(k, Unary(TOK_TILDA, e), c, h) == Value(Number(k.complement(Numeric(k, v))), h1)
    ensures Proper(Unary(TOK_PLUS, e)) && Eval(k, Unary(TOK_PLUS, e), c, h) == Value(v, h1)
  {}

  function NameOfType(v: Val): string {
    match v
    case Undefined => "undefined"
    case Null => "null"
    case Boolean(_) => "boolean"
    case Number(_) => "number"
    case Str(_) => "string"
    case Obj(_) => "object"
    case Func(_) => "function"
  }

  lemma TypeNames(v: Val)
    ensures |NameOfType(v)| == |TypeName(v)|
    ensures forall i :: 0 <= i < |TypeName(v)| ==> NameOfType(v)[i] as int == TypeName(v)[i]
  {}

  /** `typeof` gives the name of the type, in ASCII. */
  lemma TypeofValue(k: Arith, e: Expr, c: Ctx, h: Heap, v: Val, h1: Heap)
    requires Proper(e) && Eval(k, e, c, h) == Value(v, h1)
    ensures Proper(Unary(TOK_KEYWORD_TYPEOF, e))
    ensures var r := Eval(k, Unary(TOK_KEYWORD_TYPEOF, e), c, h);
            r.Value? && r.heap == h1 && r.v.Str? && |r.v.text| == |NameOfType(v)|
            && forall i :: 0 <= i < |r.v.text| ==> r.v.text[i] == NameOfType(v)[i] as int
  {
    hide TypeName, NameOfType;
    TypeNames(v);
  }

  // ----- binary operators -----

  const ARITHMETIC: set<nat> := {
    TOK_MUL, TOK_DIV, TOK_REM, TOK_PLUS, TOK_MINUS, TOK_LSHIFT, TOK_RSHIFT, TOK_URSHIFT, TOK_AND, TOK_XOR, TOK_OR
  }

  const COMPARISONS: set<nat> := {TOK_LT, TOK_GT, TOK_LE, TOK_GE}

  const EQUALITIES: set<nat> := {TOK_EQ, TOK_NE, TOK_EQ_EQ, TOK_NE_NE}

  /** The left operand is evaluated first and the right one in what it leaves; the first that fails is the outcome. */
  lemma BinaryFails(k: Arith, op: nat, l: Expr, r: Expr, c: Ctx, h: Heap)
    requires (op in ARITHMETIC || op in COMPARISONS || op in EQUALITIES) && Proper(l) && Proper(r)
    ensures Proper(Binary(op, l, r))
    ensures Eval(k, l, c, h).Error? ==> Eval(k, Binary(op, l, r), c, h) == Eval(k, l, c, h)
    ensures Eval(k, l, c, h).Value? ==>
            var right := Eval(k, r, c, Eval(k, l, c, h).heap);
            right.Error? ==> Eval(k, Binary(op, l, r), c, h) == right
  {}

  lemma ArithmeticValue(k: Arith, op: nat, l: Expr, r: Expr, c: Ctx, h: Heap, a: Val, h1: Heap, b: Val, h2: Heap)
    requires op in ARITHMETIC && Proper(l) && Proper(r) && Eval(k, l, c, h) == Value(a, h1) && Eval(k, r, c, h1) == Value(b, h2)
    ensures Proper(Binary(op, l, r))
    ensures Eval(k, Binary(op, l, r), c, h)
         == if a.Number? && b.Number? then Value(Number(k.binary(op, a.bits, b.bits)), h2)
            else if op == TOK_PLUS && a.Str? && b.Str? then Value(Str(a.text + b.text), h2)
            else Error(TypeError, h2)
  {}

  lemma ComparisonValue(k: Arith, op: nat, l: Expr, r: Expr, c: Ctx, h: Heap, a: Val, h1: Heap, b: Val, h2: Heap)
    requires op in COMPARISONS && Proper(l) && Proper(r) && Eval(k, l, c, h) == Value(a, h1) && Eval(k, r, c, h1) == Value(b, h2)
    ensures Proper(Binary(op, l, r))
    ensures Eval(k, Binary(op, l, r), c, h) == Value(Boolean(k.compare(op, Numeric(k, a), Numeric(k, b))), h2)
  {}

  /** Two values are equal when they are the same one, and NaN equals nothing; `==` and `!=` are not implemented. */
  lemma EqualityValue(k: Arith, l: Expr, r: Expr, c: Ctx, h: Heap, a: Val, h1: Heap, b: Val, h2: Heap)
    requires Proper(l) && Proper(r) && Eval(k, l, c, h) == Value(a, h1) && Eval(k, r, c, h1) == Value(b, h2)
    ensures var same := a == b && a != Number(k.nan) && b != Number(k.nan);
            Eval(k, Binary(TOK_EQ_EQ, l, r), c, h) == Value(Boolean(same), h2)
            && Eval(k, Binary(TOK_NE_NE, l, r), c, h) == Value(Boolean(!same), h2)
    ensures Eval(k, Binary(TOK_EQ, l, r), c, h) == Eval(k, Binary(TOK_NE, l, r), c, h) == Error(NotImplemented, h2)
  {}

  // ----- operators that choose -----

  lemma LogicalValue(k: Arith, l: Expr, r: Expr, c: Ctx, h: Heap, a: Val, h1: Heap)
    requires Proper(l) && Proper(r) && Eval(k, l, c, h) == Value(a, h1)
    ensures Eval(k, Logical(TOK_LOGICAL_AND, l, r), c, h) == if Falsy(k, a) then Value(a, h1) else Eval(k, r, c, h1)
    ensures Eval(k, Logical(TOK_LOGICAL_OR, l, r), c, h) == if Falsy(k, a) then Eval(k, r, c, h1) else Value(a, h1)
  {}

  lemma CondValue(k: Arith, p: Expr, t: Expr, f: Expr, c: Ctx, h: Heap, a: Val, h1: Heap)
    requires Proper(p) && Proper(t) && Proper(f) && Eval(k, p, c, h) == Value(a, h1)
    ensures Eval(k, Cond(p, t, f), c, h) == if Falsy(k, a) then Eval(k, f, c, h1) else Eval(k, t, c, h1)
  {}

  // ----- variables -----

  /** The scope number `i` is the innermost one that owns `x`. */
  predicate OwnedAt(h: Heap, scopes: seq<nat>, x: Text, i: nat) {
    i < |scopes| && scopes[i] < |h| && x in h[scopes[i]]
    && forall j :: i < j < |scopes| && scopes[j] < |h| ==> x !in h[scopes[j]]
  }

  lemma {:induction false} OwnerIs(h: Heap, scopes: seq<nat>, x: Text)
    ensures match OwnerOf(h, scopes, x)
            case Some(ref) => exists i: nat :: OwnedAt(h, scopes, x, i) && scopes[i] == ref
            case None => forall i :: 0 <= i < |scopes| && scopes[i] < |h| ==> x !in h[scopes[i]]
  {
    if scopes != [] {
      var n := |scopes| - 1;
      if Has(h, scopes[n], x) {
        assert OwnedAt(h, scopes, x, n);
      } else {
        OwnerIs(h, scopes[..n], x);
        var owner := OwnerOf(h, scopes[..n], x);
        if owner.Some? {
          var i: nat :| OwnedAt(h, scopes[..n], x, i) && scopes[..n][i] == owner.value;
          assert OwnedAt(h, scopes, x, i) && scopes[i] == owner.value;
        }
      }
    }
  }

  lemma OwnedOnce(h: Heap, scopes: seq<nat>, x: Text, i: nat)
    requires OwnedAt(h, scopes, x, i)
    ensures OwnerOf(h, scopes, x) == Some(scopes[i])
  {
    OwnerIs(h, scopes, x);
  }

  /** A name gives the value of the innermost variable of that name. */
  lemma NameValue(k: Arith, x: Text, c: Ctx, h: Heap, i: nat)
    ensures OwnedAt(h, c.scopes, x, i) ==> Eval(k, Ident(x), c, h) == Value(h[c.scopes[i]][x], h)
    ensures (forall j :: 0 <= j < |c.scopes| && c.scopes[j] < |h| ==> x !in h[c.scopes[j]]) ==>
            Eval(k, Ident(x), c, h) == Error(ReferenceError, h)
  {
    OwnerIs(h, c.scopes, x);
    if OwnedAt(h, c.scopes, x, i) {
      OwnedOnce(h, c.scopes, x, i);
    }
    var owner := OwnerOf(h, c.scopes, x);
    if owner.Some? {
      var j: nat :| OwnedAt(h, c.scopes, x, j) && c.scopes[j] == owner.value;
    }
  }

  /** `h` with another value of the variable. */
  function Assigned(h: Heap, ref: nat, x: Text, v: Val): Heap
    requires ref < |h|
  {
    h[..ref] + [h[ref][x := v]] + h[ref + 1..]
  }

  /** No variable goes away while an expression is evaluated. */
  predicate NamesStay(h: Heap, h': Heap) {
    |h'| == |h| && forall ref, x :: 0 <= ref < |h| && x in h[ref] ==> x in h'[ref]
  }

  lemma {:induction false} EvalKeepsNames(k: Arith, e: Expr, c: Ctx, h: Heap)
    requires Proper(e)
    ensures NamesStay(h, Eval(k, e, c, h).heap)
  {
    match e
    case Lit(_) =>
    case Ident(_) =>
    case Ref(_) =>
    case Paren(e) => EvalKeepsNames(k, e, c, h);
    case Unary(op, e) => if !IsCrement(op) { EvalKeepsNames(k, e, c, h); }
    case Postfix(_, _) =>
    case Binary(_, l, r) => EvalKeepsNames(k, l, c, h); EvalKeepsNames(k, r, c, Eval(k, l, c, h).heap);
    case Logical(_, l, r) => EvalKeepsNames(k, l, c, h); EvalKeepsNames(k, r, c, Eval(k, l, c, h).heap);
    case Cond(p, t, f) =>
      EvalKeepsNames(k, p, c, h);
      EvalKeepsNames(k, t, c, Eval(k, p, c, h).heap);
      EvalKeepsNames(k, f, c, Eval(k, p, c, h).heap);
    case Assign(_, _, r) => EvalKeepsNames(k, r, c, h);
  }

  // ----- assignments -----

  /** A target that nobody owns, and a right side that fails. */
  lemma AssignFails(k: Arith, op: nat, x: Text, e: Expr, c: Ctx, h: Heap)
    requires IsAssignOp(op) && Proper(e)
    ensures (forall j :: 0 <= j < |c.scopes| && c.scopes[j] < |h| ==> x !in h[c.scopes[j]]) ==>
            Eval(k, Assign(op, Ref(x), e), c, h) == Error(ReferenceError, h)
    ensures (exists i: nat :: OwnedAt(h, c.scopes, x, i)) && Eval(k, e, c, h).Error? ==>
            Eval(k, Assign(op, Ref(x), e), c, h) == Eval(k, e, c, h)
  {
    OwnerIs(h, c.scopes, x);
  }

  lemma AssignValue(k: Arith, x: Text, e: Expr, c: Ctx, h: Heap, i: nat, v: Val, h1: Heap)
    requires Proper(e) && OwnedAt(h, c.scopes, x, i) && Eval(k, e, c, h) == Value(v, h1)
    ensures |h1| == |h|
    ensures Eval(k, Assign(TOK_ASSIGN, Ref(x), e), c, h) == Value(v, Assigned(h1, c.scopes[i], x, v))
  {
    OwnedOnce(h, c.scopes, x, i);
  }

  /** The compound assignments and their operators. */
  const COMPOUND: set<(nat, nat)> := {
    (TOK_PLUS_ASSIGN, TOK_PLUS), (TOK_MINUS_ASSIGN, TOK_MINUS), (TOK_MUL_ASSIGN, TOK_MUL), (TOK_DIV_ASSIGN, TOK_DIV),
    (TOK_REM_ASSIGN, TOK_REM), (TOK_AND_ASSIGN, TOK_AND), (TOK_OR_ASSIGN, TOK_OR), (TOK_XOR_ASSIGN, TOK_XOR),
    (TOK_LSHIFT_ASSIGN, TOK_LSHIFT), (TOK_RSHIFT_ASSIGN, TOK_RSHIFT), (TOK_URSHIFT_ASSIGN, TOK_URSHIFT)
  }

  /** `x op= e` stores `x op e`, with the value of `x` from after `e`, and yields that value of `x`. */
  lemma CompoundValue(k: Arith, op: nat, base: nat, x: Text, e: Expr, c: Ctx, h: Heap, i: nat, v: Val, h1: Heap)
    requires (op, base) in COMPOUND && Proper(e) && OwnedAt(h, c.scopes, x, i) && Eval(k, e, c, h) == Value(v, h1)
    ensures |h1| == |h| && x in h1[c.scopes[i]]
    ensures var ref, was := c.scopes[i], h1[c.scopes[i]][x];
            (Eval(k, Assign(op, Ref(x), e), c, h)
             == if was.Number? && v.Number? then Value(was, Assigned(h1, ref, x, Number(k.binary(base, was.bits, v.bits))))
                else if base == TOK_PLUS && was.Str? && v.Str? then Value(was, Assigned(h1, ref, x, Str(was.text + v.text)))
                else Error(TypeError, Assigned(h1, ref, x, Undefined)))
  {
    hide COMPOUND, Update, IsAssignOp, OwnerOf, BaseOp, IsStep;
    Bases(op, base);
    OwnedOnce(h, c.scopes, x, i);
    EvalKeepsNames(k, e, c, h);
    UpdateCompound(k, op, base, h1, c.scopes[i], x, v);
  }

  lemma Bases(op: nat, base: nat)
    requires (op, base) in COMPOUND
    ensures IsAssignOp(op) && op != TOK_ASSIGN && !IsStep(op) && BaseOp(op) == base
  {}

  lemma UpdateCompound(k: Arith, op: nat, base: nat, h: Heap, ref: nat, x: Text, v: Val)
    requires IsAssignOp(op) && op != TOK_ASSIGN && !IsStep(op) && BaseOp(op) == base && ref < |h| && x in h[ref]
    ensures var was := h[ref][x];
            (Settle(Update(k, op, h, ref, x, v))
             == if was.Number? && v.Number? then Value(was, Assigned(h, ref, x, Number(k.binary(base, was.bits, v.bits))))
                else if base == TOK_PLUS && was.Str? && v.Str? then Value(was, Assigned(h, ref, x, Str(was.text + v.text)))
                else Error(TypeError, Assigned(h, ref, x, Undefined)))
  {
    hide BaseOp, IsAssignOp, IsStep;
  }

  /** Increments and decrements of a number store one more or one less; in front they yield the new value, behind
      the old one. */
  lemma CrementValue(k: Arith, x: Text, c: Ctx, h: Heap, i: nat)
    requires OwnedAt(h, c.scopes, x, i) && h[c.scopes[i]][x].Number?
    ensures var ref, was := c.scopes[i], h[c.scopes[i]][x];
            var more, less := Number(k.binary(TOK_PLUS, was.bits, k.ofWhole(1))), Number(k.binary(TOK_MINUS, was.bits, k.ofWhole(1)));
            Eval(k, Unary(TOK_PLUS_PLUS, Ref(x)), c, h) == Value(more, Assigned(h, ref, x, more))
            && Eval(k, Postfix(TOK_PLUS_PLUS, Ref(x)), c, h) == Value(was, Assigned(h, ref, x, more))
            && Eval(k, Unary(TOK_MINUS_MINUS, Ref(x)), c, h) == Value(less, Assigned(h, ref, x, less))
            && Eval(k, Postfix(TOK_MINUS_MINUS, Ref(x)), c, h) == Value(was, Assigned(h, ref, x, less))
  {
    OwnedOnce(h, c.scopes, x, i);
  }

  /** Of anything else they fail, and leave `undefined`. */
  lemma CrementFails(k: Arith, op: nat, x: Text, c: Ctx, h: Heap, i: nat)
    requires op in {TOK_PLUS_PLUS, TOK_MINUS_MINUS} && OwnedAt(h, c.scopes, x, i) && !h[c.scopes[i]][x].Number?
    ensures Eval(k, Unary(op, Ref(x)), c, h) == Eval(k, Postfix(op, Ref(x)), c, h)
         == Error(TypeError, Assigned(h, c.scopes[i], x, Undefined))
  {
    OwnedOnce(h, c.scopes, x, i);
  }

  // ----- literals -----

  lemma LiteralValues(k: Arith, n: Whole, text: Text, c: Ctx, h: Heap)
    ensures Eval(k, Lit(LitTrue), c, h) == Value(Boolean(true), h) && Eval(k, Lit(LitFalse), c, h) == Value(Boolean(false), h)
    ensures Eval(k, Lit(LitNull), c, h) == Value(Null, h) && Eval(k, Lit(LitUndefined), c, h) == Value(Undefined, h)
    ensures Eval(k, Lit(LitThis), c, h) == Value(c.self, h) && Eval(k, Lit(LitString(text)), c, h) == Value(Str(text), h)
    ensures Eval(k, Lit(LitInteger(n)), c, h) == Value(Number(k.ofWhole(n)), h)
    ensures Eval(k, Lit(LitFraction(text)), c, h) == Value(Number(k.ofText(text)), h)
  {}
}
