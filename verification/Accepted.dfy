/** From acceptance to execution: which accepted programs compile to code with the stack effect of statements. */
module Accepted {
  import opened Options
  import opened Varint
  import opened Bytecode
  import opened Tokens
  import opened Syntax
  import opened StmtGrammar
  import opened Reader
  import opened Agreement
  import opened StmtReader
  import opened Canonical
  import opened Machine
  import opened Evaluate
  import opened ExprRuns
  import opened StmtRuns
  import opened Interpreter
  import opened Programs

  // ----- expressions -----

  predicate IsName(e: Expr) {
    e.Ident? || e.Ref?
  }

  /** Only names are assigned, incremented or decremented. */
  predicate Targets(e: Expr) {
    match e
    case Paren(e) => Targets(e)
    case Unary(op, e) => if IsCrement(op) then IsName(e) else Targets(e)
    case Postfix(_, e) => IsName(e)
    case Binary(_, l, r) => Targets(l) && Targets(r)
    case Logical(_, l, r) => Targets(l) && Targets(r)
    case Cond(c, t, f) => Targets(c) && Targets(t) && Targets(f)
    case Assign(_, l, r) => IsName(l) && Targets(r)
    case _ => true
  }

  /** The first token is a variable that is read. */
  predicate OpensWithRead(e: Expr) {
    match e
    case Ident(_) => true
    case Ref(_) => true
    case Binary(_, l, _) => OpensWithRead(l)
    case Logical(_, l, _) => OpensWithRead(l)
    case Cond(c, _, _) => OpensWithRead(c)
    case _ => false
  }

  /** Behind `++` or `--` the parser takes a name for one that is updated, whichever expression it belongs to.
      Apart from that, a tree is proper exactly when its targets are names. */
  lemma {:induction false} ProperIff(e: Expr, level: nat, prev: nat, next: nat)
    requires Fits(e, level) && Placed(e, prev, next) && !IsAssignOp(next) && MayEnd(e, next)
    ensures Proper(e) <==> Targets(e) && (IsCrement(prev) ==> !OpensWithRead(e))
    decreases e
  {
    hide GoesOn, OpAt;
    match e
    case Paren(e) =>
      EndsBefore(e, TOK_CLOSE_PAREN);
      ProperIff(e, ASSIGN_LEVEL, TOK_OPEN_PAREN, TOK_CLOSE_PAREN);
    case Unary(op, e) =>
      if !IsCrement(op) {
        ProperIff(e, UNARY_LEVEL, op, next);
      }
    case Binary(op, l, r) =>
      EndsBefore(l, op);
      ProperIff(l, LevelOf(op), prev, op);
      ProperIff(r, LevelOf(op) + 1, op, next);
    case Logical(op, l, r) =>
      EndsBefore(l, op);
      ProperIff(l, LevelOf(op) + 1, prev, op);
      ProperIff(r, LevelOf(op), op, next);
    case Cond(c, t, f) =>
      EndsBefore(c, TOK_QUESTION);
      EndsBefore(t, TOK_COLON);
      ProperIff(c, OR_LEVEL, prev, TOK_QUESTION);
      ProperIff(t, TERNARY_LEVEL, TOK_QUESTION, TOK_COLON);
      ProperIff(f, TERNARY_LEVEL, TOK_COLON, next);
    case Assign(op, l, r) => ProperIff(r, ASSIGN_LEVEL, op, next);
    case _ =>
  }

  lemma EntireIff(e: Expr, prev: nat, next: nat)
    requires Entire(e, prev, next)
    ensures Proper(e) <==> UsableExpr(e, prev)
  {
    hide Fits, Placed, MayEnd, Proper, Targets, OpensWithRead;
    NotAnAssignment(next);
    ProperIff(e, ASSIGN_LEVEL, prev, next);
  }

  lemma NotAnAssignment(next: nat)
    ensures !GoesOn(ASSIGN_LEVEL, next) ==> !IsAssignOp(next)
  {}

  // ----- statements -----

  /** The condition under which an accepted expression behind `prev` leaves one value. */
  predicate UsableExpr(e: Expr, prev: nat) {
    Targets(e) && (IsCrement(prev) ==> !OpensWithRead(e))
  }

  predicate UsableExprs(es: Exprs, prev: nat) {
    UsableExpr(es.e, prev) && (es.More? ==> UsableExprs(es.rest, TOK_COMMA))
  }

  predicate UsableDecls(ds: Decls) {
    ds.Decl? ==> (ds.init.Some? ==> UsableExpr(ds.init.value, TOK_ASSIGN)) && UsableDecls(ds.rest)
  }

  /** What it takes, beyond being accepted, to be a statement: targets are names, nothing stands directly behind
      an increment, a `let` has one variable without a comma, and blocks are not empty. */
  predicate Usable(s: Stmt, prev: nat) {
    match s
    case ExprStmt(es) => UsableExprs(es, prev)
    case Let(ds) => UsableDecls(ds) && Kept(ds) == 1
    case Block(body) => body.Stmts? && AllUsable(body, TOK_OPEN_CURLY)
    case If(c, t) => UsableExpr(c, TOK_OPEN_PAREN) && Usable(t, TOK_CLOSE_PAREN)
    case IfElse(c, t, f) => UsableExpr(c, TOK_OPEN_PAREN) && Usable(t, TOK_CLOSE_PAREN) && Usable(f, TOK_KEYWORD_ELSE)
    case While(c, body) => UsableExpr(c, TOK_OPEN_PAREN) && body.Stmts? && AllUsable(body, TOK_OPEN_CURLY)
    case WhileOne(c, t) => UsableExpr(c, TOK_OPEN_PAREN) && Usable(t, TOK_CLOSE_PAREN)
    case Return(e) => e.Some? ==> UsableExpr(e.value, TOK_KEYWORD_RETURN)
    case _ => true
  }

  predicate AllUsable(ss: Stmts, prev: nat) {
    ss.Stmts? ==> Usable(ss.s, prev) && AllUsable(ss.rest, LastKind(WrittenStmt(ss.s) + Semis(ss.semis), prev))
  }

  lemma {:induction false} ExprsIff(es: Exprs, prev: nat, next: nat)
    requires ExprsStand(es, prev, next)
    ensures ProperExprs(es) <==> UsableExprs(es, prev)
  {
    hide Entire, Proper, UsableExpr;
    EntireIff(es.e, prev, if es.More? then TOK_COMMA else next);
    if es.More? {
      ExprsIff(es.rest, TOK_COMMA, next);
    }
  }

  lemma {:induction false} DeclsIff(ds: Decls, next: nat)
    requires DeclsStand(ds, next)
    ensures ProperDecls(ds) <==> UsableDecls(ds)
  {
    hide Entire, Proper, UsableExpr, WrittenDecls;
    if ds.Decl? {
      if ds.init.Some? {
        EntireIff(ds.init.value, TOK_ASSIGN, if ds.comma then TOK_COMMA else FirstKind(WrittenDecls(ds.rest), next));
      }
      DeclsIff(ds.rest, next);
    }
  }

  lemma {:induction false} StmtIff(s: Stmt, prev: nat, next: nat)
    requires StmtStands(s, prev, next)
    ensures ProperStmt(s) <==> Usable(s, prev)
    decreases s
  {
    hide Entire, Proper, UsableExpr, ProperExprs, UsableExprs, ProperDecls, UsableDecls, WrittenStmt, WrittenStmts;
    match s
    case ExprStmt(es) => ExprsIff(es, prev, next);
    case Let(ds) => DeclsIff(ds, next);
    case Block(body) => StmtsIff(body, TOK_OPEN_CURLY, TOK_CLOSE_CURLY);
    case If(c, t) =>
      EntireIff(c, TOK_OPEN_PAREN, TOK_CLOSE_PAREN);
      StmtIff(t, TOK_CLOSE_PAREN, next);
    case IfElse(c, t, f) =>
      EntireIff(c, TOK_OPEN_PAREN, TOK_CLOSE_PAREN);
      StmtIff(t, TOK_CLOSE_PAREN, TOK_KEYWORD_ELSE);
      StmtIff(f, TOK_KEYWORD_ELSE, next);
    case While(c, body) =>
      EntireIff(c, TOK_OPEN_PAREN, TOK_CLOSE_PAREN);
      StmtsIff(body, TOK_OPEN_CURLY, TOK_CLOSE_CURLY);
    case WhileOne(c, t) =>
      EntireIff(c, TOK_OPEN_PAREN, TOK_CLOSE_PAREN);
      StmtIff(t, TOK_CLOSE_PAREN, next);
    case Return(e) =>
      if e.Some? {
        EntireIff(e.value, TOK_KEYWORD_RETURN, next);
      }
    case _ =>
  }

  /** An accepted program is proper exactly when it can be used and is not empty. */
  lemma {:induction false} StmtsIff(ss: Stmts, prev: nat, next: nat)
    requires StmtsStand(ss, prev, next)
    ensures ProperStmts(ss) <==> ss.Stmts? && AllUsable(ss, prev)
    decreases ss
  {
    hide StmtStands, ProperStmt, Usable, WrittenStmt, WrittenStmts, LastKind, FirstKind, Semis;
    if ss.Stmts? {
      StmtIff(ss.s, prev, FirstKind(Semis(ss.semis) + WrittenStmts(ss.rest), next));
      StmtsIff(ss.rest, LastKind(WrittenStmt(ss.s) + Semis(ss.semis), prev), next);
    }
  }

  // ----- programs -----

  lemma LiesBehind(base: seq<Byte>, s: seq<Byte>, exit: seq<Byte>)
    ensures Lies(base + s + exit, |base|, s + exit)
  {
    var code := base + s + exit;
    assert code[|base|..] == s + exit && |code| == |base| + |s + exit|;
  }

  /** What the parser leaves behind the bytes it found: the program and the final exit. */
  function Emitted(base: seq<Byte>, ss: Stmts): seq<Byte> {
    base + StmtsCode(ss) + Asm(Exit)
  }

  /** Tokens that are accepted and usable, compiled behind `base` and executed: the program does what its tree
      means, and no `break` or `continue` ends it unless it stands outside every loop. */
  lemma AcceptedProgramRuns(k: Arith, toks: seq<Token>, ss: Stmts, base: seq<Byte>, m: Machine, fuel: nat)
    requires Program(ss, toks) && ss.Stmts? && AllUsable(ss, TOK_EOF)
    requires Small(Emitted(base, ss)) && m.pc == |base| && m.status == Running
    requires Scoped(CtxOf(m), m.heap) && m.loops == [] && m.calls == []
    ensures ProperStmts(ss)
    ensures exists n: nat :: Busy(k, Emitted(base, ss), m, n)
              && ProgramEnded(ExecAll(k, ss, CtxOf(m), m.heap, fuel), m, RunFor(k, Emitted(base, ss), m, n), n, fuel)
    ensures AllContained(ss) ==> !Escapes(ExecAll(k, ss, CtxOf(m), m.heap, fuel))
  {
    hide StmtsStand, ProperStmts, AllUsable, StmtsCode, ExecAll, RunFor, Busy, Scoped, AllContained, WrittenStmts, ProgramEnded, Lies, Asm,
      PeakStmts, Stops, Escapes;
    StmtsIff(ss, TOK_EOF, TOK_EOF);
    var code := Emitted(base, ss);
    LiesBehind(base, StmtsCode(ss), Asm(Exit));
    var n := ProgramRuns(k, code, |base|, ss, m, fuel);
  }

  /** A statement of one expression. */
  lemma OneExpr(e: Expr, semis: nat, rest: Stmts, prev: nat)
    requires Fits(e, UNARY_LEVEL)
    ensures var s := ExprStmt(One(e)); var ss := Stmts(s, semis, rest);
            WrittenStmts(ss) == Written(e) + Semis(semis) + WrittenStmts(rest)
            && (StmtsStand(ss, prev, TOK_EOF) <==>
                  Entire(e, prev, FirstKind(Semis(semis) + WrittenStmts(rest), TOK_EOF))
                  && FirstKind(Semis(semis) + WrittenStmts(rest), TOK_EOF) != TOK_COMMA && (rest.Stmts? ==> !rest.s.Empty?)
                  && StmtsStand(rest, LastKind(Written(e) + Semis(semis), prev), TOK_EOF))
            && PeakStmts(ss) <= Max(Peak(e, UNARY_LEVEL) + 10, PeakStmts(rest))
  {
    hide Entire, Peak, Fits, Written, Semis;
    PeakOfOperand(e, ASSIGN_LEVEL);
  }

  lemma Stepped(a: Text, prev: nat, next: nat)
    requires next == TOK_IDENT
    ensures var e := Postfix(TOK_PLUS_PLUS, Ref(a));
            Fits(e, UNARY_LEVEL) && Written(e) == [Name(a), Plain(TOK_PLUS_PLUS)] && Entire(e, prev, next) && Peak(e, UNARY_LEVEL) == 0
  {}

  lemma TakenForUpdated(b: Text)
    ensures var f := Ref(b);
            Fits(f, UNARY_LEVEL) && Written(f) == [Name(b)] && Entire(f, TOK_PLUS_PLUS, TOK_EOF) && Peak(f, UNARY_LEVEL) == 0
  {}

  /** The program `a++ b`. */
  function IncrementThen(a: Text, b: Text): Stmts {
    Stmts(ExprStmt(One(Postfix(TOK_PLUS_PLUS, Ref(a)))), 0, Stmts(ExprStmt(One(Ref(b))), 0, NoStmts))
  }

  /** `a++ b` without a semicolon is accepted, but `b` counts as updated and the tree is not proper. */
  lemma BehindIncrement(a: Text, b: Text)
    ensures var ss := IncrementThen(a, b);
            Program(ss, [Name(a), Plain(TOK_PLUS_PLUS), Name(b)]) && !ProperStmts(ss)
  {
    hide Entire, Peak, Fits, ProperStmts, StmtsStand, PeakStmts, WrittenStmts, Written;
    var e, f := Postfix(TOK_PLUS_PLUS, Ref(a)), Ref(b);
    Stepped(a, TOK_EOF, TOK_IDENT);
    TakenForUpdated(b);
    NeverProper(ExprStmt(One(e)), b);
    NothingStands(TOK_IDENT);
    var second := Stmts(ExprStmt(One(f)), 0, NoStmts);
    OneExpr(f, 0, NoStmts, TOK_PLUS_PLUS);
    assert Semis(0) == [] && WrittenStmts(second) == [Name(b)];
    OneExpr(e, 0, second, TOK_EOF);
    assert [Name(a), Plain(TOK_PLUS_PLUS)] + Semis(0) == [Name(a), Plain(TOK_PLUS_PLUS)];
    assert Semis(0) + WrittenStmts(second) == [Name(b)];
    assert [Name(a), Plain(TOK_PLUS_PLUS)] + [Name(b)] == [Name(a), Plain(TOK_PLUS_PLUS), Name(b)];
  }

  lemma IncrementCode(a: Text, b: Text, base: seq<Byte>)
    ensures var code, e := Emitted(base, IncrementThen(a, b)), Code(Postfix(TOK_PLUS_PLUS, Ref(a)));
            Lies(code, |base|, e) && Lies(code, |base| + |e|, Asm(Drop)) && Lies(code, |base| + |e| + 1, RefCode(b))
            && Lies(code, |base| + |e| + 1 + |RefCode(b)|, Asm(Exit)) && |Asm(Drop)| == 1 == |Asm(Exit)|
  {
    hide RefCode, Lies, Code;
    var e := Code(Postfix(TOK_PLUS_PLUS, Ref(a)));
    var ss := IncrementThen(a, b);
    RefIsCode(b);
    assert StmtsCode(ss.rest) == StmtCode(ss.rest.s) == RefCode(b);
    assert StmtsCode(ss) == StmtCode(ss.s) + Asm(Drop) + StmtsCode(ss.rest);
    LiesBehind(base, StmtsCode(ss), Asm(Exit));
    var code := Emitted(base, ss);
    LiesSplit(code, |base|, StmtsCode(ss), Asm(Exit));
    LiesSplit(code, |base|, e + Asm(Drop), RefCode(b));
    LiesSplit(code, |base|, e, Asm(Drop));
  }

  lemma RefIsCode(b: Text)
    ensures Code(Ref(b)) == RefCode(b)
  {}

  /** How a run of `a++ b` comes out, when `r` is the outcome of `a++`: two values are left, the name `b` and the
      object that owns it. */
  ghost predicate LeavesReference(r: Outcome, m: Machine, b: Text, z: Machine) {
    match r
    case Error(err, h) => Stops(z, err, h)
    case Value(_, h) =>
      match OwnerOf(h, m.scopes, b)
      case None => Stops(z, ReferenceError, h)
      case Some(ref) => z.status == Halted && z.heap == h && z.stack == m.stack + [Str(b), Obj(ref)]
  }

  /** The second statement, with the value of the first one still on the stack. */
  lemma RunSecond(k: Arith, code: seq<Byte>, at: nat, b: Text, m: Machine, v: Val, h: Heap) returns (n: nat, z: Machine)
    requires Small(code) && Lies(code, at, Asm(Drop)) && Lies(code, at + 1, RefCode(b)) && m.status == Running
    requires Lies(code, at + 1 + |RefCode(b)|, Asm(Exit))
    ensures Runs(k, code, at, at + 2 + |RefCode(b)|, With(m, at, v, h), z, n)
    ensures LeavesReference(Value(v, h), m, b, z)
  {
    hide Runs, Lies, RefCode, OwnerOf;
    var y, hi := With(m, at, v, h), at + 2 + |RefCode(b)|;
    var x := RunSimple(k, code, at, Drop, y);
    assert x == m.(pc := at + 1, heap := h);
    var n2, w := RunRef(k, code, at + 1, b, x);
    Join(k, code, at, hi, y, at, at + 1, x, 1, at + 1, hi - 1, w, n2);
    n, z := 1 + n2, w;
    if OwnerOf(h, m.scopes, b).Some? {
      z := RunSimple(k, code, hi - 1, Exit, w);
      Join(k, code, at, hi, y, at, hi, w, n, hi - 1, hi, z, 1);
      n := n + 1;
    }
  }

  /** Running the code that is emitted for `a++ b`, on any machine. */
  lemma RunIncrementThen(k: Arith, a: Text, b: Text, base: seq<Byte>, m: Machine) returns (n: nat)
    requires Small(Emitted(base, IncrementThen(a, b))) && m.pc == |base| && m.status == Running
    ensures var code := Emitted(base, IncrementThen(a, b));
            Busy(k, code, m, n)
            && LeavesReference(Eval(k, Postfix(TOK_PLUS_PLUS, Ref(a)), CtxOf(m), m.heap), m, b, RunFor(k, code, m, n))
  {
    hide Runs, Lies, Code, RefCode, Busy, RunFor, Eval, OwnerOf, Asm, Emitted;
    var code, e := Emitted(base, IncrementThen(a, b)), Postfix(TOK_PLUS_PLUS, Ref(a));
    var at := |base| + |Code(e)|;
    IncrementCode(a, b, base);
    var n1, y := RunExpr(k, code, |base|, e, m);
    n := n1;
    RunsIsRunFor(k, code, |base|, at, m, y, n1);
    var r := Eval(k, e, CtxOf(m), m.heap);
    if r.Value? {
      var n2, z := RunSecond(k, code, at, b, m, r.v, r.heap);
      n := n1 + n2;
      Join(k, code, |base|, at + 2 + |RefCode(b)|, m, |base|, at, y, n1, at, at + 2 + |RefCode(b)|, z, n2);
      RunsIsRunFor(k, code, |base|, at + 2 + |RefCode(b)|, m, z, n);
    }
  }

  /** Storing under a name that is there changes no owner. */
  lemma {:induction false} OwnersStay(h: Heap, ref: nat, x: Text, v: Val, scopes: seq<nat>, y: Text)
    requires Has(h, ref, x)
    ensures OwnerOf(Store(h, ref, x, v), scopes, y) == OwnerOf(h, scopes, y)
  {
    if scopes != [] {
      OwnersStay(h, ref, x, v, scopes[..|scopes| - 1], y);
    }
  }

  /** In particular, `a++ b` leaves two values wherever `a` is a number and `b` exists. */
  lemma TwoValuesLeft(k: Arith, a: Text, b: Text, base: seq<Byte>, m: Machine) returns (n: nat)
    requires Small(Emitted(base, IncrementThen(a, b))) && m.pc == |base| && m.status == Running
    requires OwnerOf(m.heap, m.scopes, a).Some? && Load(m.heap, OwnerOf(m.heap, m.scopes, a).value, a).Number?
    requires OwnerOf(m.heap, m.scopes, b).Some?
    ensures var z := RunFor(k, Emitted(base, IncrementThen(a, b)), m, n);
            z.status == Halted && z.stack == m.stack + [Str(b), Obj(OwnerOf(m.heap, m.scopes, b).value)]
  {
    hide RunFor, Emitted, Busy;
    var ref := OwnerOf(m.heap, m.scopes, a).value;
    n := RunIncrementThen(k, a, b, base, m);
    var v := DoOp(k, TOK_PLUS, Load(m.heap, ref, a), Number(k.ofWhole(1))).v;
    assert Eval(k, Postfix(TOK_PLUS_PLUS, Ref(a)), CtxOf(m), m.heap) == Value(Load(m.heap, ref, a), Store(m.heap, ref, a, v));
    OwnersStay(m.heap, ref, a, v, m.scopes, b);
  }

  lemma NeverProper(s: Stmt, b: Text)
    ensures !ProperStmts(Stmts(s, 0, Stmts(ExprStmt(One(Ref(b))), 0, NoStmts)))
  {
    assert !ProperStmt(ExprStmt(One(Ref(b))));
  }

  lemma NothingStands(prev: nat)
    ensures StmtsStand(NoStmts, prev, TOK_EOF) && WrittenStmts(NoStmts) == [] && PeakStmts(NoStmts) == 0
  {}

  // ----- code that is never reached -----

  /** The right operand of `&&` or `||` may be anything at all when the left one decides. */
  lemma RunDecided(k: Arith, code: seq<Byte>, at: nat, op: nat, l: Expr, r: Expr, m: Machine) returns (n: nat, z: Machine)
    requires Ready(code, at, Code(Logical(op, l, r)), m) && Proper(l) && IsLogical(op)
    requires var rl := Eval(k, l, CtxOf(m), m.heap); rl.Value? && Truthy(k, rl.v) == (op == TOK_LOGICAL_OR)
    ensures Runs(k, code, at, at + |Code(Logical(op, l, r))|, m, z, n)
    ensures After(Eval(k, l, CtxOf(m), m.heap), m, at + |Code(Logical(op, l, r))|, z)
  {
    hide Runs, Lies, Code, Truthy, SkipCode, Eval;
    LogicalLayout(op, l, r);
    var a := at + |Code(l)|;
    var hi := at + |Code(Logical(op, l, r))|;
    LiesSplit(code, at, Code(l) + SkipCode(op, |Code(r)|), Code(r));
    LiesSplit(code, at, Code(l), SkipCode(op, |Code(r)|));
    LiesWithin(code, hi - |Code(r)|, Code(r));
    var n1, y := RunExpr(k, code, at, l, m);
    var n2, w := RunSkip(k, code, a, op, |Code(r)|, y, m, Eval(k, l, CtxOf(m), m.heap).v);
    Join(k, code, at, hi, m, at, a, y, n1, a, hi, w, n2);
    n, z := n1 + n2, w;
  }

  /** `true || (null = null)`. */
  const DECIDED: Expr := Logical(TOK_LOGICAL_OR, Lit(LitTrue), Paren(Assign(TOK_ASSIGN, Lit(LitNull), Lit(LitNull))))

  /** It is accepted and not proper, and yet every run of it leaves one value and nothing else. */
  lemma ImproperButNeverReached(k: Arith, code: seq<Byte>, at: nat, m: Machine) returns (n: nat)
    requires Ready(code, at, Code(DECIDED), m)
    ensures Entire(DECIDED, TOK_EOF, TOK_EOF) && !Proper(DECIDED)
    ensures Runs(k, code, at, at + |Code(DECIDED)|, m, With(m, at + |Code(DECIDED)|, Boolean(true), m.heap), n)
  {
    hide Runs, Lies, Code;
    var z;
    n, z := RunDecided(k, code, at, DECIDED.op, DECIDED.l, DECIDED.r, m);
  }

  // ----- variables and commas -----

  /** `let a b` is accepted and leaves two values; `let a,` is accepted and leaves none. */
  lemma LetWithoutComma(a: Text, b: Text)
    ensures var ds := Decl(a, None, false, Decl(b, None, false, NoDecls));
            Program(Stmts(Let(ds), 0, NoStmts), [Plain(TOK_KEYWORD_LET), Name(a), Name(b)]) && Kept(ds) == 2
    ensures var ds := Decl(a, None, true, NoDecls);
            Program(Stmts(Let(ds), 0, NoStmts), [Plain(TOK_KEYWORD_LET), Name(a), Plain(TOK_COMMA)]) && Kept(ds) == 0
  {
    hide Program, WrittenDecls, DeclsStand, Kept, PeakDecls;
    var last := Decl(b, None, false, NoDecls);
    OneVariable(b, false, NoDecls);
    OneVariable(a, false, last);
    OneVariable(a, true, NoDecls);
    EmptyList();
    LetProgram(Decl(a, None, false, last));
    LetProgram(Decl(a, None, true, NoDecls));
    assert [Plain(TOK_KEYWORD_LET)] + ([Name(a)] + ([Name(b)] + [])) == [Plain(TOK_KEYWORD_LET), Name(a), Name(b)];
    assert [Plain(TOK_KEYWORD_LET)] + ([Name(a), Plain(TOK_COMMA)] + []) == [Plain(TOK_KEYWORD_LET), Name(a), Plain(TOK_COMMA)];
  }

  lemma EmptyList()
    ensures WrittenDecls(NoDecls) == [] && DeclsStand(NoDecls, TOK_EOF) && Kept(NoDecls) == 0 && PeakDecls(NoDecls) == 0
  {}

  /** A variable without an initialiser, in front of others. */
  lemma OneVariable(x: Text, comma: bool, rest: Decls)
    ensures var ds := Decl(x, None, comma, rest);
            WrittenDecls(ds) == (if comma then [Name(x), Plain(TOK_COMMA)] else [Name(x)]) + WrittenDecls(rest)
            && (DeclsStand(rest, TOK_EOF) ==> DeclsStand(ds, TOK_EOF))
            && Kept(ds) == (if comma then 0 else 1) + Kept(rest) && PeakDecls(ds) == PeakDecls(rest)
  {}

  /** A program that is one `let`. */
  lemma LetProgram(ds: Decls)
    requires ds.Decl? && DeclsStand(ds, TOK_EOF) && PeakDecls(ds) == 0
    ensures Program(Stmts(Let(ds), 0, NoStmts), [Plain(TOK_KEYWORD_LET)] + WrittenDecls(ds))
  {
    hide DeclsStand, WrittenDecls, PeakDecls;
    var s := Let(ds);
    NothingStands(LastKind(WrittenStmt(s) + Semis(0), TOK_EOF));
    assert WrittenStmts(Stmts(s, 0, NoStmts)) == WrittenStmt(s) + Semis(0) + [] == WrittenStmt(s);
    assert PeakStmt(s) == 0;
    assert FirstKind(Semis(0) + WrittenStmts(NoStmts), TOK_EOF) == TOK_EOF;
    assert StmtStands(s, TOK_EOF, TOK_EOF);
    assert StmtsStand(Stmts(s, 0, NoStmts), TOK_EOF, TOK_EOF);
    assert PeakStmts(Stmts(s, 0, NoStmts)) == 0;
  }
}
