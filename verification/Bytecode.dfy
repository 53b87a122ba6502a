/** The instructions of the mJS stack machine and their bytes. */
module Bytecode {
  import opened Varint

  type Text = seq<Byte>

  // ----- opcodes -----

  const OP_NOP: Byte := 0
  const OP_DROP: Byte := 1
  const OP_DUP: Byte := 2
  const OP_SWAP: Byte := 3
  const OP_JMP: Byte := 4
  const OP_JMP_NEUTRAL_TRUE: Byte := 6
  const OP_JMP_FALSE: Byte := 7
  const OP_JMP_NEUTRAL_FALSE: Byte := 8
  const OP_FIND_SCOPE: Byte := 9
  const OP_PUSH_SCOPE: Byte := 10
  const OP_PUSH_STR: Byte := 11
  const OP_PUSH_TRUE: Byte := 12
  const OP_PUSH_FALSE: Byte := 13
  const OP_PUSH_INT: Byte := 14
  const OP_PUSH_DBL: Byte := 15
  const OP_PUSH_NULL: Byte := 16
  const OP_PUSH_UNDEF: Byte := 17
  const OP_PUSH_THIS: Byte := 21
  const OP_GET: Byte := 22
  const OP_CREATE: Byte := 23
  const OP_EXPR: Byte := 24
  const OP_SET_ARG: Byte := 26
  const OP_NEW_SCOPE: Byte := 27
  const OP_DEL_SCOPE: Byte := 28
  const OP_CALL: Byte := 29
  const OP_RETURN: Byte := 30
  const OP_LOOP: Byte := 31
  const OP_BREAK: Byte := 32
  const OP_CONTINUE: Byte := 33
  const OP_SETRETVAL: Byte := 34
  const OP_EXIT: Byte := 35

  // ----- instructions -----

  /** Jump operands are relative to the next instruction. `gap` is the length of a loop's second operand. */
  datatype Instr =
    | Nop | Drop | Dup | Swap
    | Jmp(n: int) | JmpFalse(n: int) | JmpNeutral(when: bool, n: int)
    | FindScope | PushScope | Get | Create
    | PushStr(text: Text) | PushBool(b: bool) | PushInt(whole: int) | PushDbl(text: Text)
    | PushNull | PushUndef | PushThis
    | Expr(op: Byte)
    | SetArg(index: int, text: Text)
    | NewScope | DelScope
    | Call | Return | SetRetval
    | Loop(brk: int, cont: int, gap: nat) | Break | Continue
    | Exit

  datatype Fetched = Fetched(instr: Instr, next: nat) | Unreadable

  /** A C `int` (`bits == 32`) or `int64_t` (`bits == 64`) assigned from an unsigned word. */
  function Signed(n: nat, bits: nat): int
    requires bits > 0
  {
    var low := n % Pow2(bits);
    if low < Pow2(bits - 1) then low else low - Pow2(bits)
  }

  lemma SmallIsSigned(n: nat)
    requires n <= INT_MAX
    ensures Signed(n, 32) == n
  {
    assert Pow2(8) == 256;
    Pow2Add(8, 8);
    Pow2Add(16, 15);
    assert Pow2(7) == 128;
    Pow2Add(8, 7);
  }

  lemma WholeIsSigned(n: nat)
    requires n < Pow2(63)
    ensures Signed(n, 64) == n && n < U64
  {
    Pow2At64();
  }

  /** A length-prefixed string, as `emit_str` and `embed_string` write it. */
  function Embed(text: Text): (s: seq<Byte>)
    ensures |s| > |text|
  {
    Encode(|text|) + text
  }

  datatype Operand = Operand(n: nat, next: nat) | Missing

  /** The varint at `at`. */
  function ReadOperand(code: seq<Byte>, at: nat): (r: Operand)
    ensures r.Operand? ==> at < r.next <= |code|
  {
    if at <= |code| && Decodable(code[at..], 0) then
      Operand(Decode(code[at..]).0, at + Decode(code[at..]).1)
    else
      Missing
  }

  datatype Embedded = Embedded(text: Text, next: nat) | Broken

  /** The length-prefixed string at `at`; its length is read into a C `int`. */
  function ReadText(code: seq<Byte>, at: nat): (r: Embedded)
    ensures r.Embedded? ==> at < r.next <= |code|
  {
    match ReadOperand(code, at)
    case Missing => Broken
    case Operand(n, p) =>
      var len := Signed(n, 32);
      if 0 <= len <= |code| - p then Embedded(code[p..p + len], p + len) else Broken
  }

  /** What `mjs_execute` makes of the bytes at `pc`. Instructions outside this model are unreadable. */
  function Fetch(code: seq<Byte>, pc: nat): (r: Fetched)
    requires pc < |code|
    ensures r.Fetched? ==> pc < r.next <= |code|
  {
    var plain := FetchPlain(code[pc]);
    if plain.Fetched? then Fetched(plain.instr, pc + 1) else FetchLong(code, pc)
  }

  /** Instructions of one byte; `next` counts from the instruction itself. */
  function FetchPlain(b: Byte): Fetched {
    if b == OP_NOP then Fetched(Nop, 1)
    else if b == OP_DROP then Fetched(Drop, 1)
    else if b == OP_DUP then Fetched(Dup, 1)
    else if b == OP_SWAP then Fetched(Swap, 1)
    else if b == OP_FIND_SCOPE then Fetched(FindScope, 1)
    else if b == OP_PUSH_SCOPE then Fetched(PushScope, 1)
    else if b == OP_PUSH_TRUE then Fetched(PushBool(true), 1)
    else if b == OP_PUSH_FALSE then Fetched(PushBool(false), 1)
    else if b == OP_PUSH_NULL then Fetched(PushNull, 1)
    else if b == OP_PUSH_UNDEF then Fetched(PushUndef, 1)
    else if b == OP_PUSH_THIS then Fetched(PushThis, 1)
    else if b == OP_GET then Fetched(Get, 1)
    else if b == OP_CREATE then Fetched(Create, 1)
    else if b == OP_NEW_SCOPE then Fetched(NewScope, 1)
    else if b == OP_DEL_SCOPE then Fetched(DelScope, 1)
    else if b == OP_CALL then Fetched(Call, 1)
    else if b == OP_RETURN then Fetched(Return, 1)
    else if b == OP_BREAK then Fetched(Break, 1)
    else if b == OP_CONTINUE then Fetched(Continue, 1)
    else if b == OP_SETRETVAL then Fetched(SetRetval, 1)
    else if b == OP_EXIT then Fetched(Exit, 1)
    else Unreadable
  }

  /** Instructions with operands. */
  function FetchLong(code: seq<Byte>, pc: nat): (r: Fetched)
    requires pc < |code|
    ensures r.Fetched? ==> pc < r.next <= |code|
  {
    var b := code[pc];
    if b == OP_EXPR then
      if pc + 1 < |code| then Fetched(Expr(code[pc + 1]), pc + 2) else Unreadable
    else if b == OP_PUSH_STR || b == OP_PUSH_DBL then
      match ReadText(code, pc + 1)
      case Broken => Unreadable
      case Embedded(text, next) => Fetched(if b == OP_PUSH_STR then PushStr(text) else PushDbl(text), next)
    else if b in {OP_JMP, OP_JMP_FALSE, OP_JMP_NEUTRAL_TRUE, OP_JMP_NEUTRAL_FALSE, OP_PUSH_INT, OP_LOOP, OP_SET_ARG} then
      match ReadOperand(code, pc + 1)
      case Missing => Unreadable
      case Operand(n, next) =>
        if b == OP_PUSH_INT then Fetched(PushInt(Signed(n, 64)), next)
        else if b == OP_LOOP || b == OP_SET_ARG then FetchPair(code, b, Signed(n, 32), next)
        else Fetched(Jump(b, Signed(n, 32)), next)
    else
      Unreadable
  }

  function Jump(b: Byte, n: int): Instr {
    if b == OP_JMP then Jmp(n)
    else if b == OP_JMP_FALSE then JmpFalse(n)
    else JmpNeutral(b == OP_JMP_NEUTRAL_TRUE, n)
  }

  /** The second operand of a loop header or of an argument store. */
  function FetchPair(code: seq<Byte>, b: Byte, first: int, at: nat): (r: Fetched)
    ensures r.Fetched? ==> at < r.next <= |code|
  {
    if b == OP_LOOP then
      match ReadOperand(code, at)
      case Missing => Unreadable
      case Operand(n, next) => Fetched(Loop(first, Signed(n, 32), next - at), next)
    else
      match ReadText(code, at)
      case Broken => Unreadable
      case Embedded(text, next) => Fetched(SetArg(first, text), next)
  }

  // ----- assembling -----

  /** Operands that fit where the machine reads them. */
  predicate Encodable(i: Instr) {
    match i
    case Jmp(n) => 0 <= n <= INT_MAX
    case JmpFalse(n) => 0 <= n <= INT_MAX
    case JmpNeutral(_, n) => 0 <= n <= INT_MAX
    case PushInt(n) => 0 <= n < Pow2(63)
    case PushStr(text) => |text| <= INT_MAX
    case PushDbl(text) => |text| <= INT_MAX
    case SetArg(n, text) => 0 <= n <= INT_MAX && |text| <= INT_MAX
    case Loop(brk, cont, gap) => 0 <= brk <= INT_MAX && 0 <= cont <= INT_MAX && gap == |Encode(cont)|
    case _ => true
  }

  function Positive(n: int): nat {
    if n < 0 then 0 else n
  }

  /** The bytes the compiler emits for an instruction. */
  function Asm(i: Instr): (s: seq<Byte>)
    ensures |s| >= 1
  {
    match i
    case Nop => [OP_NOP]
    case Drop => [OP_DROP]
    case Dup => [OP_DUP]
    case Swap => [OP_SWAP]
    case Jmp(n) => [OP_JMP] + Encode(Positive(n))
    case JmpFalse(n) => [OP_JMP_FALSE] + Encode(Positive(n))
    case JmpNeutral(when, n) => [if when then OP_JMP_NEUTRAL_TRUE else OP_JMP_NEUTRAL_FALSE] + Encode(Positive(n))
    case FindScope => [OP_FIND_SCOPE]
    case PushScope => [OP_PUSH_SCOPE]
    case Get => [OP_GET]
    case Create => [OP_CREATE]
    case PushStr(text) => [OP_PUSH_STR] + Embed(text)
    case PushBool(b) => [if b then OP_PUSH_TRUE else OP_PUSH_FALSE]
    case PushInt(n) => [OP_PUSH_INT] + Encode(Positive(n))
    case PushDbl(text) => [OP_PUSH_DBL] + Embed(text)
    case PushNull => [OP_PUSH_NULL]
    case PushUndef => [OP_PUSH_UNDEF]
    case PushThis => [OP_PUSH_THIS]
    case Expr(op) => [OP_EXPR, op]
    case SetArg(n, text) => [OP_SET_ARG] + (Encode(Positive(n)) + Embed(text))
    case NewScope => [OP_NEW_SCOPE]
    case DelScope => [OP_DEL_SCOPE]
    case Call => [OP_CALL]
    case Return => [OP_RETURN]
    case SetRetval => [OP_SETRETVAL]
    case Loop(brk, cont, _) => [OP_LOOP] + (Encode(Positive(brk)) + Encode(Positive(cont)))
    case Break => [OP_BREAK]
    case Continue => [OP_CONTINUE]
    case Exit => [OP_EXIT]
  }

  /** `s` lies in `code` from `at` on. */
  predicate Lies(code: seq<Byte>, at: int, s: seq<Byte>) {
    0 <= at && at + |s| <= |code| && code[at..at + |s|] == s
  }

  lemma LiesSplit(code: seq<Byte>, at: nat, a: seq<Byte>, b: seq<Byte>)
    requires Lies(code, at, a + b)
    ensures Lies(code, at, a) && Lies(code, at + |a|, b)
  {
    var whole := code[at..at + |a + b|];
    assert whole[..|a|] == a && whole[|a|..] == b;
    assert code[at..at + |a|] == whole[..|a|];
    assert code[at + |a|..at + |a| + |b|] == whole[|a|..];
  }

  lemma OperandLies(code: seq<Byte>, at: nat, n: nat)
    requires Lies(code, at, Encode(n)) && n < U64
    ensures ReadOperand(code, at) == Operand(n, at + |Encode(n)|)
  {
    var rest := code[at + |Encode(n)|..];
    assert code[at..] == Encode(n) + rest;
    RoundTrip(n, rest);
  }

  lemma TextLies(code: seq<Byte>, at: nat, text: Text)
    requires Lies(code, at, Embed(text)) && |text| <= INT_MAX
    ensures ReadText(code, at) == Embedded(text, at + |Embed(text)|)
  {
    LiesSplit(code, at, Encode(|text|), text);
    OperandLies(code, at, |text|);
    SmallIsSigned(|text|);
  }

  predicate IsJump(i: Instr) {
    i.Jmp? || i.JmpFalse? || i.JmpNeutral?
  }

  lemma HeadLies(code: seq<Byte>, at: nat, b: Byte, s: seq<Byte>)
    requires Lies(code, at, [b] + s)
    ensures at < |code| && code[at] == b && Lies(code, at + 1, s)
  {
    LiesSplit(code, at, [b], s);
    assert code[at..at + 1][0] == code[at];
  }

  lemma FetchJump(code: seq<Byte>, at: nat, i: Instr)
    requires Encodable(i) && IsJump(i)
    requires Lies(code, at, Asm(i))
    ensures Fetch(code, at) == Fetched(i, at + |Asm(i)|)
  {
    hide Encode, Decodable, Decode, DecodeFrom, Pow2, Signed, ReadOperand, ReadText, Lies;
    HeadLies(code, at, Asm(i)[0], Encode(i.n));
    OperandLies(code, at + 1, i.n);
    SmallIsSigned(i.n);
  }

  lemma FetchPush(code: seq<Byte>, at: nat, i: Instr)
    requires Encodable(i) && (i.PushInt? || i.PushStr? || i.PushDbl?)
    requires Lies(code, at, Asm(i))
    ensures Fetch(code, at) == Fetched(i, at + |Asm(i)|)
  {
    hide Encode, Decodable, Decode, DecodeFrom, Pow2, Signed, ReadOperand, ReadText, Lies, Embed;
    if i.PushInt? {
      HeadLies(code, at, OP_PUSH_INT, Encode(i.whole));
      WholeIsSigned(i.whole);
      OperandLies(code, at + 1, i.whole);
    } else {
      HeadLies(code, at, Asm(i)[0], Embed(i.text));
      TextLies(code, at + 1, i.text);
    }
  }

  lemma FetchTwo(code: seq<Byte>, at: nat, n: nat, next: nat)
    requires at < |code| && (code[at] == OP_LOOP || code[at] == OP_SET_ARG)
    requires ReadOperand(code, at + 1) == Operand(n, next)
    ensures Fetch(code, at) == FetchPair(code, code[at], Signed(n, 32), next)
  {
    hide ReadOperand, ReadText, FetchPair, Signed;
  }

  lemma FetchLoop(code: seq<Byte>, at: nat, i: Instr)
    requires Encodable(i) && i.Loop?
    requires Lies(code, at, Asm(i))
    ensures Fetch(code, at) == Fetched(i, at + |Asm(i)|)
  {
    hide Encode, Decodable, Decode, DecodeFrom, Pow2, Signed, ReadOperand, ReadText, Lies, Embed, Fetch;
    HeadLies(code, at, OP_LOOP, Encode(i.brk) + Encode(i.cont));
    LiesSplit(code, at + 1, Encode(i.brk), Encode(i.cont));
    OperandLies(code, at + 1, i.brk);
    SmallIsSigned(i.brk);
    OperandLies(code, at + 1 + |Encode(i.brk)|, i.cont);
    SmallIsSigned(i.cont);
    FetchTwo(code, at, i.brk, at + 1 + |Encode(i.brk)|);
  }

  lemma FetchSetArg(code: seq<Byte>, at: nat, i: Instr)
    requires Encodable(i) && i.SetArg?
    requires Lies(code, at, Asm(i))
    ensures Fetch(code, at) == Fetched(i, at + |Asm(i)|)
  {
    hide Encode, Decodable, Decode, DecodeFrom, Pow2, Signed, ReadOperand, ReadText, Lies, Embed, Fetch;
    HeadLies(code, at, OP_SET_ARG, Encode(i.index) + Embed(i.text));
    LiesSplit(code, at + 1, Encode(i.index), Embed(i.text));
    OperandLies(code, at + 1, i.index);
    SmallIsSigned(i.index);
    TextLies(code, at + 1 + |Encode(i.index)|, i.text);
    FetchTwo(code, at, i.index, at + 1 + |Encode(i.index)|);
  }

  /** The machine reads back exactly the instruction that was emitted, wherever it lies. */
  lemma FetchOfAsm(code: seq<Byte>, at: nat, i: Instr)
    requires Encodable(i)
    requires Lies(code, at, Asm(i))
    ensures Fetch(code, at) == Fetched(i, at + |Asm(i)|)
  {
    if IsJump(i) {
      FetchJump(code, at, i);
    } else if i.PushInt? || i.PushStr? || i.PushDbl? {
      FetchPush(code, at, i);
    } else if i.Loop? {
      FetchLoop(code, at, i);
    } else if i.SetArg? {
      FetchSetArg(code, at, i);
    } else {
      FetchRest(code, at, i);
    }
  }

  lemma FetchRest(code: seq<Byte>, at: nat, i: Instr)
    requires Encodable(i) && !IsJump(i) && !i.PushInt? && !i.PushStr? && !i.PushDbl? && !i.Loop? && !i.SetArg?
    requires Lies(code, at, Asm(i))
    ensures Fetch(code, at) == Fetched(i, at + |Asm(i)|)
  {
    assert code[at] == code[at..at + |Asm(i)|][0];
    if i.Expr? {
      assert code[at + 1] == code[at..at + |Asm(i)|][1];
    }
  }
}
