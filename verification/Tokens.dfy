/** The token numbers the parser works with; operators keep theirs in the bytecode. */
module Tokens {
  const TOK_EOF: nat := 0
  const TOK_COLON: nat := 2
  const TOK_SEMICOLON: nat := 3
  const TOK_COMMA: nat := 4
  const TOK_ASSIGN: nat := 5
  const TOK_OPEN_CURLY: nat := 6
  const TOK_CLOSE_CURLY: nat := 7
  const TOK_OPEN_PAREN: nat := 8
  const TOK_CLOSE_PAREN: nat := 9
  const TOK_OPEN_BRACKET: nat := 10
  const TOK_MUL: nat := 12
  const TOK_PLUS: nat := 13
  const TOK_MINUS: nat := 14
  const TOK_DIV: nat := 15
  const TOK_REM: nat := 16
  const TOK_AND: nat := 17
  const TOK_OR: nat := 18
  const TOK_XOR: nat := 19
  const TOK_DOT: nat := 20
  const TOK_QUESTION: nat := 21
  const TOK_NOT: nat := 22
  const TOK_TILDA: nat := 23
  const TOK_LT: nat := 24
  const TOK_GT: nat := 25
  const TOK_LSHIFT: nat := 26
  const TOK_RSHIFT: nat := 27
  const TOK_MINUS_MINUS: nat := 28
  const TOK_PLUS_PLUS: nat := 29
  const TOK_PLUS_ASSIGN: nat := 30
  const TOK_MINUS_ASSIGN: nat := 31
  const TOK_MUL_ASSIGN: nat := 32
  const TOK_DIV_ASSIGN: nat := 33
  const TOK_AND_ASSIGN: nat := 34
  const TOK_OR_ASSIGN: nat := 35
  const TOK_REM_ASSIGN: nat := 36
  const TOK_XOR_ASSIGN: nat := 37
  const TOK_EQ: nat := 38
  const TOK_NE: nat := 39
  const TOK_LE: nat := 40
  const TOK_GE: nat := 41
  const TOK_LOGICAL_AND: nat := 42
  const TOK_LOGICAL_OR: nat := 43
  const TOK_EQ_EQ: nat := 44
  const TOK_NE_NE: nat := 45
  const TOK_LSHIFT_ASSIGN: nat := 46
  const TOK_RSHIFT_ASSIGN: nat := 47
  const TOK_URSHIFT: nat := 48
  const TOK_URSHIFT_ASSIGN: nat := 49
  const TOK_UNARY_PLUS: nat := 50
  const TOK_UNARY_MINUS: nat := 51
  const TOK_POSTFIX_PLUS: nat := 52
  const TOK_POSTFIX_MINUS: nat := 53
  const TOK_NUM: nat := 200
  const TOK_STR: nat := 201
  const TOK_IDENT: nat := 202
  const TOK_KEYWORD_BREAK: nat := 203
  const TOK_KEYWORD_CONTINUE: nat := 206
  const TOK_KEYWORD_ELSE: nat := 211
  const TOK_KEYWORD_FALSE: nat := 212
  const TOK_KEYWORD_FUNCTION: nat := 215
  const TOK_KEYWORD_FOR: nat := 214
  const TOK_KEYWORD_IF: nat := 216
  const TOK_KEYWORD_NULL: nat := 220
  const TOK_KEYWORD_RETURN: nat := 221
  const TOK_KEYWORD_THIS: nat := 223
  const TOK_KEYWORD_TRUE: nat := 225
  const TOK_KEYWORD_TYPEOF: nat := 227
  const TOK_KEYWORD_WHILE: nat := 230
  const TOK_KEYWORD_LET: nat := 232
  const TOK_KEYWORD_UNDEFINED: nat := 233

  // ----- operator classes -----

  /** The operators that `do_arith_op` computes. */
  predicate IsArith(op: nat) {
    TOK_MUL <= op <= TOK_XOR || op == TOK_LSHIFT || op == TOK_RSHIFT || op == TOK_URSHIFT
  }

  predicate IsComparison(op: nat) {
    op == TOK_LT || op == TOK_GT || op == TOK_LE || op == TOK_GE
  }

  predicate IsEquality(op: nat) {
    op == TOK_EQ || op == TOK_NE || op == TOK_EQ_EQ || op == TOK_NE_NE
  }

  predicate IsBinary(op: nat) {
    IsArith(op) || IsComparison(op) || IsEquality(op)
  }

  predicate IsLogical(op: nat) {
    op == TOK_LOGICAL_AND || op == TOK_LOGICAL_OR
  }

  /** `s_postfix_ops`. */
  predicate IsCrement(op: nat) {
    op == TOK_PLUS_PLUS || op == TOK_MINUS_MINUS
  }

  /** `s_unary_ops`. */
  predicate IsUnary(op: nat) {
    op == TOK_NOT || op == TOK_TILDA || IsCrement(op) || op == TOK_KEYWORD_TYPEOF || op == TOK_MINUS || op == TOK_PLUS
  }

  /** The operator `parse_unary` emits for a unary token. */
  function UnaryCode(op: nat): nat {
    if op == TOK_MINUS then TOK_UNARY_MINUS else if op == TOK_PLUS then TOK_UNARY_PLUS else op
  }

  /** Emitted operators that replace the value on top of the stack. */
  predicate IsUnaryCode(op: nat) {
    op == TOK_NOT || op == TOK_TILDA || op == TOK_KEYWORD_TYPEOF || op == TOK_UNARY_MINUS || op == TOK_UNARY_PLUS
  }

  function PostfixCode(op: nat): nat {
    if op == TOK_PLUS_PLUS then TOK_POSTFIX_PLUS else TOK_POSTFIX_MINUS
  }

  predicate IsPostfix(op: nat) {
    op == TOK_POSTFIX_PLUS || op == TOK_POSTFIX_MINUS
  }

  /** Emitted operators that increment or decrement a property. */
  predicate IsStep(op: nat) {
    IsCrement(op) || IsPostfix(op)
  }

  function StepOp(op: nat): nat {
    if op == TOK_PLUS_PLUS || op == TOK_POSTFIX_PLUS then TOK_PLUS else TOK_MINUS
  }

  /** `s_assign_ops`. */
  predicate IsAssignOp(op: nat) {
    op == TOK_ASSIGN || TOK_PLUS_ASSIGN <= op <= TOK_XOR_ASSIGN || op == TOK_LSHIFT_ASSIGN || op == TOK_RSHIFT_ASSIGN
    || op == TOK_URSHIFT_ASSIGN
  }

  /** The operation inside a compound assignment. */
  function BaseOp(op: nat): nat {
    if op == TOK_PLUS_ASSIGN then TOK_PLUS
    else if op == TOK_MINUS_ASSIGN then TOK_MINUS
    else if op == TOK_MUL_ASSIGN then TOK_MUL
    else if op == TOK_DIV_ASSIGN then TOK_DIV
    else if op == TOK_AND_ASSIGN then TOK_AND
    else if op == TOK_OR_ASSIGN then TOK_OR
    else if op == TOK_REM_ASSIGN then TOK_REM
    else if op == TOK_XOR_ASSIGN then TOK_XOR
    else if op == TOK_LSHIFT_ASSIGN then TOK_LSHIFT
    else if op == TOK_RSHIFT_ASSIGN then TOK_RSHIFT
    else TOK_URSHIFT
  }
}
