/** The token record as lexer.py and parsing.py use it:
    Token(type, value, preced, isOperator, operands_n). */
module Tokens {

  /** NUMBER, the OP_* kinds of the operator table, LPAREN and RPAREN. */
  datatype TokenKind =
    | Number
    | OpMultiply | OpDivide | OpModulus | OpAdd | OpMinus | OpAnd | OpOr
    | OpUnAdd | OpUnMinus | OpNot
    | LParen | RParen

  /** `value` is the normalised literal of a number and the lexeme of every other
      token; `operands` is the operator's arity (0 for numbers and parentheses). */
  datatype Token = Token(kind: TokenKind, value: string, preced: int, isOperator: bool, operands: nat)

  /** Precedence of `(`; larger than every precedence in the operator table. */
  const MaxPreced: int := 15

  predicate IsNumber(t: Token) { t.kind == Number }

  predicate IsLParen(t: Token) { t.kind == LParen }

  predicate NotLParen(t: Token) { t.kind != LParen }

  predicate IsRParen(t: Token) { t.kind == RParen }

  /** A token that the shunting-yard loop treats as an operator: it is not caught
      by the NUMBER, LPAREN or RPAREN branches and its isOperator flag is set. */
  predicate IsOp(t: Token) {
    t.kind != Number && t.kind != LParen && t.kind != RParen && t.isOperator
  }
}
