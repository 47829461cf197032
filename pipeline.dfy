/** The whole front end, characters to tokens to postfix to tree, as main.py
    drives it for one input line, and worked inputs that show its behaviour at
    the edges: precedence, right association of equal precedences, a leading `-` that is
    binary, a unary operator with nothing below it, an unknown character. */
module Pipeline {
  import opened Results
  import opened Tokens
  import opened Sequences
  import opened Lexing
  import opened LexingProps
  import opened Parsing
  import opened ParsingProps
  import opened ParsingExamples

  /** The tree of one input line, or the error the lexer or the parser raises. */
  function Front(text: string): Result<Option<Tree>>
  {
    match Lex(text)
    case Err(e) => Err(e)
    case Ok(ts) => ParseTree(ts)
  }

  /** Lex one line into a token list, then parse that list. */
  method Compile(text: string) returns (r: Result<ASTNode?>)
    ensures Front(text) == Ok(None) ==> r == Ok(null)
    ensures Front(text).Err? ==> r == Err(Front(text).error)
    ensures Front(text).Ok? && Front(text).value.Some? ==>
      r.Ok? && r.value != null && r.value.Valid() && r.value.tree == Front(text).value.value
  {
    var tokens := Tokenize(text);
    if tokens.Err? {
      return Err(tokens.error);
    }
    r := ParseTokens(tokens.value);
  }

  /** The lexer's tokens carry the precedences the stack invariant needs:
      `(` has MaxPreced and every operator a precedence from the table, all of
      them strictly between 0 and MaxPreced. */
  lemma LexedWellPreced(t: Token)
    requires LexedToken(t)
    ensures WellPreced(t)
  {
  }

  /** On the lexer's output the operator stack stays ordered through the whole
      conversion: beneath each operator sits nothing or an entry of equal or
      larger precedence. */
  lemma LexedStackOrdered(text: string)
    requires Lex(text).Ok?
    ensures var ts := Lex(text).value;
      StackOrdered(RunFrom(PState([], []), ts, 0).opStack) &&
      Stackable(RunFrom(PState([], []), ts, 0).opStack)
  {
    var ts := Lex(text).value;
    LexedTokens(text);
    forall k | 0 <= k < |ts| ensures WellPreced(ts[k]) {
      LexedWellPreced(ts[k]);
    }
    RunOrdered(PState([], []), ts, 0);
  }

  function Num(v: string): Token { Token(Number, v, 0, false, 0) }

  const Minus: Token := Token(OpMinus, "-", 4, true, 2)
  const Plus: Token := Token(OpAdd, "+", 4, true, 2)
  const Not: Token := Token(OpNot, "!", 2, true, 1)

  /** A digit followed by no further number character lexes as a one-digit
      literal in front of what follows. */
  lemma LexDigit(text: string, i: nat, ts: seq<Token>)
    requires i < |text| && IsDigit(text[i]) && (i + 1 == |text| || text[i + 1] !in Digits)
    requires LexFrom(text, i + 1) == Ok(ts)
    ensures LexFrom(text, i) == Ok([Num([text[i]])] + ts)
  {
    assert text[i] !in Whitespace;
    assert NumberEnd(text, i + 1, 0) == i + 1;
    assert text[i..i + 1] == [text[i]];
    assert ScanStep(text, i) == Emit(Num([text[i]]), i + 1);
  }

  /** A symbol character lexes as the token SymbolStep gives it. */
  lemma LexSymbol(text: string, i: nat, t: Token, ts: seq<Token>)
    requires i < |text| && text[i] !in Whitespace && text[i] !in Digits
    requires SymbolStep(text[i], PrevIsOperator(text, i)) == Some(t)
    requires LexFrom(text, i + 1) == Ok(ts)
    ensures LexFrom(text, i) == Ok([t] + ts)
  {
  }

  /** An error further on is the error of the whole scan. */
  lemma LexSymbolThenError(text: string, i: nat, t: Token, e: Error)
    requires i < |text| && text[i] !in Whitespace && text[i] !in Digits
    requires SymbolStep(text[i], PrevIsOperator(text, i)) == Some(t)
    requires LexFrom(text, i + 1) == Err(e)
    ensures LexFrom(text, i) == Err(e)
  {
  }

  /** At the start of the input, or after a digit, the previous character is no
      operator key. */
  lemma NoOperatorBefore(text: string, i: nat)
    requires i <= |text| && (i == 0 || IsDigit(text[i - 1]))
    ensures !PrevIsOperator(text, i)
  {
  }

  lemma MinusFacts()
    ensures '-' !in Digits && '-' !in Whitespace && SymbolStep('-', false) == Some(Minus)
  {
    assert ['-'] == "-";
  }

  lemma PlusFacts()
    ensures '+' !in Digits && '+' !in Whitespace && SymbolStep('+', false) == Some(Plus)
  {
    assert ['+'] == "+";
  }

  lemma NotFacts()
    ensures '!' !in Digits && '!' !in Whitespace && SymbolStep('!', false) == Some(Not)
  {
    assert ['!'] == "!";
  }

  lemma HashFacts()
    ensures '#' !in Digits && '#' !in Whitespace && SymbolStep('#', true) == None
  {
  }

  lemma LexEnd(text: string)
    ensures LexFrom(text, |text|) == Ok([])
  {
  }

  /** A digit followed by a binary operator symbol lexes as a one-digit
      literal and that operator in front of what follows them. */
  lemma LexDigitOp(text: string, i: nat, op: Token, ts: seq<Token>)
    requires i + 2 < |text| && IsDigit(text[i])
    requires text[i + 1] !in Whitespace && text[i + 1] !in Digits
    requires SymbolStep(text[i + 1], false) == Some(op)
    requires LexFrom(text, i + 2) == Ok(ts)
    ensures LexFrom(text, i) == Ok([Num([text[i]])] + ([op] + ts))
  {
    NoOperatorBefore(text, i + 1);
    LexSymbol(text, i + 1, op, ts);
    LexDigit(text, i, [op] + ts);
  }

  lemma LexDigitMinus(text: string, i: nat, ts: seq<Token>)
    requires i + 2 < |text| && IsDigit(text[i]) && text[i + 1] == '-'
    requires LexFrom(text, i + 2) == Ok(ts)
    ensures LexFrom(text, i) == Ok([Num([text[i]])] + ([Minus] + ts))
  {
    MinusFacts();
    LexDigitOp(text, i, Minus, ts);
  }

  lemma LexRightAssocAt(text: string)
    requires |text| == 5 && IsDigit(text[0]) && text[1] == '-' && IsDigit(text[2])
    requires text[3] == '-' && IsDigit(text[4])
    ensures Lex(text) ==
      Ok([Num([text[0]])] + ([Minus] + ([Num([text[2]])] + ([Minus] + ([Num([text[4]])] + [])))))
  {
    LexEnd(text);
    LexDigit(text, 4, []);
    LexDigitMinus(text, 2, [Num([text[4]])] + []);
    LexDigitMinus(text, 0, [Num([text[2]])] + ([Minus] + ([Num([text[4]])] + [])));
  }

  /** `1-2-3` lexes into three numbers and two binary minus tokens. */
  lemma LexRightAssoc()
    ensures Lex("1-2-3") == Ok([Num("1"), Minus, Num("2"), Minus, Num("3")])
  {
    var text := "1-2-3";
    assert IsDigit(text[0]) && IsDigit(text[2]) && IsDigit(text[4]);
    assert [text[0]] == "1" && [text[2]] == "2" && [text[4]] == "3";
    LexRightAssocAt(text);
    ConsFive(Num("1"), Minus, Num("2"), Minus, Num("3"));
  }

  /** `1-2-3` parses as 1-(2-3): equal precedences associate to the right. */
  lemma FrontRightAssoc()
    ensures Front("1-2-3") == Ok(Some(
      Node(Minus, Some(Leaf(Num("1"))), Some(Node(Minus, Some(Leaf(Num("2"))), Some(Leaf(Num("3"))))))))
  {
    LexRightAssoc();
    PostfixNoPop(Num("1"), Minus, Num("2"), Minus, Num("3"));
    TreeRightNested(Num("1"), Num("2"), Num("3"), Minus, Minus);
  }

  const Times: Token := Token(OpMultiply, "*", 3, true, 2)

  lemma TimesFacts()
    ensures '*' !in Digits && '*' !in Whitespace && SymbolStep('*', false) == Some(Times)
  {
    assert ['*'] == "*";
  }

  lemma LexDigitPlus(text: string, i: nat, ts: seq<Token>)
    requires i + 2 < |text| && IsDigit(text[i]) && text[i + 1] == '+'
    requires LexFrom(text, i + 2) == Ok(ts)
    ensures LexFrom(text, i) == Ok([Num([text[i]])] + ([Plus] + ts))
  {
    PlusFacts();
    LexDigitOp(text, i, Plus, ts);
  }

  lemma LexDigitTimes(text: string, i: nat, ts: seq<Token>)
    requires i + 2 < |text| && IsDigit(text[i]) && text[i + 1] == '*'
    requires LexFrom(text, i + 2) == Ok(ts)
    ensures LexFrom(text, i) == Ok([Num([text[i]])] + ([Times] + ts))
  {
    TimesFacts();
    LexDigitOp(text, i, Times, ts);
  }

  lemma LexPrecedenceAt(text: string)
    requires |text| == 5 && IsDigit(text[0]) && text[1] == '*' && IsDigit(text[2])
    requires text[3] == '+' && IsDigit(text[4])
    ensures Lex(text) ==
      Ok([Num([text[0]])] + ([Times] + ([Num([text[2]])] + ([Plus] + ([Num([text[4]])] + [])))))
  {
    LexEnd(text);
    LexDigit(text, 4, []);
    LexDigitPlus(text, 2, [Num([text[4]])] + []);
    LexDigitTimes(text, 0, [Num([text[2]])] + ([Plus] + ([Num([text[4]])] + [])));
  }

  lemma LexPrecedence()
    ensures Lex("2*3+4") == Ok([Num("2"), Times, Num("3"), Plus, Num("4")])
  {
    var text := "2*3+4";
    assert IsDigit(text[0]) && IsDigit(text[2]) && IsDigit(text[4]);
    assert [text[0]] == "2" && [text[2]] == "3" && [text[4]] == "4";
    LexPrecedenceAt(text);
    ConsFive(Num("2"), Times, Num("3"), Plus, Num("4"));
  }

  /** `2*3+4` parses as (2*3)+4: the tighter `*` is popped when `+` arrives. */
  lemma FrontPrecedence()
    ensures Front("2*3+4") == Ok(Some(
      Node(Plus, Some(Node(Times, Some(Leaf(Num("2"))), Some(Leaf(Num("3"))))), Some(Leaf(Num("4"))))))
  {
    LexPrecedence();
    PostfixPop(Num("2"), Times, Num("3"), Plus, Num("4"));
    TreeLeftNested(Num("2"), Num("3"), Times, Num("4"), Plus);
  }

  /** A symbol followed by a digit at the start of the input lexes to the
      symbol's operator and then the number. */
  lemma LexPrefixOperator(text: string, op: Token)
    requires |text| == 2 && text[0] !in Whitespace && text[0] !in Digits && IsDigit(text[1])
    requires SymbolStep(text[0], false) == Some(op)
    ensures Lex(text) == Ok([op] + ([Num([text[1]])] + []))
  {
    NoOperatorBefore(text, 0);
    LexEnd(text);
    LexDigit(text, 1, []);
    LexSymbol(text, 0, op, [Num([text[1]])] + []);
  }

  /** `-3` at the start of the input is a binary minus, since there is no
      previous character, and it fails with "Invalid Syntax". */
  lemma FrontLeadingMinus()
    ensures Lex("-3") == Ok([Minus, Num("3")])
    ensures Front("-3") == Err(InvalidSyntax)
  {
    var text := "-3";
    MinusFacts();
    assert IsDigit(text[1]) && [text[1]] == "3";
    LexPrefixOperator(text, Minus);
    ConsTwo(Minus, Num("3"));
    PostfixPrefixOperator(Minus, Num("3"));
    NothingBelowOperand(Num("3"), Minus);
  }

  /** `!3` fails with "Invalid Syntax": the deque is empty right after the
      operand, whatever the operator's arity. */
  lemma FrontNot()
    ensures Lex("!3") == Ok([Not, Num("3")])
    ensures Front("!3") == Err(InvalidSyntax)
  {
    var text := "!3";
    NotFacts();
    assert IsDigit(text[1]) && [text[1]] == "3";
    LexPrefixOperator(text, Not);
    ConsTwo(Not, Num("3"));
    PostfixPrefixOperator(Not, Num("3"));
    NothingBelowOperand(Num("3"), Not);
  }

  /** `2+#3` stops at `#` with "Invalid character", and the `2` and `+`
      scanned before it are not returned. */
  lemma FrontInvalidCharacter()
    ensures Front("2+#3") == Err(InvalidCharacter('#'))
  {
    var text := "2+#3";
    PlusFacts();
    HashFacts();
    assert text[1] == '+' && text[2] == '#';
    assert PrevIsOperator(text, 2);
    assert ScanStep(text, 2) == Fail('#');
    assert LexFrom(text, 2) == Err(InvalidCharacter('#'));
    NoOperatorBefore(text, 1);
    LexSymbolThenError(text, 1, Plus, InvalidCharacter('#'));
    assert IsDigit(text[0]);
    assert ScanStep(text, 0) == Emit(Num("2"), 1) by {
      assert NumberEnd(text, 1, 0) == 1;
      assert text[0..1] == "2";
    }
  }

  /** `.d` at the end of the input scans as one literal, normalised to `0.d`. */
  lemma ScanDotDigit(text: string, i: nat)
    requires i + 2 == |text| && text[i] == '.' && IsDigit(text[i + 1])
    ensures ScanStep(text, i) == Emit(Num(['0', '.', text[i + 1]]), i + 2)
  {
    assert NumberEnd(text, i + 2, 1) == i + 2;
    assert NumberEnd(text, i + 1, 1) == i + 2;
    assert NumberEnd(text, i, 0) == i + 2;
    assert text[i..i + 2] == ['.', text[i + 1]];
    assert Normalise(['.', text[i + 1]]) == ['0', '.', text[i + 1]];
  }

  /** `d.` followed by a second `.` scans as the literal `d.`, normalised to
      `d.0`, and leaves the second `.` unconsumed. */
  lemma ScanDigitDotDot(text: string, i: nat)
    requires i + 2 < |text| && IsDigit(text[i]) && text[i + 1] == '.' && text[i + 2] == '.'
    ensures ScanStep(text, i) == Emit(Num([text[i], '.', '0']), i + 2)
  {
    assert NumberEnd(text, i + 2, 1) == i + 2;
    assert NumberEnd(text, i + 1, 0) == i + 2;
    assert NumberEnd(text, i, 0) == i + 2;
    assert text[i..i + 2] == [text[i], '.'];
    assert Normalise([text[i], '.']) == [text[i], '.', '0'];
  }

  lemma LexDoubleDotAt(text: string)
    requires |text| == 4 && IsDigit(text[0]) && text[1] == '.' && text[2] == '.' && IsDigit(text[3])
    ensures Lex(text) == Ok([Num([text[0], '.', '0'])] + ([Num(['0', '.', text[3]])] + []))
  {
    ScanDotDigit(text, 2);
    LexEnd(text);
    assert LexFrom(text, 2) == Ok([Num(['0', '.', text[3]])] + []);
    ScanDigitDotDot(text, 0);
  }

  /** `1..2` lexes into the literals `1.0` and `0.2`. */
  lemma LexDoubleDot()
    ensures Lex("1..2") == Ok([Num("1.0"), Num("0.2")])
  {
    var text := "1..2";
    assert IsDigit(text[0]) && IsDigit(text[3]);
    assert [text[0], '.', '0'] == "1.0" && ['0', '.', text[3]] == "0.2";
    LexDoubleDotAt(text);
    ConsTwo(Num("1.0"), Num("0.2"));
  }

  /** Every line of whitespace only, the empty line included, gives no tree and
      no error. */
  lemma FrontBlank(ws: string)
    requires AllIn(ws, Whitespace)
    ensures Front(ws) == Ok(None)
  {
    WhitespaceOnly(ws);
  }
}
