/** The lexer of lexer.py: a cursor over the input characters with one character
    of lookback, a static operator table, and a scan loop that yields tokens or
    stops at the first character it does not know.

    The pure part (table lookups and the specification functions LexFrom and
    NumberEnd) comes first; the class Lexer is the cursor object itself, whose
    methods are proved to compute what the specification functions say. */
module Lexing {
  import opened Results
  import opened Tokens
  import opened Sequences

  const Whitespace: string := " \n\t"
  const Digits: string := ".0123456789"
  /** Operators that are unary or binary depending on the previous character. */
  const ScOperators: string := "-+"
  /** The one-character keys of the operator table. */
  const OperatorChars: string := "*/%+-&|!"

  /** (type, precedence, number of operands) of one operator table entry. */
  datatype OpEntry = OpEntry(kind: TokenKind, preced: int, operands: nat)

  /** A smaller precedence binds tighter; unary operators are keyed by a `u` prefix. */
  const OpSymbolTable: map<string, OpEntry> := map[
    "*" := OpEntry(OpMultiply, 3, 2),
    "/" := OpEntry(OpDivide, 3, 2),
    "%" := OpEntry(OpModulus, 3, 2),
    "+" := OpEntry(OpAdd, 4, 2),
    "-" := OpEntry(OpMinus, 4, 2),
    "&" := OpEntry(OpAnd, 8, 2),
    "|" := OpEntry(OpOr, 9, 2),
    "u+" := OpEntry(OpUnAdd, 3, 1),
    "u-" := OpEntry(OpUnMinus, 3, 1),
    "!" := OpEntry(OpNot, 2, 1)
  ]

  /** The operator token of a table key, or None when the key is not in the table. */
  function SymbolToToken(key: string): (r: Option<Token>)
    ensures r.None? <==> key !in OpSymbolTable
    ensures r.Some? ==>
      var e := OpSymbolTable[key];
      r.value.kind == e.kind && r.value.value == key && r.value.isOperator &&
      r.value.preced == e.preced && r.value.operands == e.operands
  {
    if key in OpSymbolTable then
      var e := OpSymbolTable[key];
      Some(Token(e.kind, key, e.preced, true, e.operands))
    else
      None
  }

  /** Whether a character (or the absent character before the input) is an
      operator key of the table. */
  function IsOperator(key: Option<char>): (r: bool)
    ensures r <==> key.Some? && key.value in OperatorChars
  {
    match key
    case None => false
    case Some(c) => SymbolToToken([c]).Some?
  }

  function CharAt(text: string, i: nat): Option<char>
  {
    if i < |text| then Some(text[i]) else None
  }

  /** The character before position i; None at the start of the input. */
  function PrevAt(text: string, i: nat): Option<char>
  {
    if 0 < i <= |text| then Some(text[i - 1]) else None
  }

  /** Whether the character before position i is an operator key (false at the
      start of the input). */
  predicate PrevIsOperator(text: string, i: nat)
  {
    IsOperator(PrevAt(text, i))
  }

  function CountDots(s: string): nat
  {
    if s == [] then 0 else (if s[0] == '.' then 1 else 0) + CountDots(s[1..])
  }

  /** Where the number scan that starts at i stops, having already seen `dots`
      decimal points: it stops at the end of the input, at a character that is
      not in Digits, or at a second decimal point, which it does not consume. */
  function NumberEnd(text: string, i: nat, dots: nat): (j: nat)
    requires i <= |text|
    ensures i <= j <= |text|
    ensures i < |text| && text[i] in Digits && (text[i] != '.' || dots == 0) ==> i < j
    decreases |text| - i
  {
    if i < |text| && text[i] in Digits then
      if text[i] == '.' && dots + 1 > 1 then i
      else NumberEnd(text, i + 1, if text[i] == '.' then dots + 1 else dots)
    else
      i
  }

  /** The scan stops before a second decimal point. */
  lemma NumberEndStops(text: string, i: nat, dots: nat)
    requires i < |text| && text[i] == '.' && dots >= 1
    ensures NumberEnd(text, i, dots) == i
  {
  }

  /** The scan takes a Digits character that is not a second decimal point. */
  lemma NumberEndTakes(text: string, i: nat, dots: nat, next: nat)
    requires i < |text| && text[i] in Digits && (text[i] != '.' || dots == 0)
    requires next == if text[i] == '.' then dots + 1 else dots
    ensures NumberEnd(text, i, dots) == NumberEnd(text, i + 1, next)
  {
  }

  /** A literal starting with `.` gets a leading 0, otherwise one ending with `.`
      gets a trailing 0. */
  function Normalise(s: string): (r: string)
    ensures r == s || r == "0" + s || r == s + "0"
  {
    if |s| > 0 && s[0] == '.' then "0" + s
    else if |s| > 0 && s[|s| - 1] == '.' then s + "0"
    else s
  }

  function NumberToken(literal: string): Token
  {
    Token(Number, Normalise(literal), 0, false, 0)
  }

  const LParenToken: Token := Token(LParen, "(", MaxPreced, false, 0)
  const RParenToken: Token := Token(RParen, ")", 0, false, 0)

  /** The unary token of `+` or `-`, looked up under the key "u+" or "u-". */
  function UnaryToken(c: char): (t: Token)
    requires c in ScOperators
    ensures t.operands == 1 && t.isOperator
  {
    assert ['u', c] == "u-" || ['u', c] == "u+";
    SymbolToToken(['u', c]).value
  }

  function Prepend(t: Token, r: Result<seq<Token>>): Result<seq<Token>>
  {
    match r
    case Ok(ts) => Ok([t] + ts)
    case Err(e) => Err(e)
  }

  function PrependAll(acc: seq<Token>, r: Result<seq<Token>>): Result<seq<Token>>
  {
    match r
    case Ok(ts) => Ok(acc + ts)
    case Err(e) => Err(e)
  }

  /** The token of a character that is neither whitespace nor part of a number,
      given whether the previous character is an operator key: a unary sign,
      a table operator, a parenthesis, or None for an invalid character. */
  function SymbolStep(c: char, prevIsOperator: bool): Option<Token>
  {
    if c in ScOperators && prevIsOperator then Some(UnaryToken(c))
    else if IsOperator(Some(c)) then SymbolToToken([c])
    else if c == '(' then Some(LParenToken)
    else if c == ')' then Some(RParenToken)
    else None
  }

  /** What one iteration of the scan loop does at position i. */
  datatype Step = Skip(next: nat) | Emit(tok: Token, next: nat) | Fail(c: char)

  /** One iteration of the scan loop at position i: skip whitespace, scan a
      number, or emit an operator or parenthesis token; every step that does not
      fail consumes at least one character. */
  function ScanStep(text: string, i: nat): (r: Step)
    requires i < |text|
    ensures !r.Fail? ==> i < r.next <= |text|
  {
    var c := text[i];
    if c in Whitespace then Skip(i + 1)
    else if c in Digits then
      var j := NumberEnd(text, i, 0);
      Emit(NumberToken(text[i..j]), j)
    else
      match SymbolStep(c, PrevIsOperator(text, i))
      case Some(t) => Emit(t, i + 1)
      case None => Fail(c)
  }

  /** The tokens the scan loop produces from position i onwards, or the error it
      raises. Tokens produced before an invalid character are not returned:
      collecting the generator into a list propagates the exception. */
  function LexFrom(text: string, i: nat): Result<seq<Token>>
    requires i <= |text|
    decreases |text| - i
  {
    if i == |text| then Ok([])
    else
      match ScanStep(text, i)
      case Skip(j) => LexFrom(text, j)
      case Emit(t, j) => Prepend(t, LexFrom(text, j))
      case Fail(c) => Err(InvalidCharacter(c))
  }

  /** All tokens of a whole input line. */
  function Lex(text: string): Result<seq<Token>>
  {
    LexFrom(text, 0)
  }

  /** The loop invariant of GenerateTokens survives emitting the token of one step. */
  lemma EmitStep(text: string, i: nat, t: Token, j: nat, acc: seq<Token>)
    requires i < |text| && ScanStep(text, i) == Emit(t, j)
    ensures PrependAll(acc, LexFrom(text, i)) == PrependAll(acc + [t], LexFrom(text, j))
  {
    match LexFrom(text, j)
    case Ok(ts) => assert acc + ([t] + ts) == (acc + [t]) + ts;
    case Err(e) =>
  }

  /** The lexer object: `rest` is what the character iterator has not yet
      delivered, `currentChar` the character under the cursor and
      `previousChar` the one delivered before it. */
  class Lexer {
    const input: string
    var rest: string
    var previousChar: Option<char>
    var currentChar: Option<char>

    /** The index of the cursor in the input (|input| once it is exhausted). */
    ghost var pos: int

    ghost predicate Valid()
      reads this
    {
      0 <= pos <= |input| && currentChar == CharAt(input, pos) &&
      (pos < |input| ==> previousChar == PrevAt(input, pos) && rest == input[pos + 1..]) &&
      (pos == |input| ==> rest == [])
    }

    constructor (text: string)
      ensures Valid() && input == text && pos == 0
    {
      input := text;
      rest := text;
      previousChar := None;
      currentChar := None;
      pos := -1;
      new;
      Advance();
    }

    /** Remember the current character and take the next one from the iterator. */
    method Advance()
      modifies this
      ensures previousChar == old(currentChar)
      ensures old(rest) == [] ==> currentChar == None && rest == []
      ensures old(rest) != [] ==> currentChar == Some(old(rest)[0]) && rest == old(rest)[1..]
      ensures pos == if old(rest) == [] then |input| else |input| - |old(rest)|
      ensures old(Valid()) ==> Valid() && pos == if old(pos) < |input| then old(pos) + 1 else |input|
      ensures old(Valid()) && old(pos) < |input| ==> previousChar == PrevAt(input, pos)
    {
      previousChar := currentChar;
      if rest == [] {
        currentChar := None;
        pos := |input|;
      } else {
        currentChar := Some(rest[0]);
        pos := |input| - |rest|;
        rest := rest[1..];
      }
    }

    /** The digit loop of generate_number: collect Digits characters from the
        cursor, counting decimal points and stopping before a second one. */
    method ScanDigits() returns (numberStr: string)
      requires Valid()
      modifies this
      ensures Valid()
      ensures pos == NumberEnd(input, old(pos), 0)
      ensures numberStr == input[old(pos)..pos]
      ensures old(pos) < pos ==> previousChar == PrevAt(input, pos)
    {
      var start := pos;
      ghost var stop := NumberEnd(input, start, 0);
      numberStr := "";
      var dots: nat := 0;
      while currentChar.Some? && currentChar.value in Digits
        invariant Valid()
        invariant start <= pos <= |input|
        invariant numberStr == input[start..pos]
        invariant dots <= 1
        invariant NumberEnd(input, pos, dots) == stop
        invariant start < pos ==> previousChar == PrevAt(input, pos)
        decreases |input| - pos
      {
        var c := currentChar.value;
        ghost var here := pos;
        ghost var seen := dots;
        if c == '.' {
          dots := dots + 1;
          if dots > 1 {
            NumberEndStops(input, here, seen);
            break;
          }
        }
        NumberEndTakes(input, here, seen, dots);
        numberStr := TakeCurrent(start, numberStr);
        assert pos == here + 1;
        assert NumberEnd(input, pos, dots) == stop;
      }
    }

    /** Append the current character to the literal collected since `start`
        and advance. */
    method TakeCurrent(ghost start: nat, numberStr: string) returns (r: string)
      requires Valid() && start <= pos < |input| && numberStr == input[start..pos]
      modifies this
      ensures Valid() && pos == old(pos) + 1
      ensures r == numberStr + [input[old(pos)]] && r == input[start..pos]
      ensures previousChar == PrevAt(input, pos)
    {
      SliceOneMore(input, start, pos);
      r := numberStr + [currentChar.value];
      Advance();
    }

    /** Scan one number literal from the cursor and normalise it. */
    method GenerateNumber() returns (tok: Token)
      requires Valid()
      modifies this
      ensures Valid()
      ensures pos == NumberEnd(input, old(pos), 0)
      ensures tok == NumberToken(input[old(pos)..pos])
      ensures old(pos) < pos ==> previousChar == PrevAt(input, pos)
    {
      var numberStr := ScanDigits();
      if |numberStr| > 0 && numberStr[0] == '.' {
        numberStr := "0" + numberStr;
      } else if |numberStr| > 0 && numberStr[|numberStr| - 1] == '.' {
        numberStr := numberStr + "0";
      }
      tok := Token(Number, numberStr, 0, false, 0);
    }

    /** The cursor index recovered from what the iterator still holds. */
    function Position(): (n: nat)
      requires Valid()
      reads this
      ensures n == pos
    {
      if currentChar.None? then |input| else |input| - |rest| - 1
    }

    /** One iteration of the scan loop: skip a whitespace character, scan a
        number, or build the operator or parenthesis token under the cursor and
        advance past it; an invalid character is reported without moving. */
    method ScanOne() returns (s: Step)
      requires Valid() && pos < |input|
      modifies this
      ensures s == ScanStep(input, old(pos))
      ensures Valid()
      ensures !s.Fail? ==> pos == s.next && previousChar == PrevAt(input, pos)
    {
      var c := currentChar.value;
      ghost var here := pos;
      assert input[here] == c && PrevIsOperator(input, here) == IsOperator(previousChar);
      if c in Whitespace {
        Advance();
        s := Skip(Position());
      } else if c in Digits {
        var t := GenerateNumber();
        s := Emit(t, Position());
      } else {
        var t: Token;
        if c in ScOperators && IsOperator(previousChar) {
          t := UnaryToken(c);
        } else if IsOperator(Some(c)) {
          t := SymbolToToken([c]).value;
        } else if c == '(' {
          t := LParenToken;
        } else if c == ')' {
          t := RParenToken;
        } else {
          assert SymbolStep(c, IsOperator(previousChar)) == None;
          return Fail(c);
        }
        assert SymbolStep(c, IsOperator(previousChar)) == Some(t);
        Advance();
        s := Emit(t, Position());
      }
    }

    /** Run the scan loop to the end of the input or to the first invalid character. */
    method GenerateTokens() returns (r: Result<seq<Token>>)
      requires Valid()
      modifies this
      ensures Valid()
      ensures r == LexFrom(input, old(pos))
      ensures r.Ok? ==> pos == |input| && (old(pos) < |input| ==> previousChar == PrevAt(input, pos))
    {
      ghost var start := pos;
      var acc: seq<Token> := [];
      match LexFrom(input, start) {
        case Ok(ts) => assert [] + ts == ts;
        case Err(_) =>
      }
      while currentChar.Some?
        invariant Valid()
        invariant LexFrom(input, start) == PrependAll(acc, LexFrom(input, pos))
        invariant start < pos ==> previousChar == PrevAt(input, pos)
        decreases |input| - pos
      {
        ghost var here := pos;
        var s := ScanOne();
        match s {
          case Skip(_) =>
          case Emit(t, _) =>
            EmitStep(input, here, t, pos, acc);
            acc := acc + [t];
          case Fail(c) =>
            return Err(InvalidCharacter(c));
        }
      }
      assert acc + [] == acc;
      r := Ok(acc);
    }
  }

  /** A fresh lexer over `text`, its generator collected into a list. */
  method Tokenize(text: string) returns (r: Result<seq<Token>>)
    ensures r == Lex(text)
  {
    var lexer := new Lexer(text);
    r := lexer.GenerateTokens();
  }
}
