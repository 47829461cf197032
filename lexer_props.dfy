/** Properties of the lexer specification: number scanning, literal
    normalisation, the unary/binary decision, whitespace, error reporting and
    the shape of every token the lexer produces. */
module LexingProps {
  import opened Results
  import opened Tokens
  import opened Lexing

  /** A decimal digit: a Digits character other than the decimal point. */
  predicate IsDigit(c: char) { c in Digits && c != '.' }

  predicate AllIn(s: string, chars: string)
  {
    forall k :: 0 <= k < |s| ==> s[k] in chars
  }

  /** The characters the scan loop accepts. */
  predicate ValidChar(c: char)
  {
    c in Whitespace || c in Digits || c in OperatorChars || c == '(' || c == ')'
  }

  /** A normalised number literal: digits with at most one decimal point,
      starting with a digit and ending with one, or the literal "0." that the
      lone input "." becomes. */
  predicate LiteralForm(v: string)
  {
    v != [] && AllIn(v, Digits) && CountDots(v) <= 1 && IsDigit(v[0]) &&
    (IsDigit(v[|v| - 1]) || v == "0.")
  }

  /** The shape of every token the lexer can produce. */
  predicate LexedToken(t: Token)
  {
    match t.kind
    case Number => !t.isOperator && t.preced == 0 && t.operands == 0 && LiteralForm(t.value)
    case LParen => t == LParenToken
    case RParen => t == RParenToken
    case _ =>
      t.isOperator && 2 <= t.preced <= 9 && 1 <= t.operands <= 2 &&
      SymbolToToken(t.value) == Some(t)
  }

  lemma OperatorTableRanges()
    ensures forall key :: key in OpSymbolTable ==>
      var e := OpSymbolTable[key];
      2 <= e.preced <= 9 && e.preced < MaxPreced && 1 <= e.operands <= 2 &&
      e.kind != Number && e.kind != LParen && e.kind != RParen &&
      (e.operands == 1 <==> key == "u+" || key == "u-" || key == "!")
  {
  }

  lemma {:induction false} CountDotsAppend(a: string, b: string)
    ensures CountDots(a + b) == CountDots(a) + CountDots(b)
  {
    if a == [] {
      assert a + b == b;
    } else {
      assert (a + b)[0] == a[0] && (a + b)[1..] == a[1..] + b;
      CountDotsAppend(a[1..], b);
    }
  }

  /** One step of the scan: the slice i..j is its first character followed by i+1..j. */
  lemma SliceDots(text: string, i: nat, j: nat)
    requires i < j <= |text|
    ensures CountDots(text[i..j]) == (if text[i] == '.' then 1 else 0) + CountDots(text[i + 1..j])
  {
    assert text[i..j][0] == text[i] && text[i..j][1..] == text[i + 1..j];
  }

  lemma {:induction false} NumberEndFacts(text: string, i: nat, dots: nat)
    requires i <= |text| && dots <= 1
    ensures var j := NumberEnd(text, i, dots);
      (forall k :: i <= k < j ==> text[k] in Digits) &&
      dots + CountDots(text[i..j]) <= 1 &&
      (j == |text| || text[j] !in Digits || (text[j] == '.' && dots + CountDots(text[i..j]) == 1))
    decreases |text| - i
  {
    var j := NumberEnd(text, i, dots);
    if i < |text| && text[i] in Digits && !(text[i] == '.' && dots + 1 > 1) {
      var d := if text[i] == '.' then dots + 1 else dots;
      assert j == NumberEnd(text, i + 1, d);
      NumberEndFacts(text, i + 1, d);
      SliceDots(text, i, j);
    } else {
      assert j == i && text[i..j] == [];
    }
  }

  /** One call of the number scan consumes the longest run of Digits characters,
      starting at i, that holds at most one decimal point: it stops at the end of
      the input, at a non-digit, or at a second `.`, which it leaves unconsumed. */
  lemma NumberScan(text: string, i: nat)
    requires i < |text| && text[i] in Digits
    ensures var j := NumberEnd(text, i, 0);
      i < j <= |text| &&
      (forall k :: i <= k < j ==> text[k] in Digits) &&
      CountDots(text[i..j]) <= 1 &&
      (j == |text| || text[j] !in Digits || (text[j] == '.' && CountDots(text[i..j]) == 1))
  {
    NumberEndFacts(text, i, 0);
  }

  lemma TwoDots(s: string)
    requires |s| >= 2 && s[0] == '.' && s[|s| - 1] == '.'
    ensures CountDots(s) >= 2
  {
    var mid := s[1..|s| - 1];
    assert s == [s[0]] + mid + [s[|s| - 1]];
    CountDotsAppend([s[0]] + mid, [s[|s| - 1]]);
    CountDotsAppend([s[0]], mid);
  }

  lemma AllInAppend(a: string, b: string, chars: string)
    requires AllIn(a, chars) && AllIn(b, chars)
    ensures AllIn(a + b, chars)
  {
    forall k | 0 <= k < |a + b|
      ensures (a + b)[k] in chars
    {
      if k < |a| {
        assert (a + b)[k] == a[k];
      } else {
        assert (a + b)[k] == b[k - |a|];
      }
    }
  }

  /** A literal longer than one character that starts with `.` and has at most
      one of them ends with a digit. */
  lemma LeadingDotLast(s: string)
    requires |s| > 1 && AllIn(s, Digits) && CountDots(s) <= 1 && s[0] == '.'
    ensures IsDigit(s[|s| - 1])
  {
    if s[|s| - 1] == '.' {
      TwoDots(s);
    }
  }

  lemma NormaliseTrailingDot(s: string)
    requires s != [] && AllIn(s, Digits) && s[0] != '.' && s[|s| - 1] == '.'
    ensures Normalise(s) == s + "0"
    ensures CountDots(s + "0") == CountDots(s) && AllIn(s + "0", Digits)
  {
    CountDotsAppend(s, "0");
    AllInAppend(s, "0", Digits);
  }

  /** A literal of Digits characters with at most one `.` normalises to one that
      starts with a digit and, unless it was the lone `.`, ends with one; the
      number of decimal points is unchanged. */
  lemma NormaliseLiteral(s: string)
    requires s != [] && AllIn(s, Digits) && CountDots(s) <= 1
    ensures LiteralForm(Normalise(s))
    ensures s != "." ==> IsDigit(Normalise(s)[|Normalise(s)| - 1])
    ensures CountDots(Normalise(s)) == CountDots(s)
  {
    assert s[0] in Digits && s[|s| - 1] in Digits;
    if s[0] == '.' {
      CountDotsAppend("0", s);
      AllInAppend("0", s, Digits);
      if |s| == 1 {
        assert s == ".";
      } else {
        LeadingDotLast(s);
      }
    } else if s[|s| - 1] == '.' {
      NormaliseTrailingDot(s);
    }
  }

  lemma ScanStepValid(text: string, i: nat)
    requires i < |text|
    ensures var r := ScanStep(text, i);
      (r.Fail? <==> !ValidChar(text[i])) &&
      (r.Fail? ==> r.c == text[i]) &&
      (!r.Fail? ==> forall k :: i <= k < r.next ==> ValidChar(text[k]))
  {
    if text[i] in Digits && text[i] !in Whitespace {
      NumberScan(text, i);
    }
  }

  lemma ScanStepLexed(text: string, i: nat)
    requires i < |text|
    ensures ScanStep(text, i).Emit? ==> LexedToken(ScanStep(text, i).tok)
  {
    OperatorTableRanges();
    var c := text[i];
    if c in Digits && c !in Whitespace {
      var j := NumberEnd(text, i, 0);
      NumberScan(text, i);
      NormaliseLiteral(text[i..j]);
    }
  }

  lemma {:induction false} LexLength(text: string, i: nat)
    requires i <= |text|
    ensures LexFrom(text, i).Ok? ==> |LexFrom(text, i).value| <= |text| - i
    decreases |text| - i
  {
    if i < |text| && !ScanStep(text, i).Fail? {
      LexLength(text, ScanStep(text, i).next);
    }
  }

  /** Every loop step consumes at least one character, so a whole line yields at
      most as many tokens as it has characters. */
  lemma TokenCountBound(text: string)
    ensures Lex(text).Ok? ==> |Lex(text).value| <= |text|
  {
    LexLength(text, 0);
  }

  lemma {:induction false} LexFromLexed(text: string, i: nat)
    requires i <= |text|
    ensures LexFrom(text, i).Ok? ==> forall t :: t in LexFrom(text, i).value ==> LexedToken(t)
    decreases |text| - i
  {
    if i < |text| && !ScanStep(text, i).Fail? {
      ScanStepLexed(text, i);
      LexFromLexed(text, ScanStep(text, i).next);
    }
  }

  /** Every token of a lexed line is a number with a normalised literal, a table
      operator with its table precedence (2 to 9) and arity (1 or 2), `(` with
      precedence 15 or `)` with precedence 0. */
  lemma LexedTokens(text: string)
    ensures Lex(text).Ok? ==> forall t :: t in Lex(text).value ==> LexedToken(t)
  {
    LexFromLexed(text, 0);
  }

  lemma SignTokens(c: char)
    requires c in ScOperators
    ensures UnaryToken(c) == Token(if c == '-' then OpUnMinus else OpUnAdd, ['u', c], 3, true, 1)
    ensures IsOperator(Some(c))
    ensures SymbolToToken([c]) == Some(Token(if c == '-' then OpMinus else OpAdd, [c], 4, true, 2))
  {
    if c == '-' {
      assert ['u', c] == "u-" && [c] == "-";
    } else {
      assert ['u', c] == "u+" && [c] == "+";
    }
  }

  /** `+` and `-` become the unary tokens u+/u- (arity 1, precedence 3) exactly
      when the previous input character is an operator key of the table;
      at the start of the input, after `(`, a digit or whitespace they are
      binary (arity 2, precedence 4). */
  lemma SignDecision(text: string, i: nat)
    requires i < |text| && text[i] in ScOperators
    ensures LexFrom(text, i).Ok? ==> LexFrom(text, i).value != []
    ensures LexFrom(text, i).Ok? ==>
      var t := LexFrom(text, i).value[0];
      var unary := i > 0 && text[i - 1] in OperatorChars;
      t.isOperator &&
      (unary ==> t.operands == 1 && t.preced == 3 && t.value == ['u', text[i]] &&
                 t.kind == (if text[i] == '-' then OpUnMinus else OpUnAdd)) &&
      (!unary ==> t.operands == 2 && t.preced == 4 && t.value == [text[i]] &&
                  t.kind == (if text[i] == '-' then OpMinus else OpAdd))
  {
    var c := text[i];
    SignTokens(c);
    assert c !in Whitespace && c !in Digits;
    var b := PrevIsOperator(text, i);
    assert b <==> i > 0 && text[i - 1] in OperatorChars;
    assert SymbolStep(c, b) == if b then Some(UnaryToken(c)) else SymbolToToken([c]);
    assert ScanStep(text, i) == Emit(SymbolStep(c, b).value, i + 1);
  }

  lemma {:induction false} LexAllValid(text: string, i: nat)
    requires i <= |text|
    requires forall k :: i <= k < |text| ==> ValidChar(text[k])
    ensures LexFrom(text, i).Ok?
    decreases |text| - i
  {
    if i < |text| {
      ScanStepValid(text, i);
      LexAllValid(text, ScanStep(text, i).next);
    }
  }

  lemma {:induction false} LexOkValid(text: string, i: nat)
    requires i <= |text|
    ensures LexFrom(text, i).Ok? ==> forall k :: i <= k < |text| ==> ValidChar(text[k])
    decreases |text| - i
  {
    if i < |text| {
      ScanStepValid(text, i);
      if !ScanStep(text, i).Fail? {
        LexOkValid(text, ScanStep(text, i).next);
      }
    }
  }

  /** The error of a scan names the first invalid character after the start. */
  lemma {:induction false} LexFirstInvalid(text: string, i: nat, k: nat)
    requires i <= k < |text| && !ValidChar(text[k])
    requires forall m :: i <= m < k ==> ValidChar(text[m])
    ensures LexFrom(text, i) == Err(InvalidCharacter(text[k]))
    decreases |text| - i
  {
    ScanStepValid(text, i);
    if i < k {
      LexFirstInvalid(text, ScanStep(text, i).next, k);
    }
  }

  lemma {:induction false} LexErrorFirst(text: string, i: nat) returns (k: nat)
    requires i <= |text| && LexFrom(text, i).Err?
    ensures i <= k < |text| && !ValidChar(text[k])
    ensures forall m :: i <= m < k ==> ValidChar(text[m])
    ensures LexFrom(text, i) == Err(InvalidCharacter(text[k]))
    decreases |text| - i
  {
    ScanStepValid(text, i);
    if ScanStep(text, i).Fail? {
      k := i;
    } else {
      k := LexErrorFirst(text, ScanStep(text, i).next);
    }
  }

  /** A line lexes without error exactly when every character is whitespace, a
      digit or `.`, an operator key or a parenthesis; otherwise the error names
      the first character that is none of these, and no tokens are returned. */
  lemma LexErrors(text: string)
    ensures Lex(text).Ok? <==> forall k :: 0 <= k < |text| ==> ValidChar(text[k])
    ensures Lex(text).Err? ==>
      exists k :: 0 <= k < |text| && !ValidChar(text[k]) &&
        (forall m :: 0 <= m < k ==> ValidChar(text[m])) &&
        Lex(text) == Err(InvalidCharacter(text[k]))
  {
    LexOkValid(text, 0);
    if Lex(text).Err? {
      var k := LexErrorFirst(text, 0);
    } else {
      LexAllValid(text, 0);
    }
  }

  lemma {:induction false} SkipWhitespace(s: string, i: nat, j: nat)
    requires i <= j <= |s|
    requires forall k :: i <= k < j ==> s[k] in Whitespace
    ensures LexFrom(s, i) == LexFrom(s, j)
    decreases j - i
  {
    if i < j {
      SkipWhitespace(s, i + 1, j);
    }
  }

  /** A line of only spaces, tabs and newlines yields no tokens. */
  lemma WhitespaceOnly(ws: string)
    requires AllIn(ws, Whitespace)
    ensures Lex(ws) == Ok([])
  {
    SkipWhitespace(ws, 0, |ws|);
  }

  lemma {:induction false} NumberEndAppend(t: string, ws: string, i: nat, dots: nat)
    requires i <= |t| && AllIn(ws, Whitespace)
    ensures NumberEnd(t + ws, i, dots) == NumberEnd(t, i, dots)
    decreases |t| - i
  {
    if i < |t| {
      assert (t + ws)[i] == t[i];
      if t[i] in Digits && !(t[i] == '.' && dots + 1 > 1) {
        NumberEndAppend(t, ws, i + 1, if t[i] == '.' then dots + 1 else dots);
      }
    } else if ws != [] {
      assert (t + ws)[i] == ws[0];
    }
  }

  lemma ScanStepAppend(t: string, ws: string, i: nat)
    requires i < |t| && AllIn(ws, Whitespace)
    ensures ScanStep(t + ws, i) == ScanStep(t, i)
  {
    var s := t + ws;
    assert s[i] == t[i];
    assert PrevAt(s, i) == PrevAt(t, i);
    var j := NumberEnd(t, i, 0);
    NumberEndAppend(t, ws, i, 0);
    assert s[i..j] == t[i..j];
  }

  lemma {:induction false} LexFromAppend(t: string, ws: string, i: nat)
    requires i <= |t| && AllIn(ws, Whitespace)
    ensures LexFrom(t + ws, i) == LexFrom(t, i)
    decreases |t| - i
  {
    var s := t + ws;
    if i == |t| {
      SkipWhitespace(s, i, |s|);
    } else {
      ScanStepAppend(t, ws, i);
      if !ScanStep(t, i).Fail? {
        LexFromAppend(t, ws, ScanStep(t, i).next);
      }
    }
  }

  /** Trailing whitespace never changes the tokens. */
  lemma TrailingWhitespace(t: string, ws: string)
    requires AllIn(ws, Whitespace)
    ensures Lex(t + ws) == Lex(t)
  {
    LexFromAppend(t, ws, 0);
  }
}
