/** Worked conversions over symbolic tokens: how precedence decides the
    postfix order of two operators, which tree each order builds, why an
    operator in front of its only operand is refused, and what becomes of
    unmatched parentheses. */
module ParsingExamples {
  import opened Results
  import opened Tokens
  import opened Sequences
  import opened Parsing
  import opened ParsingProps

  function Leaf(t: Token): Tree { Node(t, None, None) }

  lemma RunStep(s: PState, ts: seq<Token>, i: nat)
    requires i < |ts|
    ensures RunFrom(s, ts, i) == RunFrom(Step(s, ts[i]), ts, i + 1)
  {
  }

  /** A number goes straight to the output. */
  lemma PushNumber(s: PState, t: Token)
    requires IsNumber(t)
    ensures Step(s, t) == PState(s.opStack, s.postFix + [t])
  {
  }

  /** An operator meeting a stack whose top does not pop for it is pushed. */
  lemma PushWithoutPop(s: PState, t: Token)
    requires IsOp(t) && !PopsFor(s.opStack, t.preced)
    ensures Step(s, t) == PState(s.opStack + [t], s.postFix)
  {
  }

  /** An operator meeting a single stack entry that pops for it. */
  lemma PushAfterPop(s: PState, top: Token, t: Token)
    requires IsOp(t) && IsOp(top) && s.opStack == [top] && top.preced != 0 && top.preced < t.preced
    ensures Step(s, t) == PState([t], s.postFix + [top])
  {
    assert PopsFor(s.opStack, t.preced) && DropLast(s.opStack) == [] && Last(s.opStack) == top;
    assert !PopsFor([], t.preced);
  }

  /** The conversion loop over the five tokens a o1 b o2 c, given the state
      each step leaves. */
  lemma RunFive(ts: seq<Token>, s1: PState, s2: PState, s3: PState, s4: PState, s5: PState)
    requires |ts| == 5
    requires Step(PState([], []), ts[0]) == s1 && Step(s1, ts[1]) == s2
    requires Step(s2, ts[2]) == s3 && Step(s3, ts[3]) == s4
    requires Step(s4, ts[4]) == s5
    ensures RunFrom(PState([], []), ts, 0) == s5
  {
    assert RunFrom(s5, ts, 5) == s5;
    RunStep(s4, ts, 4);
    RunStep(s3, ts, 3);
    RunStep(s2, ts, 2);
    RunStep(s1, ts, 1);
    RunStep(PState([], []), ts, 0);
  }

  /** The first three steps over a o1 b, whatever comes after. */
  lemma FirstThree(a: Token, o1: Token, b: Token)
    requires IsNumber(a) && IsNumber(b) && IsOp(o1)
    ensures Step(PState([], []), a) == PState([], [a])
    ensures Step(PState([], [a]), o1) == PState([o1], [a])
    ensures Step(PState([o1], [a]), b) == PState([o1], [a, b])
  {
    PushNumber(PState([], []), a);
    assert [] + [a] == [a];
    PushWithoutPop(PState([], [a]), o1);
    assert [] + [o1] == [o1];
    PushNumber(PState([o1], [a]), b);
    assert [a] + [b] == [a, b];
  }

  lemma LastTwoNoPop(a: Token, o1: Token, b: Token, o2: Token, c: Token)
    requires IsNumber(c) && IsOp(o2)
    requires o1.preced == 0 || o1.preced >= o2.preced
    ensures Step(PState([o1], [a, b]), o2) == PState([o1, o2], [a, b])
    ensures Step(PState([o1, o2], [a, b]), c) == PState([o1, o2], [a, b, c])
  {
    assert Last([o1]) == o1;
    PushWithoutPop(PState([o1], [a, b]), o2);
    assert [o1] + [o2] == [o1, o2];
    PushNumber(PState([o1, o2], [a, b]), c);
    assert [a, b] + [c] == [a, b, c];
  }

  lemma LastTwoPop(a: Token, o1: Token, b: Token, o2: Token, c: Token)
    requires IsNumber(c) && IsOp(o1) && IsOp(o2)
    requires o1.preced != 0 && o1.preced < o2.preced
    ensures Step(PState([o1], [a, b]), o2) == PState([o2], [a, b, o1])
    ensures Step(PState([o2], [a, b, o1]), c) == PState([o2], [a, b, o1, c])
  {
    PushAfterPop(PState([o1], [a, b]), o1, o2);
    assert [a, b] + [o1] == [a, b, o1];
    PushNumber(PState([o2], [a, b, o1]), c);
    assert [a, b, o1] + [c] == [a, b, o1, c];
  }

  lemma FlushNoPop(a: Token, o1: Token, b: Token, o2: Token, c: Token)
    ensures Flush(PState([o1, o2], [a, b, c])) == [a, b, c, o2, o1]
  {
    assert Reverse([o1, o2]) == [o2, o1];
    assert [a, b, c] + [o2, o1] == [a, b, c, o2, o1];
  }

  lemma FlushPop(a: Token, o1: Token, b: Token, o2: Token, c: Token)
    ensures Flush(PState([o2], [a, b, o1, c])) == [a, b, o1, c, o2]
  {
    assert Reverse([o2]) == [o2];
    assert [a, b, o1, c] + [o2] == [a, b, o1, c, o2];
  }

  /** a o1 b o2 c with o2 not binding tighter than o1 (equal precedences
      included, since only a strictly smaller one pops): o2 stays above o1, so
      the postfix is a b c o2 o1. */
  lemma PostfixNoPop(a: Token, o1: Token, b: Token, o2: Token, c: Token)
    requires IsNumber(a) && IsNumber(b) && IsNumber(c) && IsOp(o1) && IsOp(o2)
    requires o1.preced == 0 || o1.preced >= o2.preced
    ensures Postfix([a, o1, b, o2, c]) == [a, b, c, o2, o1]
  {
    FirstThree(a, o1, b);
    LastTwoNoPop(a, o1, b, o2, c);
    var s5 := PState([o1, o2], [a, b, c]);
    RunFive([a, o1, b, o2, c], PState([], [a]), PState([o1], [a]), PState([o1], [a, b]),
            PState([o1, o2], [a, b]), s5);
    FlushNoPop(a, o1, b, o2, c);
  }

  /** a o1 b o2 c with o1 binding strictly tighter than o2: o1 is popped when
      o2 arrives, so the postfix is a b o1 c o2. */
  lemma PostfixPop(a: Token, o1: Token, b: Token, o2: Token, c: Token)
    requires IsNumber(a) && IsNumber(b) && IsNumber(c) && IsOp(o1) && IsOp(o2)
    requires o1.preced != 0 && o1.preced < o2.preced
    ensures Postfix([a, o1, b, o2, c]) == [a, b, o1, c, o2]
  {
    FirstThree(a, o1, b);
    LastTwoPop(a, o1, b, o2, c);
    var s5 := PState([o2], [a, b, o1, c]);
    RunFive([a, o1, b, o2, c], PState([], [a]), PState([o1], [a]), PState([o1], [a, b]),
            PState([o2], [a, b, o1]), s5);
    FlushPop(a, o1, b, o2, c);
  }

  /** The postorder of a binary node over two leaves. */
  lemma PostorderPair(o: Token, x: Token, y: Token)
    ensures Postorder(Node(o, Some(Leaf(x)), Some(Leaf(y)))) == [x, y, o]
  {
    assert Postorder(Leaf(x)) == [x] by { assert [] + [] + [x] == [x]; }
    assert Postorder(Leaf(y)) == [y] by { assert [] + [] + [y] == [y]; }
    assert [x] + [y] + [o] == [x, y, o];
  }

  /** The postfix a b c o2 o1 of two binary operators builds a o1 (b o2 c). */
  lemma TreeRightNested(a: Token, b: Token, c: Token, o2: Token, o1: Token)
    requires !a.isOperator && !b.isOperator && !c.isOperator
    requires o1.isOperator && o2.isOperator && o1.operands >= 2 && o2.operands >= 2
    ensures ToTree([a, b, c, o2, o1]) ==
      Ok(Some(Node(o1, Some(Leaf(a)), Some(Node(o2, Some(Leaf(b)), Some(Leaf(c)))))))
  {
    var inner := Node(o2, Some(Leaf(b)), Some(Leaf(c)));
    var root := Node(o1, Some(Leaf(a)), Some(inner));
    PostorderPair(o2, b, c);
    assert Postorder(Leaf(a)) == [a] by { assert [] + [] + [a] == [a]; }
    assert [a] + [b, c, o2] + [o1] == [a, b, c, o2, o1];
    assert Postorder(root) == [a, b, c, o2, o1];
    assert Buildable(Leaf(b), false) && Buildable(Leaf(c), false);
    assert Buildable(inner, false) && Buildable(Leaf(a), true);
    assert Buildable(root, true);
    ToTreeIff(root, []);
    assert [] + Postorder(root) == Postorder(root);
  }

  /** The postfix a b o1 c o2 of two binary operators builds (a o1 b) o2 c. */
  lemma TreeLeftNested(a: Token, b: Token, o1: Token, c: Token, o2: Token)
    requires !a.isOperator && !b.isOperator && !c.isOperator
    requires o1.isOperator && o2.isOperator && o1.operands >= 2 && o2.operands >= 2
    ensures ToTree([a, b, o1, c, o2]) ==
      Ok(Some(Node(o2, Some(Node(o1, Some(Leaf(a)), Some(Leaf(b)))), Some(Leaf(c)))))
  {
    var inner := Node(o1, Some(Leaf(a)), Some(Leaf(b)));
    var root := Node(o2, Some(inner), Some(Leaf(c)));
    PostorderPair(o1, a, b);
    assert Postorder(Leaf(c)) == [c] by { assert [] + [] + [c] == [c]; }
    assert [a, b, o1] + [c] + [o2] == [a, b, o1, c, o2];
    assert Postorder(root) == [a, b, o1, c, o2];
    assert Buildable(Leaf(a), true) && Buildable(Leaf(b), false);
    assert Buildable(inner, true) && Buildable(Leaf(c), false);
    assert Buildable(root, true);
    ToTreeIff(root, []);
    assert [] + Postorder(root) == Postorder(root);
  }

  /** A unary-capable operator whose operand empties the deque: the postfix
      deque [n, op] has nothing left below the right child. */
  lemma NothingBelowOperand(n: Token, op: Token)
    requires !n.isOperator && op.isOperator
    ensures ToTree([n, op]) == Err(InvalidSyntax)
  {
    assert DropLast([n, op]) == [n] && Last([n, op]) == op;
    assert DropLast([n]) == [] && Last([n]) == n;
    assert BuildChild([n]) == Ok(Built(Leaf(n), []));
    assert ParseNodes([n], op) == Err(InvalidSyntax);
  }

  /** An operator in front of its operand converts to the postfix [operand, operator]. */
  lemma PostfixPrefixOperator(op: Token, n: Token)
    requires IsOp(op) && IsNumber(n)
    ensures Postfix([op, n]) == [n, op]
  {
    var ts := [op, n];
    RunStep(PState([], []), ts, 0);
    PushWithoutPop(PState([], []), op);
    RunStep(PState([op], []), ts, 1);
    assert Reverse([op]) == [op];
  }

  /** An unmatched `(` stays on the stack and is flushed into the postfix. */
  lemma UnmatchedLParen(l: Token, n: Token)
    requires IsLParen(l) && IsNumber(n)
    ensures Postfix([l, n]) == [n, l]
  {
    var ts := [l, n];
    assert Step(PState([], []), l) == PState([l], []) by { assert [] + [l] == [l]; }
    PushNumber(PState([l], []), n);
    assert [] + [n] == [n];
    assert RunFrom(PState([l], [n]), ts, 2) == PState([l], [n]);
    RunStep(PState([l], []), ts, 1);
    RunStep(PState([], []), ts, 0);
    assert Reverse([l]) == [l];
  }

  /** A `)` with no `(` below it flushes the whole stack to the output and
      raises nothing: the input a o b ) converts to a b o. */
  lemma UnmatchedRParen(a: Token, o: Token, b: Token, r: Token)
    requires IsNumber(a) && IsNumber(b) && IsOp(o) && IsRParen(r)
    ensures Postfix([a, o, b, r]) == [a, b, o]
  {
    var ts := [a, o, b, r];
    FirstThree(a, o, b);
    assert Step(PState([o], [a, b]), r) == PState([], [a, b, o]) by {
      assert DropLast([o]) == [] && Last([o]) == o && !IsLParen(o);
      assert CloseParen([], [a, b] + [o]) == PState([], [a, b] + [o]);
      assert [a, b] + [o] == [a, b, o];
    }
    assert RunFrom(PState([], [a, b, o]), ts, 4) == PState([], [a, b, o]);
    RunStep(PState([o], [a, b]), ts, 3);
    RunStep(PState([o], [a]), ts, 2);
    RunStep(PState([], [a]), ts, 1);
    RunStep(PState([], []), ts, 0);
    assert Flush(PState([], [a, b, o])) == [a, b, o] by {
      assert Reverse<Token>([]) == [];
      assert [a, b, o] + [] == [a, b, o];
    }
  }
}
