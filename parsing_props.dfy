/** Properties of the parser model: what the shunting-yard conversion keeps,
    drops and orders, the operator-stack invariant, and exactly which trees the
    builder gives back from their postorder listing. */
module ParsingProps {
  import opened Results
  import opened Tokens
  import opened Sequences
  import opened Parsing

  // ---------------------------------------------------------------------------
  // Token accounting of the conversion
  // ---------------------------------------------------------------------------

  predicate NoRParen(s: seq<Token>)
  {
    forall k :: 0 <= k < |s| ==> !IsRParen(s[k])
  }

  /** What may sit on the operator stack: no number and no `)`. */
  predicate Clean(s: seq<Token>)
  {
    forall k :: 0 <= k < |s| ==> !IsNumber(s[k]) && !IsRParen(s[k])
  }

  /** The accounting invariant after the tokens `seen`: the output holds the
      numbers of `seen` in their order and no `)`; every operator of `seen` is
      either in the output or on the stack, exactly as often as in `seen`. */
  predicate Accounts(s: PState, seen: seq<Token>)
  {
    Clean(s.opStack) && NoRParen(s.postFix) &&
    Filter(IsNumber, s.postFix) == Filter(IsNumber, seen) &&
    multiset(Filter(IsOp, s.postFix)) + multiset(Filter(IsOp, s.opStack)) ==
      multiset(Filter(IsOp, seen))
  }

  lemma {:induction false} CleanFilter(p: Token -> bool, s: seq<Token>)
    requires Clean(s)
    ensures Clean(Filter(p, s))
  {
    if s != [] {
      CleanFilter(p, s[1..]);
      var head := if p(s[0]) then [s[0]] else [];
      assert Clean(head);
      var f := Filter(p, s);
      assert f == head + Filter(p, s[1..]);
      forall k | 0 <= k < |f| ensures !IsNumber(f[k]) && !IsRParen(f[k]) {
        if k >= |head| { assert f[k] == Filter(p, s[1..])[k - |head|]; }
      }
    }
  }

  lemma CleanReverse(s: seq<Token>)
    requires Clean(s)
    ensures Clean(Reverse(s))
  {
    ReverseElements(s);
  }

  lemma CleanSplit(a: seq<Token>, b: seq<Token>)
    ensures Clean(a + b) <==> Clean(a) && Clean(b)
  {
    if Clean(a + b) {
      forall k | 0 <= k < |b| ensures !IsNumber(b[k]) && !IsRParen(b[k]) {
        assert b[k] == (a + b)[|a| + k];
      }
      forall k | 0 <= k < |a| ensures !IsNumber(a[k]) && !IsRParen(a[k]) {
        assert a[k] == (a + b)[k];
      }
    }
    if Clean(a) && Clean(b) {
      forall k | 0 <= k < |a + b| ensures !IsNumber((a + b)[k]) && !IsRParen((a + b)[k]) {
        if k >= |a| { assert (a + b)[k] == b[k - |a|]; } else { assert (a + b)[k] == a[k]; }
      }
    }
  }

  lemma NoRParenAppend(a: seq<Token>, b: seq<Token>)
    requires NoRParen(a) && Clean(b)
    ensures NoRParen(a + b)
  {
  }

  /** Moving the stack's upper part `above` to the output, through `moved`, and
      dropping the `(` entries `mid` below it, keeps the accounting. */
  lemma Transfer(s: PState, seen: seq<Token>, below: seq<Token>, mid: seq<Token>,
                 above: seq<Token>, moved: seq<Token>)
    requires Accounts(s, seen) && s.opStack == below + mid + above
    requires forall k :: 0 <= k < |mid| ==> IsLParen(mid[k])
    requires Clean(moved) && multiset(Filter(IsOp, moved)) == multiset(Filter(IsOp, above))
    ensures Accounts(PState(below, s.postFix + moved), seen)
  {
    CleanSplit(below + mid, above);
    CleanSplit(below, mid);
    NoRParenAppend(s.postFix, moved);
    FilterAppend(IsNumber, s.postFix, moved);
    FilterNone(IsNumber, moved);
    FilterAppend(IsOp, s.postFix, moved);
    FilterAppend(IsOp, below + mid, above);
    FilterAppend(IsOp, below, mid);
    FilterNone(IsOp, mid);
  }

  /** Pushing a token that is `(` or an operator keeps the accounting after it. */
  lemma Push(s: PState, seen: seq<Token>, t: Token)
    requires Accounts(s, seen) && !IsNumber(t) && !IsRParen(t)
    ensures Accounts(PState(s.opStack + [t], s.postFix), seen + [t])
  {
    assert Clean(s.opStack + [t]) by {
      assert Clean([t]);
      CleanSplit(s.opStack, [t]);
    }
    assert Filter(IsNumber, seen + [t]) == Filter(IsNumber, seen) by {
      FilterAppend(IsNumber, seen, [t]);
      FilterSingle(IsNumber, t);
    }
    assert multiset(Filter(IsOp, s.opStack + [t])) == multiset(Filter(IsOp, s.opStack)) + multiset(Filter(IsOp, [t])) by {
      FilterAppend(IsOp, s.opStack, [t]);
    }
    assert multiset(Filter(IsOp, seen + [t])) == multiset(Filter(IsOp, seen)) + multiset(Filter(IsOp, [t])) by {
      FilterAppend(IsOp, seen, [t]);
    }
  }

  lemma NumberAccounts(s: PState, seen: seq<Token>, t: Token)
    requires Accounts(s, seen) && IsNumber(t)
    ensures Accounts(PState(s.opStack, s.postFix + [t]), seen + [t])
  {
    var out := s.postFix + [t];
    assert NoRParen(out) by {
      forall k | 0 <= k < |out| ensures !IsRParen(out[k]) {
        if k < |s.postFix| { assert out[k] == s.postFix[k]; }
      }
    }
    FilterSingle(IsNumber, t);
    FilterSingle(IsOp, t);
    assert Filter(IsNumber, out) == Filter(IsNumber, seen + [t]) by {
      FilterAppend(IsNumber, seen, [t]);
      FilterAppend(IsNumber, s.postFix, [t]);
    }
    assert Filter(IsOp, out) == Filter(IsOp, s.postFix) by {
      FilterAppend(IsOp, s.postFix, [t]);
    }
    assert Filter(IsOp, seen + [t]) == Filter(IsOp, seen) by {
      FilterAppend(IsOp, seen, [t]);
    }
  }

  /** A `)` keeps the accounting: what it pops goes to the output, and the one
      `(` it discards is no operator. */
  lemma CloseAccounts(s: PState, seen: seq<Token>, t: Token)
    requires Accounts(s, seen) && IsRParen(t)
    ensures Accounts(CloseParen(s.opStack, s.postFix), seen + [t])
  {
    ClosedAccounts(s, seen, CloseParen(s.opStack, s.postFix));
    Unaccounted(CloseParen(s.opStack, s.postFix), seen, t);
  }

  /** Seeing a token that is neither a number nor an operator changes nothing
      the accounting counts. */
  lemma Unaccounted(s: PState, seen: seq<Token>, t: Token)
    requires Accounts(s, seen) && !IsNumber(t) && !IsOp(t)
    ensures Accounts(s, seen + [t])
  {
    FilterSingle(IsNumber, t);
    FilterSingle(IsOp, t);
    FilterAppend(IsNumber, seen, [t]);
    FilterAppend(IsOp, seen, [t]);
  }

  /** Whatever the `)` loop leaves keeps the accounting. */
  lemma ClosedAccounts(s: PState, seen: seq<Token>, r: PState)
    requires Accounts(s, seen) && ClosedParen(s.opStack, s.postFix, r)
    ensures Accounts(r, seen)
  {
    if NoLParen(s.opStack) {
      assert s.opStack == [] + [] + s.opStack;
      MoveReversed(s, seen, [], [], s.opStack);
    } else {
      ClosedAtLParen(s, seen, r, |r.opStack|);
    }
  }

  lemma ClosedAtLParen(s: PState, seen: seq<Token>, r: PState, m: nat)
    requires Accounts(s, seen) && m < |s.opStack| && IsLParen(s.opStack[m])
    requires r == PState(s.opStack[..m], s.postFix + Reverse(s.opStack[m + 1..]))
    ensures Accounts(r, seen)
  {
    var st := s.opStack;
    SplitAround(st, m);
    assert forall k :: 0 <= k < |[st[m]]| ==> IsLParen([st[m]][k]);
    MoveReversed(s, seen, st[..m], [st[m]], st[m + 1..]);
  }

  lemma MoveReversed(s: PState, seen: seq<Token>, below: seq<Token>, mid: seq<Token>, above: seq<Token>)
    requires Accounts(s, seen) && s.opStack == below + mid + above
    requires forall k :: 0 <= k < |mid| ==> IsLParen(mid[k])
    ensures Accounts(PState(below, s.postFix + Reverse(above)), seen)
  {
    CleanSplit(below + mid, above);
    CleanReverse(above);
    FilterReverse(IsOp, above);
    Transfer(s, seen, below, mid, above, Reverse(above));
  }

  /** An operator keeps the accounting: what it pops goes to the output save
      the `(` entries, which are no operators, and then it is pushed. */
  lemma OperatorAccounts(s: PState, seen: seq<Token>, t: Token)
    requires Accounts(s, seen) && IsOp(t)
    ensures Accounts(Step(s, t), seen + [t])
  {
    var st := s.opStack;
    var r := PopTighter(st, s.postFix, t.preced);
    var k := |r.opStack|;
    var above := st[k..];
    SplitAt(st, k);
    CleanSplit(st[..k], above);
    CleanReverse(above);
    CleanFilter(NotLParen, Reverse(above));
    FilterFilter(IsOp, NotLParen, Reverse(above));
    FilterReverse(IsOp, above);
    Transfer(s, seen, st[..k], [], above, Filter(NotLParen, Reverse(above)));
    Push(r, seen, t);
  }

  lemma {:induction false} StepAccounts(s: PState, seen: seq<Token>, t: Token)
    requires Accounts(s, seen)
    ensures Accounts(Step(s, t), seen + [t])
  {
    if IsNumber(t) {
      NumberAccounts(s, seen, t);
    } else if IsLParen(t) {
      Push(s, seen, t);
    } else if IsRParen(t) {
      CloseAccounts(s, seen, t);
    } else if t.isOperator {
      OperatorAccounts(s, seen, t);
    } else {
      Unaccounted(s, seen, t);
    }
  }

  lemma {:induction false} RunAccounts(s: PState, ts: seq<Token>, i: nat)
    requires i <= |ts| && Accounts(s, ts[..i])
    ensures Accounts(RunFrom(s, ts, i), ts)
    decreases |ts| - i
  {
    if i == |ts| {
      assert ts[..i] == ts;
    } else {
      StepAccounts(s, ts[..i], ts[i]);
      TakeOneMore(ts, i);
      RunAccounts(Step(s, ts[i]), ts, i + 1);
    }
  }

  lemma PostfixAccounts(ts: seq<Token>)
    ensures NoRParen(Postfix(ts))
    ensures Filter(IsNumber, Postfix(ts)) == Filter(IsNumber, ts)
    ensures multiset(Filter(IsOp, Postfix(ts))) == multiset(Filter(IsOp, ts))
  {
    assert ts[..0] == [];
    RunAccounts(PState([], []), ts, 0);
    var s := RunFrom(PState([], []), ts, 0);
    assert s.opStack == [] + [] + s.opStack;
    CleanReverse(s.opStack);
    FilterReverse(IsOp, s.opStack);
    Transfer(s, ts, [], [], s.opStack, Reverse(s.opStack));
  }

  /** Number tokens reach the postfix output in their input order. */
  lemma PostfixNumbersInOrder(ts: seq<Token>)
    ensures Filter(IsNumber, Postfix(ts)) == Filter(IsNumber, ts)
  {
    PostfixAccounts(ts);
  }

  /** Every operator token reaches the postfix output exactly as often as it
      occurs in the input. */
  lemma PostfixOperatorsOnce(ts: seq<Token>)
    ensures multiset(Filter(IsOp, Postfix(ts))) == multiset(Filter(IsOp, ts))
  {
    PostfixAccounts(ts);
  }

  /** No `)` token ever reaches the postfix output. */
  lemma PostfixHasNoRParen(ts: seq<Token>)
    ensures forall k :: 0 <= k < |Postfix(ts)| ==> !IsRParen(Postfix(ts)[k])
  {
    PostfixAccounts(ts);
  }

  // ---------------------------------------------------------------------------
  // The operator stack
  // ---------------------------------------------------------------------------

  /** The precedences the lexer gives: `(` carries MaxPreced, an operator a
      precedence strictly between 0 and MaxPreced. */
  predicate WellPreced(t: Token)
  {
    (IsLParen(t) ==> t.preced == MaxPreced) && (IsOp(t) ==> 0 < t.preced < MaxPreced)
  }

  /** What the conversion pushes: `(` and operators, with the lexer's precedences. */
  predicate Stackable(s: seq<Token>)
  {
    forall k :: 0 <= k < |s| ==> (IsLParen(s[k]) || IsOp(s[k])) && WellPreced(s[k])
  }

  /** Directly beneath each operator on the stack sits either nothing or an
      entry of equal or larger precedence. */
  predicate StackOrdered(s: seq<Token>)
  {
    forall k :: 0 < k < |s| && IsOp(s[k]) ==> s[k - 1].preced >= s[k].preced
  }

  /** An incoming operator pops no `(`: a `(` has precedence MaxPreced, which is
      not below any incoming precedence up to MaxPreced, so everything popped goes
      to the output and the output gains the popped entries in pop order. */
  lemma LParenNeverPopped(st: seq<Token>, out: seq<Token>, p: int)
    requires Stackable(st) && p <= MaxPreced
    ensures var r := PopTighter(st, out, p);
      NoLParen(st[|r.opStack|..]) && r.postFix == out + Reverse(st[|r.opStack|..])
  {
    var r := PopTighter(st, out, p);
    var above := st[|r.opStack|..];
    forall k | 0 <= k < |above| ensures !IsLParen(above[k]) {
      assert above[k] == st[|r.opStack| + k];
    }
    ReverseElements(above);
    FilterAll(NotLParen, Reverse(above));
  }

  lemma PrefixOrdered(s: seq<Token>, m: nat)
    requires m <= |s| && StackOrdered(s) && Stackable(s)
    ensures StackOrdered(s[..m]) && Stackable(s[..m])
  {
    assert forall k :: 0 <= k < m ==> s[..m][k] == s[k];
  }

  lemma PushOrdered(st: seq<Token>, t: Token)
    requires StackOrdered(st) && Stackable(st)
    requires (IsLParen(t) || IsOp(t)) && WellPreced(t)
    requires IsOp(t) && st != [] ==> Last(st).preced >= t.preced
    ensures StackOrdered(st + [t]) && Stackable(st + [t])
  {
    assert forall k :: 0 <= k < |st| ==> (st + [t])[k] == st[k];
  }

  /** Only a stack entry that does not pop for p is left on top, and each entry
      has a non-zero precedence, so that top is at least p. */
  lemma StopsAtLarger(st: seq<Token>, p: int)
    requires Stackable(st) && st != [] && !PopsFor(st, p)
    ensures Last(st).preced >= p
  {
    assert Last(st) == st[|st| - 1];
  }

  /** One conversion step keeps the stack ordered. */
  lemma {:induction false} StepOrdered(s: PState, t: Token)
    requires StackOrdered(s.opStack) && Stackable(s.opStack) && WellPreced(t)
    ensures StackOrdered(Step(s, t).opStack) && Stackable(Step(s, t).opStack)
  {
    var st := s.opStack;
    if IsNumber(t) {
    } else if IsLParen(t) {
      PushOrdered(st, t);
    } else if IsRParen(t) {
      var r := CloseParen(st, s.postFix);
      if !NoLParen(st) {
        PrefixOrdered(st, |r.opStack|);
      }
    } else if t.isOperator {
      var r := PopTighter(st, s.postFix, t.preced);
      PrefixOrdered(st, |r.opStack|);
      if r.opStack != [] {
        StopsAtLarger(r.opStack, t.preced);
      }
      PushOrdered(r.opStack, t);
    }
  }

  /** The stack stays ordered through the whole conversion loop; it is in this
      order that the final flush pops it. */
  lemma {:induction false} RunOrdered(s: PState, ts: seq<Token>, i: nat)
    requires i <= |ts| && StackOrdered(s.opStack) && Stackable(s.opStack)
    requires forall k :: i <= k < |ts| ==> WellPreced(ts[k])
    ensures StackOrdered(RunFrom(s, ts, i).opStack) && Stackable(RunFrom(s, ts, i).opStack)
    decreases |ts| - i
  {
    if i < |ts| {
      StepOrdered(s, ts[i]);
      RunOrdered(Step(s, ts[i]), ts, i + 1);
    }
  }

  // ---------------------------------------------------------------------------
  // The tree builder against postorder
  // ---------------------------------------------------------------------------

  /** The trees the builder can give back from their own postorder listing,
      with `restEmpty` telling whether nothing lies below that listing on the
      deque: a number is a leaf; an operator with nothing at all below it is a
      childless node; one of two or more operands has both children; one of
      fewer operands has only a right child and needs something below it, since
      the deque must not run dry right after the right child. */
  predicate Buildable(t: Tree, restEmpty: bool)
  {
    if !t.token.isOperator then t.left.None? && t.right.None?
    else if t.left.None? && t.right.None? then restEmpty
    else if t.token.operands >= 2 then
      t.left.Some? && t.right.Some? &&
      Buildable(t.right.value, false) && Buildable(t.left.value, restEmpty)
    else
      t.left.None? && t.right.Some? && !restEmpty && Buildable(t.right.value, false)
  }

  lemma PostorderNonEmpty(t: Tree)
    ensures Postorder(t) != [] && Last(Postorder(t)) == t.token
  {
  }

  /** Building from `rest + Postorder(t)` gives back t and leaves `rest`, for
      every buildable t. */
  lemma {:induction false} BuildRoundTrip(t: Tree, rest: seq<Token>)
    requires Buildable(t, rest == [])
    ensures BuildChild(rest + Postorder(t)) == Ok(Built(t, rest))
    decreases t
  {
    var ts := rest + Postorder(t);
    PostorderNonEmpty(t);
    assert Last(ts) == t.token;
    var below := DropLast(ts);
    assert below == rest + PostorderOf(t.left) + PostorderOf(t.right);
    if t.token.isOperator {
      if t.left.None? && t.right.None? {
        assert below == [];
      } else if t.token.operands >= 2 {
        var l, r := t.left.value, t.right.value;
        BuildRoundTrip(r, rest + Postorder(l));
        BuildRoundTrip(l, rest);
        assert below == (rest + Postorder(l)) + Postorder(r);
        PostorderNonEmpty(l);
      } else {
        var r := t.right.value;
        BuildRoundTrip(r, rest);
        assert below == rest + Postorder(r);
      }
    }
  }

  /** Every node the builder gives back is buildable. */
  lemma {:induction false} BuiltIsBuildable(ts: seq<Token>)
    requires ts != [] && BuildChild(ts).Ok?
    ensures Buildable(BuildChild(ts).value.node, BuildChild(ts).value.rest == [])
    decreases |ts|
  {
    var t := Last(ts);
    if t.isOperator {
      var below := DropLast(ts);
      var c := ParseNodes(below, t).value;
      if below != [] {
        var rb := BuildChild(below).value;
        BuiltIsBuildable(below);
        if t.operands >= 2 {
          BuiltIsBuildable(rb.rest);
        }
      }
    }
  }

  lemma SuffixCancel(a: seq<Token>, b: seq<Token>, c: seq<Token>)
    requires a + c == b + c
    ensures a == b
  {
    assert a == (a + c)[..|a|];
    assert b == (b + c)[..|b|];
  }

  /** The builder gives back t from `rest + Postorder(t)`, with `rest` left over,
      exactly when t is buildable. */
  lemma BuildIff(t: Tree, rest: seq<Token>)
    ensures BuildChild(rest + Postorder(t)) == Ok(Built(t, rest)) <==> Buildable(t, rest == [])
  {
    PostorderNonEmpty(t);
    if Buildable(t, rest == []) {
      BuildRoundTrip(t, rest);
    }
    if BuildChild(rest + Postorder(t)) == Ok(Built(t, rest)) {
      BuiltIsBuildable(rest + Postorder(t));
    }
  }

  /** toASTree gives back t from any deque ending in t's postorder listing
      exactly when t is buildable; the tokens below that listing are ignored. */
  lemma ToTreeIff(t: Tree, rest: seq<Token>)
    ensures ToTree(rest + Postorder(t)) == Ok(Some(t)) <==> Buildable(t, rest == [])
  {
    var ts := rest + Postorder(t);
    PostorderNonEmpty(t);
    BuildIff(t, rest);
    if ToTree(ts) == Ok(Some(t)) {
      var b := BuildChild(ts).value;
      assert b.node == t;
      SuffixCancel(b.rest, rest, Postorder(t));
    }
  }

  /** A token that is not an operator on top of the deque is a childless leaf,
      whatever lies below it. */
  lemma LeafOnTop(below: seq<Token>, t: Token)
    requires !t.isOperator
    ensures ToTree(below + [t]) == Ok(Some(Node(t, None, None)))
  {
    assert Last(below + [t]) == t;
  }

  /** An operator alone on the deque is a childless node, without error. */
  lemma LoneOperator(t: Token)
    requires t.isOperator
    ensures ToTree([t]) == Ok(Some(Node(t, None, None)))
  {
    assert Last([t]) == t && DropLast([t]) == [];
    assert ParseNodes([], t) == Ok(Children(None, None, []));
  }

  /** parseASTNodes raises "Invalid Syntax" whenever building the right child
      empties the deque, whatever the parent's arity. */
  lemma EmptyAfterRight(ts: seq<Token>, parent: Token)
    requires ts != [] && BuildChild(ts).Ok? && BuildChild(ts).value.rest == []
    ensures ParseNodes(ts, parent) == Err(InvalidSyntax)
  {
  }

  /** A parent of fewer than two operands gets only a right child, and the
      right child is the one built from the top of the deque. */
  lemma UnaryGetsRightOnly(ts: seq<Token>, parent: Token)
    requires ts != [] && parent.operands < 2 && ParseNodes(ts, parent).Ok?
    ensures ParseNodes(ts, parent).value.left.None?
    ensures BuildChild(ts).Ok? &&
      ParseNodes(ts, parent).value.right == Some(BuildChild(ts).value.node)
  {
  }
}
