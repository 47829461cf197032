/** The parser of parsing.py: a shunting-yard conversion of the token stream to
    postfix order, and a builder that pops that postfix deque from the right to
    grow an abstract syntax tree.

    The specification functions come first (the converter as a fold of one step
    per token, the builder as a pair of mutually recursive functions over the
    deque); the classes TokenDeque, ASTNode and Parser are the objects the
    source mutates, and their methods are proved to compute what those
    functions say. */
module Parsing {
  import opened Results
  import opened Tokens
  import opened Sequences

  /** The two deques of the converter: the operator stack (top at the end) and
      the postfix output. */
  datatype PState = PState(opStack: seq<Token>, postFix: seq<Token>)

  /** The precedence of the token on top of the operator stack, None when it is
      empty. */
  function GetTopPreced(opStack: seq<Token>): (r: Option<int>)
    ensures r.None? <==> opStack == []
    ensures r.Some? ==> r.value == Last(opStack).preced
  {
    if opStack == [] then None else Some(Last(opStack).preced)
  }

  /** Python truthiness of an optional precedence: None and 0 are false. */
  predicate Truthy(p: Option<int>)
  {
    p.Some? && p.value != 0
  }

  /** Whether the operator loop pops the top of the stack for an incoming
      precedence p: the top precedence is truthy and strictly smaller. */
  predicate PopsFor(opStack: seq<Token>, p: int)
  {
    Truthy(GetTopPreced(opStack)) && GetTopPreced(opStack).value < p
  }

  predicate NoLParen(s: seq<Token>)
  {
    forall k :: 0 <= k < |s| ==> !IsLParen(s[k])
  }

  lemma ReverseStep(st: seq<Token>, m: nat)
    requires m < |st|
    ensures Reverse(st[m..]) == [Last(st)] + Reverse(DropLast(st)[m..])
  {
    var above := st[m..];
    assert above != [] && Last(above) == Last(st) && DropLast(above) == DropLast(st)[m..];
  }

  /** Every entry of `s` pops for an incoming precedence p: its precedence is
      non-zero and below p. */
  predicate AllPopFor(s: seq<Token>, p: int)
  {
    forall k :: 0 <= k < |s| ==> s[k].preced != 0 && s[k].preced < p
  }

  /** Popping the top of `st` in front of what popping the entries st[m..] of
      the rest gives. */
  lemma PopOne(st: seq<Token>, out: seq<Token>, m: nat)
    requires m < |st|
    ensures st[..m] == DropLast(st)[..m]
    ensures out + Filter(NotLParen, Reverse(st[m..])) ==
      (if IsLParen(Last(st)) then out else out + [Last(st)]) +
      Filter(NotLParen, Reverse(DropLast(st)[m..]))
  {
    var top := Last(st);
    ReverseStep(st, m);
    FilterAppend(NotLParen, [top], Reverse(DropLast(st)[m..]));
    assert Filter(NotLParen, [top]) == if IsLParen(top) then [] else [top] by {
      assert [top][1..] == [];
    }
  }

  lemma AllPopForStep(st: seq<Token>, m: nat, p: int)
    requires m < |st| && PopsFor(st, p) && AllPopFor(DropLast(st)[m..], p)
    ensures AllPopFor(st[m..], p)
  {
    var above := st[m..];
    forall k | 0 <= k < |above| ensures above[k].preced != 0 && above[k].preced < p {
      if k < |above| - 1 { assert above[k] == DropLast(st)[m..][k]; }
    }
  }

  /** The operator loop for an incoming precedence p: pop the top while it pops
      for p, appending every popped token except `(`, which is discarded. The
      stack that remains is a prefix of the old one; exactly the entries above it
      were popped, each with a non-zero precedence below p; what remains on top
      does not pop for p (so an equal precedence stays). */
  function PopTighter(st: seq<Token>, out: seq<Token>, p: int): (r: PState)
    decreases |st|
    ensures |r.opStack| <= |st| && r.opStack == st[..|r.opStack|]
    ensures r.postFix == out + Filter(NotLParen, Reverse(st[|r.opStack|..]))
    ensures AllPopFor(st[|r.opStack|..], p)
    ensures !PopsFor(r.opStack, p)
  {
    if PopsFor(st, p) then
      var top := Last(st);
      var r := PopTighter(DropLast(st), if IsLParen(top) then out else out + [top], p);
      PopOne(st, out, |r.opStack|);
      AllPopForStep(st, |r.opStack|, p);
      r
    else
      assert st[|st|..] == [];
      PState(st, out)
  }

  lemma NoLParenExtend(st: seq<Token>)
    requires st != [] && !IsLParen(Last(st))
    ensures NoLParen(st) <==> NoLParen(DropLast(st))
  {
    if NoLParen(DropLast(st)) {
      forall k | 0 <= k < |st| ensures !IsLParen(st[k]) {
        if k < |st| - 1 { assert st[k] == DropLast(st)[k]; }
      }
    } else {
      var k :| 0 <= k < |DropLast(st)| && IsLParen(DropLast(st)[k]);
      assert st[k] == DropLast(st)[k];
    }
  }

  /** What the `)` loop leaves, r, for stack `st` and output `out`: with a `(`
      on the stack, the stack is cut just below the topmost one and the entries
      above it go to the output in pop order; without one, the whole stack goes
      to the output. */
  predicate ClosedParen(st: seq<Token>, out: seq<Token>, r: PState)
  {
    (NoLParen(st) ==> r == PState([], out + Reverse(st))) &&
    (!NoLParen(st) ==>
      var m := |r.opStack|;
      m < |st| && r.opStack == st[..m] && IsLParen(st[m]) && NoLParen(st[m + 1..]) &&
      r.postFix == out + Reverse(st[m + 1..]))
  }

  lemma ClosedParenTop(st: seq<Token>, out: seq<Token>)
    requires st != [] && IsLParen(Last(st))
    ensures ClosedParen(st, out, PState(DropLast(st), out))
  {
    assert st[..|st| - 1] == DropLast(st) && st[|st|..] == [];
  }

  /** Popping a non-`(` top to the output and closing the rest of the stack
      closes the whole stack. */
  lemma ClosedParenStep(st: seq<Token>, out: seq<Token>, r: PState)
    requires st != [] && !IsLParen(Last(st))
    requires ClosedParen(DropLast(st), out + [Last(st)], r)
    ensures ClosedParen(st, out, r)
  {
    NoLParenExtend(st);
    if NoLParen(st) {
      ReverseStep(st, 0);
      assert st[0..] == st && DropLast(st)[0..] == DropLast(st);
    } else {
      var m := |r.opStack|;
      ReverseStep(st, m + 1);
      assert st[m] == DropLast(st)[m];
      var above := st[m + 1..];
      assert DropLast(above) == DropLast(st)[m + 1..] && Last(above) == Last(st);
      NoLParenExtend(above);
    }
  }

  /** The `)` loop: pop to the output until a `(` is popped, which is discarded;
      an unmatched `)` flushes the whole stack and raises no error. */
  function CloseParen(st: seq<Token>, out: seq<Token>): (r: PState)
    decreases |st|
    ensures ClosedParen(st, out, r)
  {
    if st == [] then PState([], out)
    else if IsLParen(Last(st)) then
      ClosedParenTop(st, out);
      PState(DropLast(st), out)
    else
      var r := CloseParen(DropLast(st), out + [Last(st)]);
      ClosedParenStep(st, out, r);
      r
  }

  /** One iteration of the conversion loop for the current token. A token that
      is none of NUMBER, LPAREN and RPAREN and has isOperator unset is skipped. */
  function Step(s: PState, t: Token): PState
  {
    if IsNumber(t) then PState(s.opStack, s.postFix + [t])
    else if IsLParen(t) then PState(s.opStack + [t], s.postFix)
    else if IsRParen(t) then CloseParen(s.opStack, s.postFix)
    else if t.isOperator then
      var r := PopTighter(s.opStack, s.postFix, t.preced);
      PState(r.opStack + [t], r.postFix)
    else s
  }

  /** The conversion loop from token i to the end of the input. */
  function RunFrom(s: PState, ts: seq<Token>, i: nat): PState
    requires i <= |ts|
    decreases |ts| - i
  {
    if i == |ts| then s else RunFrom(Step(s, ts[i]), ts, i + 1)
  }

  /** After the loop every remaining stack entry goes to the output in pop order. */
  function Flush(s: PState): seq<Token>
  {
    s.postFix + Reverse(s.opStack)
  }

  /** The postfix form of a token sequence. */
  function Postfix(ts: seq<Token>): seq<Token>
  {
    Flush(RunFrom(PState([], []), ts, 0))
  }

  /** The value of an ASTNode: its token and its optional children. */
  datatype Tree = Node(token: Token, left: Option<Tree>, right: Option<Tree>)

  /** The node built from the top of the deque, and the deque left after it. */
  datatype Built = Built(node: Tree, rest: seq<Token>)

  /** The children attached to a parent, and the deque left after them. */
  datatype Children = Children(left: Option<Tree>, right: Option<Tree>, rest: seq<Token>)

  /** Postorder listing: left subtree, right subtree, then the node. */
  function Postorder(t: Tree): seq<Token>
    decreases t, 1
  {
    PostorderOf(t.left) + PostorderOf(t.right) + [t.token]
  }

  function PostorderOf(o: Option<Tree>): seq<Token>
    decreases o, 0
  {
    match o
    case None => []
    case Some(t) => Postorder(t)
  }

  /** The shape every built node has: a non-operator is a leaf, a left child
      comes only with a right child and only under a parent of two or more
      operands. */
  predicate Shaped(t: Tree)
  {
    (!t.token.isOperator ==> t.left.None? && t.right.None?) &&
    (t.left.Some? ==> t.right.Some? && t.token.operands >= 2 && Shaped(t.left.value)) &&
    (t.right.Some? ==> Shaped(t.right.value))
  }

  /** Children that a parent built by the builder may carry. */
  predicate ShapedChildren(parent: Token, left: Option<Tree>, right: Option<Tree>)
  {
    (left.Some? ==> right.Some? && parent.operands >= 2 && Shaped(left.value)) &&
    (right.Some? ==> Shaped(right.value))
  }

  /** Pop a token from the right and make its node; an operator gets its
      children from the rest of the deque. The consumed suffix is the postorder
      listing of the node built. */
  function BuildChild(ts: seq<Token>): (r: Result<Built>)
    requires ts != []
    decreases |ts|, 0
    ensures r.Ok? ==> ts == r.value.rest + Postorder(r.value.node) && Shaped(r.value.node)
    ensures r.Ok? ==> r.value.node.token == Last(ts)
    ensures r.Err? ==> r.error == InvalidSyntax
  {
    var t := Last(ts);
    if t.isOperator then
      match ParseNodes(DropLast(ts), t)
      case Ok(c) =>
        assert DropLast(ts) + [t] == ts;
        Ok(Built(Node(t, c.left, c.right), c.rest))
      case Err(e) => Err(e)
    else
      assert DropLast(ts) + [t] == ts;
      Ok(Built(Node(t, None, None), DropLast(ts)))
  }

  /** parseASTNodes for `parent` over the deque `ts`: nothing on an empty deque;
      otherwise the right child first, then InvalidSyntax if the deque is now
      empty (whatever the parent's arity), then a left child only for a parent
      of two or more operands. The consumed suffix is the postorder listing of
      the children. */
  function ParseNodes(ts: seq<Token>, parent: Token): (r: Result<Children>)
    decreases |ts|, 1
    ensures r.Ok? ==> ts == r.value.rest + PostorderOf(r.value.left) + PostorderOf(r.value.right)
    ensures r.Ok? ==> ShapedChildren(parent, r.value.left, r.value.right)
    ensures r.Ok? && ts != [] ==> r.value.right.Some?
    ensures r.Err? ==> r.error == InvalidSyntax
  {
    if ts == [] then Ok(Children(None, None, []))
    else
      match BuildChild(ts)
      case Err(e) => Err(e)
      case Ok(rb) =>
        if rb.rest == [] then Err(InvalidSyntax)
        else if parent.operands < 2 then Ok(Children(None, Some(rb.node), rb.rest))
        else
          match BuildChild(rb.rest)
          case Err(e) => Err(e)
          case Ok(lb) =>
            assert ts == lb.rest + Postorder(lb.node) + Postorder(rb.node);
            Ok(Children(Some(lb.node), Some(rb.node), lb.rest))
  }

  /** toASTree: None for an empty deque, otherwise the node built from its top;
      tokens left below the root's subtree are ignored. */
  function ToTree(ts: seq<Token>): (r: Result<Option<Tree>>)
    ensures r == Ok(None) <==> ts == []
    ensures r.Ok? && r.value.Some? ==>
      Shaped(r.value.value) && r.value.value.token == Last(ts) &&
      exists rest :: ts == rest + Postorder(r.value.value)
    ensures r.Err? ==> r.error == InvalidSyntax
  {
    if ts == [] then Ok(None)
    else
      match BuildChild(ts)
      case Ok(b) => Ok(Some(b.node))
      case Err(e) => Err(e)
  }

  /** The whole parse of a token sequence: postfix conversion, then the tree. */
  function ParseTree(ts: seq<Token>): Result<Option<Tree>>
  {
    ToTree(Postfix(ts))
  }

  /** The postfix deque, popped from the right by the tree builder. */
  class TokenDeque {
    var items: seq<Token>

    constructor (ts: seq<Token>)
      ensures items == ts
    {
      items := ts;
    }

    method Pop() returns (t: Token)
      requires items != []
      modifies this
      ensures t == Last(old(items)) && items == DropLast(old(items))
    {
      t := Last(items);
      items := DropLast(items);
    }
  }

  /** A node of the syntax tree; `tree` is the value of the subtree it roots
      and `Repr` the nodes of that subtree. */
  class ASTNode {
    const token: Token
    var lChild: ASTNode?
    var rChild: ASTNode?
    ghost var tree: Tree
    ghost var Repr: set<ASTNode>

    ghost predicate Valid()
      reads this, Repr
      decreases Repr
    {
      this in Repr &&
      (lChild != null ==>
        lChild in Repr && lChild.Repr <= Repr && this !in lChild.Repr && lChild.Valid()) &&
      (rChild != null ==>
        rChild in Repr && rChild.Repr <= Repr && this !in rChild.Repr && rChild.Valid()) &&
      tree == Node(token,
                   if lChild == null then None else Some(lChild.tree),
                   if rChild == null then None else Some(rChild.tree))
    }

    constructor (t: Token)
      ensures Valid() && token == t && lChild == null && rChild == null
      ensures tree == Node(t, None, None) && Repr == {this}
    {
      token := t;
      lChild := null;
      rChild := null;
      tree := Node(t, None, None);
      Repr := {this};
    }

    /** `node.rChild = child`, with the ghost state following. */
    method SetRight(child: ASTNode)
      requires Valid() && child.Valid() && this !in child.Repr
      modifies this
      ensures Valid() && lChild == old(lChild) && rChild == child
      ensures tree == Node(token, old(tree).left, Some(child.tree))
      ensures Repr == old(Repr) + child.Repr
    {
      rChild := child;
      Repr := Repr + child.Repr;
      tree := Node(token, tree.left, Some(child.tree));
    }

    /** `node.lChild = child`, with the ghost state following. */
    method SetLeft(child: ASTNode)
      requires Valid() && child.Valid() && this !in child.Repr
      modifies this
      ensures Valid() && rChild == old(rChild) && lChild == child
      ensures tree == Node(token, Some(child.tree), old(tree).right)
      ensures Repr == old(Repr) + child.Repr
    {
      lChild := child;
      Repr := Repr + child.Repr;
      tree := Node(token, Some(child.tree), tree.right);
    }
  }

  /** `(` keeps a `)` loop going no further; any other popped token goes on. */
  function PendingClose(topItem: Option<Token>, st: seq<Token>, out: seq<Token>): PState
  {
    match topItem
    case None => PState(st, out)
    case Some(x) => if IsLParen(x) then PState(st, out) else CloseParen(st, out + [x])
  }

  /** The parser object: `rest` is what the token iterator has not yet
      delivered and `crntToken` the token under the cursor. */
  class Parser {
    const tokens: seq<Token>
    var rest: seq<Token>
    var crntToken: Option<Token>

    /** The index of the cursor in the token sequence (|tokens| once exhausted). */
    ghost var pos: int

    ghost predicate Valid()
      reads this
    {
      0 <= pos <= |tokens| &&
      (pos < |tokens| ==> crntToken == Some(tokens[pos]) && rest == tokens[pos + 1..]) &&
      (pos == |tokens| ==> crntToken == None && rest == [])
    }

    constructor (ts: seq<Token>)
      ensures Valid() && tokens == ts && pos == 0
    {
      tokens := ts;
      rest := ts;
      crntToken := None;
      pos := -1;
      new;
      Advance();
    }

    /** Take the next token from the iterator, or None once it is exhausted. */
    method Advance()
      modifies this
      ensures old(rest) == [] ==> crntToken == None && rest == []
      ensures old(rest) != [] ==> crntToken == Some(old(rest)[0]) && rest == old(rest)[1..]
      ensures pos == if old(rest) == [] then |tokens| else |tokens| - |old(rest)|
      ensures old(Valid()) ==> Valid() && pos == if old(pos) < |tokens| then old(pos) + 1 else |tokens|
    {
      if rest == [] {
        crntToken := None;
        pos := |tokens|;
      } else {
        crntToken := Some(rest[0]);
        pos := |tokens| - |rest|;
        rest := rest[1..];
      }
    }

    /** The shunting-yard loop over the remaining tokens, then the flush of the
        operator stack. */
    method ToPostfix() returns (postFix: seq<Token>)
      requires Valid()
      modifies this
      ensures Valid() && pos == |tokens|
      ensures postFix == Flush(RunFrom(PState([], []), tokens, old(pos)))
    {
      ghost var start := pos;
      var opStack: seq<Token> := [];
      postFix := [];
      while crntToken.Some?
        invariant Valid()
        invariant RunFrom(PState([], []), tokens, start) == RunFrom(PState(opStack, postFix), tokens, pos)
        decreases |tokens| - pos
      {
        var t := crntToken.value;
        ghost var before := PState(opStack, postFix);
        if IsNumber(t) {
          postFix := postFix + [t];
        } else if IsLParen(t) {
          opStack := opStack + [t];
        } else if IsRParen(t) {
          var topItem: Option<Token> := None;
          if opStack != [] {
            topItem := Some(Last(opStack));
            opStack := DropLast(opStack);
          }
          while topItem.Some? && !IsLParen(topItem.value)
            invariant topItem.None? ==> opStack == []
            invariant CloseParen(before.opStack, before.postFix) == PendingClose(topItem, opStack, postFix)
            decreases |opStack|, if topItem.Some? then 1 else 0
          {
            postFix := postFix + [topItem.value];
            if opStack != [] {
              topItem := Some(Last(opStack));
              opStack := DropLast(opStack);
            } else {
              topItem := None;
            }
          }
        } else if t.isOperator {
          var topPreced := GetTopPreced(opStack);
          while Truthy(topPreced) && topPreced.value < t.preced
            invariant topPreced == GetTopPreced(opStack)
            invariant PopTighter(before.opStack, before.postFix, t.preced) == PopTighter(opStack, postFix, t.preced)
            decreases |opStack|
          {
            var topToken := Last(opStack);
            opStack := DropLast(opStack);
            if !IsLParen(topToken) {
              postFix := postFix + [topToken];
            }
            topPreced := GetTopPreced(opStack);
          }
          opStack := opStack + [t];
        }
        assert PState(opStack, postFix) == Step(before, t);
        Advance();
      }
      ghost var final := PState(opStack, postFix);
      while |opStack| > 0
        invariant Flush(final) == Flush(PState(opStack, postFix))
        decreases |opStack|
      {
        assert Reverse(opStack) == [Last(opStack)] + Reverse(DropLast(opStack));
        postFix := postFix + [Last(opStack)];
        opStack := DropLast(opStack);
      }
      assert postFix + Reverse([]) == postFix;
    }

    /** One child as parseASTNodes builds it: pop a token, make its node and,
        for an operator, parse that node's own children; an Err where the
        source raises "Invalid Syntax". */
    method BuildNode(q: TokenDeque) returns (r: Result<ASTNode>)
      requires q.items != []
      modifies q
      decreases |q.items|, 0
      ensures r.Ok? <==> BuildChild(old(q.items)).Ok?
      ensures r.Err? ==> r.error == InvalidSyntax
      ensures r.Ok? ==>
        fresh(r.value.Repr) && r.value.Valid() &&
        r.value.tree == BuildChild(old(q.items)).value.node &&
        q.items == BuildChild(old(q.items)).value.rest
    {
      ghost var ts := q.items;
      var t := q.Pop();
      var node := new ASTNode(t);
      if t.isOperator {
        var ok := ParseASTNodes(q, node);
        if !ok {
          return Err(InvalidSyntax);
        }
        ghost var c := ParseNodes(DropLast(ts), t).value;
        assert node.tree == Node(t, c.left, c.right);
        assert BuildChild(ts) == Ok(Built(node.tree, c.rest));
      } else {
        assert BuildChild(ts) == Ok(Built(node.tree, q.items));
      }
      return Ok(node);
    }

    /** parseASTNodes: attach to `parent` the children built from the right end
        of the deque; false where the source raises "Invalid Syntax". */
    method ParseASTNodes(q: TokenDeque, parent: ASTNode) returns (ok: bool)
      requires parent.Valid() && parent.lChild == null && parent.rChild == null
      modifies q, parent
      decreases |q.items|, 1
      ensures parent.Valid() && fresh(parent.Repr - old(parent.Repr))
      ensures ok <==> ParseNodes(old(q.items), parent.token).Ok?
      ensures ok ==>
        var c := ParseNodes(old(q.items), parent.token).value;
        q.items == c.rest && parent.tree == Node(parent.token, c.left, c.right)
    {
      if q.items == [] {
        return true;
      }
      ghost var ts := q.items;
      var rb := BuildNode(q);
      if rb.Err? {
        assert ParseNodes(ts, parent.token) == Err(InvalidSyntax);
        return false;
      }
      ghost var right := BuildChild(ts).value;
      parent.SetRight(rb.value);
      if q.items == [] {
        assert ParseNodes(ts, parent.token) == Err(InvalidSyntax);
        return false;
      }
      if parent.token.operands < 2 {
        assert ParseNodes(ts, parent.token) == Ok(Children(None, Some(right.node), right.rest));
        return true;
      }
      var lb := BuildNode(q);
      if lb.Err? {
        assert ParseNodes(ts, parent.token) == Err(InvalidSyntax);
        return false;
      }
      ghost var left := BuildChild(right.rest).value;
      parent.SetLeft(lb.value);
      assert ParseNodes(ts, parent.token) == Ok(Children(Some(left.node), Some(right.node), left.rest));
      return true;
    }

    /** toASTree: None (null) for an empty deque, otherwise the root node built
        from its right end. */
    method ToASTree(q: TokenDeque) returns (r: Result<ASTNode?>)
      modifies q
      ensures ToTree(old(q.items)) == Ok(None) ==> r == Ok(null)
      ensures ToTree(old(q.items)).Err? ==> r == Err(ToTree(old(q.items)).error)
      ensures ToTree(old(q.items)).Ok? && ToTree(old(q.items)).value.Some? ==>
        r.Ok? && r.value != null && r.value.Valid() && r.value.tree == ToTree(old(q.items)).value.value
    {
      if q.items == [] {
        return Ok(null);
      }
      var topToken := q.Pop();
      var rootNode := new ASTNode(topToken);
      if topToken.isOperator {
        var ok := ParseASTNodes(q, rootNode);
        if !ok {
          return Err(InvalidSyntax);
        }
      }
      return Ok(rootNode);
    }

    /** parse: the postfix form of the remaining tokens, then its tree. */
    method Parse() returns (r: Result<ASTNode?>)
      requires Valid()
      modifies this
      ensures var spec := ToTree(Flush(RunFrom(PState([], []), tokens, old(pos))));
        (spec == Ok(None) ==> r == Ok(null)) &&
        (spec.Err? ==> r == Err(spec.error)) &&
        (spec.Ok? && spec.value.Some? ==> r.Ok? && r.value != null && r.value.Valid() && r.value.tree == spec.value.value)
    {
      var postFix := ToPostfix();
      var q := new TokenDeque(postFix);
      r := ToASTree(q);
    }
  }

  /** A fresh parser over `ts`, parsed. */
  method ParseTokens(ts: seq<Token>) returns (r: Result<ASTNode?>)
    ensures ParseTree(ts) == Ok(None) ==> r == Ok(null)
    ensures ParseTree(ts).Err? ==> r == Err(ParseTree(ts).error)
    ensures ParseTree(ts).Ok? && ParseTree(ts).value.Some? ==>
      r.Ok? && r.value != null && r.value.Valid() && r.value.tree == ParseTree(ts).value.value
  {
    var parser := new Parser(ts);
    r := parser.Parse();
  }
}
