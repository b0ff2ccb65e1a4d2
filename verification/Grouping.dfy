/**
 How operators group, in terms of the numbers of the operator table alone: which operator of a chain is
 applied last, and which of two neighbours gets the operand between them.
 */
module Grouping {
  import opened Wrappers
  import opened PrecedenceTable
  import opened RpnBuilder
  import opened ExprTree
  import opened CompileCorrect
  import opened RpnMachine

  /** An operator and the operand after it. */
  datatype Link<V> = Link(op: string, atom: Atom<V>)

  /** An operand and any number of binary operators with their operands. */
  function Chain<V>(first: Atom<V>, links: seq<Link<V>>): seq<Token<V>>
    decreases |links|
  {
    [Operand(first)] + if links == [] then [] else [Op(links[0].op)] + Chain(links[0].atom, links[1..])
  }

  predicate IsBinary(t: Table, op: string) {
    Plain(op) && t.Exists(op) && !t.Exists("R" + op)
  }

  predicate AllBinary<V>(t: Table, links: seq<Link<V>>) {
    forall i | 0 <= i < |links| :: IsBinary(t, links[i].op)
  }

  /** An operator before the root binds tighter, or just as tight if the root goes from left to right. */
  predicate Before(t: Table, op: string, root: string)
    requires t.Exists(op) && t.Exists(root)
  {
    t.prec[op] < t.prec[root] || (t.prec[op] == t.prec[root] && root !in t.rtol)
  }

  /** One after it binds tighter, or just as tight if it goes from right to left. */
  predicate After(t: Table, root: string, op: string)
    requires t.Exists(op) && t.Exists(root)
  {
    t.prec[op] < t.prec[root] || (t.prec[op] == t.prec[root] && op in t.rtol)
  }

  /** The operator at place i is applied last: the loosest one, the last or the first of its level. */
  predicate IsRoot<V>(t: Table, links: seq<Link<V>>, i: nat)
    requires AllBinary(t, links)
  {
    && i < |links|
    && (forall j | 0 <= j < i :: Before(t, links[j].op, links[i].op))
    && (forall j | i < j < |links| :: After(t, links[i].op, links[j].op))
  }

  /** There is always such an operator. */
  lemma {:induction false} RootExists<V>(t: Table, links: seq<Link<V>>) returns (i: nat)
    requires AllBinary(t, links) && links != []
    ensures IsRoot(t, links, i)
    decreases |links|
  {
    if |links| == 1 {
      i := 0;
    } else {
      var n := |links| - 1;
      var k := RootExists(t, links[..n]);
      assert links[..n][k] == links[k];
      if After(t, links[k].op, links[n].op) {
        i := k;
      } else {
        i := n;
        forall j | 0 <= j < n
          ensures Before(t, links[j].op, links[n].op)
        {
          assert links[..n][j] == links[j];
        }
      }
    }
  }

  /** A tree that prints as the chain and fits, with only operators of the chain at its edges. */
  ghost predicate TreeOf<V>(t: Table, e: Expr<V>, first: Atom<V>, links: seq<Link<V>>) {
    && Known(t, e) && Fits(t, e) && Print(e) == Chain(first, links)
    && (forall op | op in LeftEdge(e) || op in RightEdge(e) :: exists j :: 0 <= j < |links| && links[j].op == op)
  }

  lemma {:induction false} ChainSplits<V>(first: Atom<V>, links: seq<Link<V>>, i: nat)
    requires i < |links|
    ensures Chain(first, links) == Chain(first, links[..i]) + [Op(links[i].op)] + Chain(links[i].atom, links[i + 1..])
    decreases i
  {
    if i > 0 {
      ChainSplits(links[0].atom, links[1..], i - 1);
      assert links[1..][..i - 1] == links[..i][1..] && links[1..][i..] == links[i + 1..];
    }
  }

  /** Trees of the chains on both sides of the root make a tree of the chain. */
  lemma JoinAtRoot<V>(t: Table, first: Atom<V>, links: seq<Link<V>>, i: nat, l: Expr<V>, r: Expr<V>)
    requires AllBinary(t, links) && IsRoot(t, links, i)
    requires TreeOf(t, l, first, links[..i]) && TreeOf(t, r, links[i].atom, links[i + 1..])
    ensures TreeOf(t, Binary(links[i].op, l, r), first, links)
  {
    var root := links[i].op;
    ChainSplits(first, links, i);
    assert Fits(t, Binary(root, l, r)) && Known(t, Binary(root, l, r)) by {
      hide Print;
      forall op | op in RightEdge(l)
        ensures t.Pops(root, op)
      {
        var j :| 0 <= j < i && links[..i][j].op == op;
        assert Before(t, links[j].op, root);
      }
      forall op | op in LeftEdge(r)
        ensures !t.Pops(op, root)
      {
        var j :| 0 <= j < |links| - (i + 1) && links[i + 1..][j].op == op;
        assert After(t, root, links[i + 1 + j].op);
      }
    }
    EdgesAtRoot(t, first, links, i, l, r);
    assert Print(Binary(root, l, r)) == Print(l) + [Op(root)] + Print(r);
  }

  lemma EdgesAtRoot<V>(t: Table, first: Atom<V>, links: seq<Link<V>>, i: nat, l: Expr<V>, r: Expr<V>)
    requires i < |links| && TreeOf(t, l, first, links[..i]) && TreeOf(t, r, links[i].atom, links[i + 1..])
    ensures var e := Binary(links[i].op, l, r);
      forall op | op in LeftEdge(e) || op in RightEdge(e) :: exists j :: 0 <= j < |links| && links[j].op == op
  {
    var e := Binary(links[i].op, l, r);
    forall op | op in LeftEdge(e) || op in RightEdge(e)
      ensures exists j :: 0 <= j < |links| && links[j].op == op
    {
      if op in LeftEdge(l) {
        var j :| 0 <= j < i && links[..i][j].op == op;
        assert links[j].op == op;
      } else if op in RightEdge(r) {
        var j :| 0 <= j < |links| - (i + 1) && links[i + 1..][j].op == op;
        assert links[i + 1 + j].op == op;
      } else {
        assert op == links[i].op;
      }
    }
  }

  lemma {:induction false} ChainTree<V>(t: Table, first: Atom<V>, links: seq<Link<V>>) returns (e: Expr<V>)
    requires AllBinary(t, links)
    ensures TreeOf(t, e, first, links)
    decreases |links|
  {
    if links == [] {
      e := Leaf(first);
    } else {
      var i := RootExists(t, links);
      var l := ChainTree(t, first, links[..i]);
      var r := ChainTree(t, links[i].atom, links[i + 1..]);
      JoinAtRoot(t, first, links, i, l, r);
      e := Binary(links[i].op, l, r);
    }
  }

  /**
   Precedence and associativity: the code of a chain is that of the chain before its root, that of the
   chain after it, and the root operator.
   */
  lemma ChainGroups<V>(t: Table, scope: map<string, V>, first: Atom<V>, links: seq<Link<V>>, i: nat)
    requires t.Sane() && AllBinary(t, links) && IsRoot(t, links, i)
    ensures var l, r := Compile(t, scope, Chain(first, links[..i])),
      Compile(t, scope, Chain(links[i].atom, links[i + 1..]));
      l.Ok? && r.Ok? && Compile(t, scope, Chain(first, links)) == Ok(l.value + r.value + [Operator(links[i].op)])
  {
    var l := ChainTree(t, first, links[..i]);
    var r := ChainTree(t, links[i].atom, links[i + 1..]);
    JoinAtRoot(t, first, links, i, l, r);
    hide Compile, IsRoot;
    CompilePrinted(t, scope, l);
    CompilePrinted(t, scope, r);
    CompilePrinted(t, scope, Binary(links[i].op, l, r));
  }

  /** One operand is its own code. */
  lemma NoLinks<V>(t: Table, scope: map<string, V>, a: Atom<V>)
    requires t.Sane()
    ensures Compile(t, scope, Chain(a, [])) == Ok([Compiled(scope, a)])
  {
    assert Print(Leaf(a)) == Chain(a, []);
    CompilePrinted(t, scope, Leaf(a));
    hide Compile;
  }

  lemma OneBinary<V>(t: Table, scope: map<string, V>, p: string, a: Atom<V>, b: Atom<V>)
    requires t.Sane() && IsBinary(t, p)
    ensures Compile(t, scope, Chain(a, [Link(p, b)])) == Ok([Compiled(scope, a), Compiled(scope, b), Operator(p)])
  {
    var links := [Link(p, b)];
    assert links[..0] == [] && links[1..] == [];
    NoLinks(t, scope, a);
    NoLinks(t, scope, b);
    ChainGroups(t, scope, a, links, 0);
    hide Compile;
    var x, y: Rpn<V> := Compiled(scope, a), Compiled(scope, b);
    assert [x] + [y] + [Operator(p)] == [x, y, Operator(p)];
  }

  lemma ChainOfTwo<V>(p: string, q: string, a: Atom<V>, b: Atom<V>, c: Atom<V>)
    ensures Chain(a, [Link(p, b), Link(q, c)]) == [Operand(a), Op(p), Operand(b), Op(q), Operand(c)]
  {
    var last: seq<Link<V>> := [Link(q, c)];
    assert [Link(p, b), Link(q, c)][1..] == last && last[1..] == [];
    assert Chain(c, []) == [Operand(c)];
    assert Chain(b, last) == [Operand(b), Op(q), Operand(c)];
  }

  // Two operators with one operand between them: which of them gets it.

  /** Binary operators: the second one waits if it is looser, or of the same level and left to right. */
  lemma TwoBinary<V>(t: Table, scope: map<string, V>, p: string, q: string, a: Atom<V>, b: Atom<V>, c: Atom<V>)
    requires t.Sane() && IsBinary(t, p) && IsBinary(t, q)
    ensures var x, y, z := Compiled(scope, a), Compiled(scope, b), Compiled(scope, c);
      Compile(t, scope, [Operand(a), Op(p), Operand(b), Op(q), Operand(c)]) ==
      if t.prec[q] > t.prec[p] || (t.prec[q] == t.prec[p] && q !in t.rtol)
      then Ok([x, y, Operator(p), z, Operator(q)]) else Ok([x, y, z, Operator(q), Operator(p)])
  {
    var links := [Link(p, b), Link(q, c)];
    hide Compile, Chain;
    ChainOfTwo(p, q, a, b, c);
    var x, y, z: Rpn<V> := Compiled(scope, a), Compiled(scope, b), Compiled(scope, c);
    assert [x, y, Operator(p)] + [z] + [Operator(q)] == [x, y, Operator(p), z, Operator(q)];
    assert [x] + [y, z, Operator(q)] + [Operator(p)] == [x, y, z, Operator(q), Operator(p)];
    if t.prec[q] > t.prec[p] || (t.prec[q] == t.prec[p] && q !in t.rtol) {
      assert links[..1] == [Link(p, b)] && links[2..] == [];
      OneBinary(t, scope, p, a, b);
      NoLinks(t, scope, c);
      ChainGroups(t, scope, a, links, 1);
    } else {
      assert links[..0] == [] && links[1..] == [Link(q, c)];
      NoLinks(t, scope, a);
      OneBinary(t, scope, q, b, c);
      ChainGroups(t, scope, a, links, 0);
    }
  }

  predicate IsPrefix(t: Table, op: string) {
    Plain(op) && t.Exists(op) && t.Exists("L" + op)
  }

  predicate IsPostfix(t: Table, op: string) {
    Plain(op) && t.Exists(op) && t.Exists("R" + op)
  }

  /** What there is to know of a tree of one operator. */
  ghost predicate Simple<V>(t: Table, scope: map<string, V>, e: Expr<V>, toks: seq<Token<V>>, code: seq<Rpn<V>>,
                            left: seq<string>, right: seq<string>)
  {
    && Known(t, e) && Fits(t, e) && Print(e) == toks && Postorder(scope, e) == code
    && LeftEdge(e) == left && RightEdge(e) == right
  }

  lemma LeafIsSimple<V>(t: Table, scope: map<string, V>, a: Atom<V>)
    ensures Simple(t, scope, Leaf(a), [Operand(a)], [Compiled(scope, a)], [], [])
  {
  }

  lemma BinaryIsSimple<V>(t: Table, scope: map<string, V>, op: string, a: Atom<V>, b: Atom<V>)
    requires IsBinary(t, op)
    ensures Simple(t, scope, Binary(op, Leaf(a), Leaf(b)), [Operand(a), Op(op), Operand(b)],
                   [Compiled(scope, a), Compiled(scope, b), Operator(op)], [op], [op])
  {
    LeafIsSimple(t, scope, a);
    LeafIsSimple(t, scope, b);
  }

  lemma PrefixIsSimple<V>(t: Table, scope: map<string, V>, op: string, a: Atom<V>)
    requires IsPrefix(t, op)
    ensures Simple(t, scope, Prefix(op, Leaf(a)), [Op(op), Operand(a)], [Unary, Compiled(scope, a), Operator(op)],
                   [], ["L" + op])
  {
    LeafIsSimple(t, scope, a);
  }

  lemma PostfixIsSimple<V>(t: Table, scope: map<string, V>, op: string, a: Atom<V>)
    requires IsPostfix(t, op)
    ensures Simple(t, scope, Postfix(op, Leaf(a)), [Operand(a), Op(op)], [Compiled(scope, a), Unary, Operator(op)],
                   ["R" + op], [])
  {
    LeafIsSimple(t, scope, a);
  }

  lemma CompileSimple<V>(t: Table, scope: map<string, V>, e: Expr<V>, toks: seq<Token<V>>)
    requires t.Sane() && Known(t, e) && Fits(t, e) && Print(e) == toks
    ensures Compile(t, scope, toks) == Ok(Postorder(scope, e))
  {
    CompilePrinted(t, scope, e);
  }

  /** A prefix operator and a binary one after its operand. */
  lemma PrefixThenBinary<V>(t: Table, scope: map<string, V>, p: string, q: string, a: Atom<V>, b: Atom<V>)
    requires t.Sane() && IsPrefix(t, p) && IsBinary(t, q)
    ensures var x, y := Compiled(scope, a), Compiled(scope, b);
      Compile(t, scope, [Op(p), Operand(a), Op(q), Operand(b)]) ==
      if t.prec[q] > t.prec["L" + p] || (t.prec[q] == t.prec["L" + p] && q !in t.rtol)
      then Ok([Unary, x, Operator(p), y, Operator(q)]) else Ok([Unary, x, y, Operator(q), Operator(p)])
  {
    PrefixIsSimple(t, scope, p, a);
    BinaryIsSimple(t, scope, q, a, b);
    LeafIsSimple(t, scope, b);
    hide Compile;
    var x, y: Rpn<V> := Compiled(scope, a), Compiled(scope, b);
    if t.Pops(q, "L" + p) {
      assert [Unary, x, Operator(p)] + [y] + [Operator(q)] == [Unary, x, Operator(p), y, Operator(q)];
      CompileSimple(t, scope, Binary(q, Prefix(p, Leaf(a)), Leaf(b)), [Op(p), Operand(a), Op(q), Operand(b)]);
    } else {
      assert [Unary] + [x, y, Operator(q)] + [Operator(p)] == [Unary, x, y, Operator(q), Operator(p)];
      CompileSimple(t, scope, Prefix(p, Binary(q, Leaf(a), Leaf(b))), [Op(p), Operand(a), Op(q), Operand(b)]);
    }
  }

  /** A binary operator and a postfix one after its right operand. */
  lemma BinaryThenPostfix<V>(t: Table, scope: map<string, V>, p: string, q: string, a: Atom<V>, b: Atom<V>)
    requires t.Sane() && IsBinary(t, p) && IsPostfix(t, q)
    ensures var x, y := Compiled(scope, a), Compiled(scope, b);
      Compile(t, scope, [Operand(a), Op(p), Operand(b), Op(q)]) ==
      if t.prec["R" + q] > t.prec[p] || (t.prec["R" + q] == t.prec[p] && "R" + q !in t.rtol)
      then Ok([x, y, Operator(p), Unary, Operator(q)]) else Ok([x, y, Unary, Operator(q), Operator(p)])
  {
    BinaryIsSimple(t, scope, p, a, b);
    PostfixIsSimple(t, scope, q, b);
    LeafIsSimple(t, scope, a);
    hide Compile;
    var x, y: Rpn<V> := Compiled(scope, a), Compiled(scope, b);
    if t.Pops("R" + q, p) {
      assert [x, y, Operator(p)] + [Unary, Operator(q)] == [x, y, Operator(p), Unary, Operator(q)];
      CompileSimple(t, scope, Postfix(q, Binary(p, Leaf(a), Leaf(b))), [Operand(a), Op(p), Operand(b), Op(q)]);
    } else {
      assert [x] + [y, Unary, Operator(q)] + [Operator(p)] == [x, y, Unary, Operator(q), Operator(p)];
      CompileSimple(t, scope, Binary(p, Leaf(a), Postfix(q, Leaf(b))), [Operand(a), Op(p), Operand(b), Op(q)]);
    }
  }

  /** A prefix operator and a postfix one after its operand. */
  lemma PrefixThenPostfix<V>(t: Table, scope: map<string, V>, p: string, q: string, a: Atom<V>)
    requires t.Sane() && IsPrefix(t, p) && IsPostfix(t, q)
    ensures var x := Compiled(scope, a);
      Compile(t, scope, [Op(p), Operand(a), Op(q)]) ==
      if t.prec["R" + q] > t.prec["L" + p] || (t.prec["R" + q] == t.prec["L" + p] && "R" + q !in t.rtol)
      then Ok([Unary, x, Operator(p), Unary, Operator(q)]) else Ok([Unary, x, Unary, Operator(q), Operator(p)])
  {
    PrefixIsSimple(t, scope, p, a);
    PostfixIsSimple(t, scope, q, a);
    hide Compile;
    var x: Rpn<V> := Compiled(scope, a);
    if t.Pops("R" + q, "L" + p) {
      assert [Unary, x, Operator(p)] + [Unary, Operator(q)] == [Unary, x, Operator(p), Unary, Operator(q)];
      CompileSimple(t, scope, Postfix(q, Prefix(p, Leaf(a))), [Op(p), Operand(a), Op(q)]);
    } else {
      assert [Unary] + [x, Unary, Operator(q)] + [Operator(p)] == [Unary, x, Unary, Operator(q), Operator(p)];
      CompileSimple(t, scope, Prefix(p, Postfix(q, Leaf(a))), [Op(p), Operand(a), Op(q)]);
    }
  }

  /** A prefix operator after a binary one takes no operand away from it, whatever their levels. */
  lemma BinaryThenPrefix<V>(t: Table, scope: map<string, V>, p: string, q: string, a: Atom<V>, b: Atom<V>)
    requires t.Sane() && IsBinary(t, p) && IsPrefix(t, q)
    ensures Compile(t, scope, [Operand(a), Op(p), Op(q), Operand(b)])
         == Ok([Compiled(scope, a), Unary, Compiled(scope, b), Operator(q), Operator(p)])
  {
    PrefixIsSimple(t, scope, q, b);
    LeafIsSimple(t, scope, a);
    hide Compile;
    var x, y: Rpn<V> := Compiled(scope, a), Compiled(scope, b);
    assert [x] + [Unary, y, Operator(q)] + [Operator(p)] == [x, Unary, y, Operator(q), Operator(p)];
    CompileSimple(t, scope, Binary(p, Leaf(a), Prefix(q, Leaf(b))), [Operand(a), Op(p), Op(q), Operand(b)]);
  }

  // Brackets.

  /** A call and an index are operators of their own; brackets around an operand leave nothing in the code. */
  lemma Brackets<V>(t: Table, scope: map<string, V>, f: Atom<V>, a: Atom<V>)
    requires t.Sane()
    ensures var x, y := Compiled(scope, f), Compiled(scope, a);
      && Compile(t, scope, [Operand(f), Token.Open(Round), Operand(a), Close(Round)]) == Ok([x, y, Operator("()")])
      && Compile(t, scope, [Operand(f), Token.Open(Square), Operand(a), Close(Square)]) == Ok([x, y, Operator("[]")])
      && Compile(t, scope, [Operand(f), Token.Open(Round), Close(Round)]) == Ok([x, EmptyTuple, Operator("()")])
      && Compile(t, scope, [Token.Open(Round), Operand(a), Close(Round)]) == Ok([y])
  {
    LeafIsSimple(t, scope, f);
    LeafIsSimple(t, scope, a);
    hide Compile;
    var l: Expr<V>, body: Body<V> := Leaf(f), Inside(Leaf(a));
    var x, y: Rpn<V> := Compiled(scope, f), Compiled(scope, a);
    assert [x] + [y] + [Operator("()")] == [x, y, Operator("()")];
    assert [x] + [y] + [Operator("[]")] == [x, y, Operator("[]")];
    assert [x] + [EmptyTuple] + [Operator("()")] == [x, EmptyTuple, Operator("()")];
    InsideIsSimple(t, scope, Round, a);
    InsideIsSimple(t, scope, Square, a);
    CompileSimple(t, scope, Apply(l, Round, body), [Operand(f), Token.Open(Round), Operand(a), Close(Round)]);
    CompileSimple(t, scope, Apply(l, Square, body), [Operand(f), Token.Open(Square), Operand(a), Close(Square)]);
    CompileSimple(t, scope, Apply(l, Round, Nothing), [Operand(f), Token.Open(Round), Close(Round)]);
    CompileSimple(t, scope, Group(body), [Token.Open(Round), Operand(a), Close(Round)]);
  }

  lemma InsideIsSimple<V>(t: Table, scope: map<string, V>, b: Bracket, a: Atom<V>)
    ensures var body: Body<V> := Inside(Leaf(a));
      && KnownBody(t, body) && FitsBody(t, body) && PrintRest(b, body) == [Operand(a), Close(b)]
      && PostorderBody(scope, body) == [Compiled(scope, a)]
  {
    LeafIsSimple(t, scope, a);
  }

  /** A list or a map is a call of its constructor. */
  lemma Literals<V>(t: Table, scope: map<string, V>, b: Bracket, a: Atom<V>)
    requires t.Sane() && b != Round
    ensures Compile(t, scope, [Token.Open(b), Operand(a), Close(b)])
         == Ok([Rpn.Constructor(b), Compiled(scope, a), Operator("()")])
  {
    InsideIsSimple(t, scope, b, a);
    hide Compile;
    var c, y: Rpn<V> := Rpn.Constructor(b), Compiled(scope, a);
    assert [c] + [y] + [Operator("()")] == [c, y, Operator("()")];
    CompileSimple(t, scope, Literal(b, Inside(Leaf(a))), [Token.Open(b), Operand(a), Close(b)]);
  }

  /** A call right after the operand of a binary operator: it takes the operand, or what the operator has made of it. */
  lemma BinaryThenCall<V>(t: Table, scope: map<string, V>, p: string, a: Atom<V>, f: Atom<V>, b: Atom<V>)
    requires t.Sane() && IsBinary(t, p)
    ensures var x, y, z := Compiled(scope, a), Compiled(scope, f), Compiled(scope, b);
      Compile(t, scope, [Operand(a), Op(p), Operand(f), Token.Open(Round), Operand(b), Close(Round)]) ==
      if t.prec["()"] > t.prec[p] || (t.prec["()"] == t.prec[p] && "()" !in t.rtol)
      then Ok([x, y, Operator(p), z, Operator("()")]) else Ok([x, y, z, Operator("()"), Operator(p)])
  {
    BinaryIsSimple(t, scope, p, a, f);
    LeafIsSimple(t, scope, a);
    LeafIsSimple(t, scope, f);
    InsideIsSimple(t, scope, Round, b);
    hide Compile;
    var toks: seq<Token<V>> := [Operand(a), Op(p), Operand(f), Token.Open(Round), Operand(b), Close(Round)];
    var x, y, z: Rpn<V> := Compiled(scope, a), Compiled(scope, f), Compiled(scope, b);
    var body: Body<V> := Inside(Leaf(b));
    assert toks == [Operand(a), Op(p), Operand(f)] + [Token.Open(Round)] + [Operand(b), Close(Round)];
    assert toks == [Operand(a)] + [Op(p)] + ([Operand(f)] + [Token.Open(Round)] + [Operand(b), Close(Round)]);
    if t.Pops("()", p) {
      assert [x, y, Operator(p)] + [z] + [Operator("()")] == [x, y, Operator(p), z, Operator("()")];
      CompileSimple(t, scope, Apply(Binary(p, Leaf(a), Leaf(f)), Round, body), toks);
    } else {
      assert [x] + ([y] + [z] + [Operator("()")]) + [Operator(p)] == [x, y, z, Operator("()"), Operator(p)];
      CompileSimple(t, scope, Binary(p, Leaf(a), Apply(Leaf(f), Round, body)), toks);
    }
  }

  /** A binary operator after a call waits for it, as all the built-in ones do, unless it binds tighter than calls. */
  lemma CallThenBinary<V>(t: Table, scope: map<string, V>, q: string, f: Atom<V>, b: Atom<V>, c: Atom<V>)
    requires t.Sane() && IsBinary(t, q)
    requires t.prec[q] > t.prec["()"] || (t.prec[q] == t.prec["()"] && q !in t.rtol)
    ensures Compile(t, scope, [Operand(f), Token.Open(Round), Operand(b), Close(Round), Op(q), Operand(c)])
         == Ok([Compiled(scope, f), Compiled(scope, b), Operator("()"), Compiled(scope, c), Operator(q)])
  {
    LeafIsSimple(t, scope, f);
    LeafIsSimple(t, scope, c);
    InsideIsSimple(t, scope, Round, b);
    hide Compile;
    var toks: seq<Token<V>> := [Operand(f), Token.Open(Round), Operand(b), Close(Round), Op(q), Operand(c)];
    var x, y, z: Rpn<V> := Compiled(scope, f), Compiled(scope, b), Compiled(scope, c);
    assert toks == [Operand(f)] + [Token.Open(Round)] + [Operand(b), Close(Round)] + [Op(q)] + [Operand(c)];
    assert [x] + [y] + [Operator("()")] + [z] + [Operator(q)] == [x, y, Operator("()"), z, Operator(q)];
    CompileSimple(t, scope, Binary(q, Apply(Leaf(f), Round, Inside(Leaf(b))), Leaf(c)), toks);
  }

  // Values.

  lemma RunNext<V>(sem: Semantics<V>, scope: map<string, V>, stack: seq<Rpn<V>>, x: Rpn<V>, rest: seq<Rpn<V>>)
    ensures var r := Step(sem, scope, stack, x);
      Run(sem, scope, stack, [x] + rest) == if r.Ok? then Run(sem, scope, r.value, rest) else Err(r.error)
  {
    assert ([x] + rest)[1..] == rest;
  }

  /** An operator is applied to the value pushed first and the one pushed last, in this order. */
  lemma RunOperator<V>(sem: Semantics<V>, scope: map<string, V>, x: V, y: V, op: string, rest: seq<Rpn<V>>)
    ensures var r := sem(op, Value(x), Value(y));
      Run(sem, scope, [Value(x)], [Value(y), Operator(op)] + rest)
        == if r.Ok? then Run(sem, scope, [Value(r.value)], rest) else Err(r.error)
  {
    assert [Value(y), Operator(op)] + rest == [Value(y)] + ([Operator(op)] + rest);
    RunNext(sem, scope, [Value(x)], Value(y), [Operator(op)] + rest);
    assert [Value(x)] + [Value(y)] == [Value(x), Value(y)];
    RunNext(sem, scope, [Value(x), Value(y)], Operator(op), rest);
    hide Run;
    if sem(op, Value(x), Value(y)).Ok? {
      assert [Value(x), Value(y)][..0] + [Value(sem(op, Value(x), Value(y)).value)]
        == [Value(sem(op, Value(x), Value(y)).value)];
    }
  }

  /** x op y op z, for an operator that goes from left to right: op of op of x and y, and z. */
  lemma LeftToRight<V>(t: Table, sem: Semantics<V>, compiled: map<string, V>, scope: map<string, V>, op: string,
                       x: V, y: V, z: V)
    requires t.Sane() && IsBinary(t, op) && op !in t.rtol
    ensures var toks := [Operand(Const(x)), Op(op), Operand(Const(y)), Op(op), Operand(Const(z))];
      var r := sem(op, Value(x), Value(y));
      CompileThenEvaluate(t, sem, compiled, scope, toks)
        == Some(if r.Ok? then Computed(sem(op, Value(r.value), Value(z))) else Err(r.error))
  {
    TwoBinary(t, compiled, op, op, Const(x), Const(y), Const(z));
    hide Compile;
    var code: seq<Rpn<V>> := [Value(x), Value(y), Operator(op), Value(z), Operator(op)];
    var rest: seq<Rpn<V>> := [Value(z), Operator(op)];
    assert code == [Value(x)] + ([Value(y), Operator(op)] + rest);
    RunNext(sem, scope, [], Value(x), [Value(y), Operator(op)] + rest);
    assert [] + [Value(x)] == [Value(x)];
    RunOperator(sem, scope, x, y, op, rest);
    if sem(op, Value(x), Value(y)).Ok? {
      assert rest + [] == rest;
      RunOperator(sem, scope, sem(op, Value(x), Value(y)).value, z, op, []);
    }
  }
}
