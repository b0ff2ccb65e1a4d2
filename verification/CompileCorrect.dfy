/** The compiler turns every printed tree that fits into the code of that tree. */
module CompileCorrect {
  import opened Wrappers
  import opened PrecedenceTable
  import opened RpnBuilder
  import opened ExprTree

  /** What the compiler has written when the last token of e has arrived; RightEdge(e) is still stacked. */
  function Early<V>(scope: map<string, V>, e: Expr<V>): seq<Rpn<V>> {
    match e
    case Binary(op, l, r) => Postorder(scope, l) + Early(scope, r)
    case Prefix(op, x) => [Unary] + Early(scope, x)
    case Apply(h, b, x) => Postorder(scope, h) + PostorderBody(scope, x)
    case Literal(b, x) => [Rpn.Constructor(b)] + PostorderBody(scope, x)
    case _ => Postorder(scope, e)
  }

  lemma {:induction false} EmitCons<V>(op: string, rest: seq<string>)
    ensures Emit<V>([op] + rest) == Emit<V>(rest) + [Operator(Normalize(op))]
    decreases |rest|
  {
    var all := [op] + rest;
    if rest == [] {
      assert all == [op] && Front(all) == [];
    } else {
      assert Front(all) == [op] + Front(rest) && Last(all) == Last(rest);
      EmitCons<V>(op, Front(rest));
    }
  }

  /** Closing what is still stacked completes the code. */
  lemma {:induction false} EarlyThenEdge<V>(t: Table, scope: map<string, V>, e: Expr<V>)
    requires Known(t, e)
    ensures Early(scope, e) + Emit(RightEdge(e)) == Postorder(scope, e)
    decreases e
  {
    match e
    case Binary(op, l, r) =>
      EarlyThenEdge(t, scope, r);
      JoinEdge(Postorder(scope, l), Early(scope, r), op, RightEdge(r));
    case Prefix(op, x) =>
      EarlyThenEdge(t, scope, x);
      assert Normalize("L" + op) == op;
      JoinEdge([Unary], Early(scope, x), "L" + op, RightEdge(x));
    case Apply(h, b, x) => EmitCons<V>(ApplyName(b), []);
    case Literal(b, x) => EmitCons<V>("()", []);
    case _ =>
  }

  lemma JoinEdge<V>(before: seq<Rpn<V>>, early: seq<Rpn<V>>, op: string, edge: seq<string>)
    ensures before + early + Emit([op] + edge) == before + (early + Emit(edge)) + [Operator(Normalize(op))]
  {
    EmitCons<V>(op, edge);
  }

  lemma {:induction false} PopWhileExact<V>(t: Table, op: string, rpn: seq<Rpn<V>>, base: seq<string>,
                                            edge: seq<string>)
    requires ClosesAll(t, op, edge)
    requires base == [] || !t.Pops(op, Last(base))
    ensures PopWhile(t, op, rpn, base + edge) == (rpn + Emit(edge), base)
    decreases |edge|
  {
    if edge == [] {
      assert base + edge == base && rpn + Emit(edge) == rpn;
    } else {
      assert Front(base + edge) == base + Front(edge) && Last(base + edge) == Last(edge);
      var out := Operator(Normalize(Last(edge)));
      PopWhileExact(t, op, rpn + [out], base, Front(edge));
      assert rpn + [out] + Emit(Front(edge)) == rpn + Emit(edge);
    }
  }

  lemma {:induction false} PopUntilExact<V>(name: string, rpn: seq<Rpn<V>>, base: seq<string>, edge: seq<string>)
    requires name !in edge
    ensures PopUntil(name, rpn, base + [name] + edge) == (rpn + Emit(edge), base + [name])
    decreases |edge|
  {
    var ops := base + [name] + edge;
    if edge == [] {
      assert ops == base + [name] && rpn + Emit(edge) == rpn;
    } else {
      assert Front(ops) == base + [name] + Front(edge) && Last(ops) == Last(edge);
      var out := Operator(Normalize(Last(edge)));
      PopUntilExact(name, rpn + [out], base, Front(edge));
      assert rpn + [out] + Emit(Front(edge)) == rpn + Emit(edge);
    }
  }

  lemma {:induction false} FeedAllAppend<V>(t: Table, scope: map<string, V>, s: State<V>, a: seq<Token<V>>,
                                            b: seq<Token<V>>)
    ensures FeedAll(t, scope, s, a + b)
         == (var r := FeedAll(t, scope, s, a); if r.Err? then r else FeedAll(t, scope, r.value, b))
    decreases |a|
  {
    if a == [] {
      assert a + b == b;
    } else {
      assert (a + b)[1..] == a[1..] + b;
      var r := Feed(t, scope, s, a[0]);
      if r.Ok? {
        FeedAllAppend(t, scope, r.value, a[1..], b);
      }
    }
  }

  /** Feeding tokens a, then one token, then tokens b. */
  lemma FeedChain<V>(t: Table, scope: map<string, V>, s: State<V>, a: seq<Token<V>>, tok: Token<V>, b: seq<Token<V>>,
                     s1: State<V>, s2: State<V>)
    requires FeedAll(t, scope, s, a) == Ok(s1) && Feed(t, scope, s1, tok) == Ok(s2)
    ensures FeedAll(t, scope, s, a + [tok] + b) == FeedAll(t, scope, s2, b)
  {
    assert a + [tok] + b == a + ([tok] + b);
    FeedAllAppend(t, scope, s, a, [tok] + b);
    assert ([tok] + b)[1..] == b;
  }

  /** Feeding one token, then tokens b. */
  lemma FeedFirst<V>(t: Table, scope: map<string, V>, s: State<V>, tok: Token<V>, b: seq<Token<V>>, s1: State<V>)
    requires Feed(t, scope, s, tok) == Ok(s1)
    ensures FeedAll(t, scope, s, [tok] + b) == FeedAll(t, scope, s1, b)
  {
    assert ([tok] + b)[1..] == b;
  }

  lemma BinaryStep<V>(t: Table, s: State<V>, op: string, rpn: seq<Rpn<V>>, ops: seq<string>)
    requires s.lastOp == NOT_OP && t.Exists(op) && !t.Exists("R" + op)
    requires PopWhile(t, op, s.rpn, s.ops) == (rpn, ops)
    ensures HandleOp(t, s, op) == Ok(State(rpn, ops + [op], FirstChar(op), false))
  {
  }

  lemma {:induction false} RightEdgeIsKnown<V>(t: Table, e: Expr<V>)
    requires Known(t, e)
    ensures forall b | b in OPEN_NAMES :: b !in RightEdge(e)
    decreases e
  {
    match e
    case Binary(op, l, r) => RightEdgeIsKnown(t, r);
    case Prefix(op, x) => RightEdgeIsKnown(t, x);
    case _ =>
  }

  predicate Waiting<V>(t: Table, s: State<V>, edge: seq<string>) {
    s.ops == [] || ClosesNone(t, edge, Last(s.ops))
  }

  ghost function After<V>(scope: map<string, V>, s: State<V>, e: Expr<V>): State<V> {
    State(s.rpn + Early(scope, e), s.ops + RightEdge(e), NOT_OP, false)
  }

  /** A bracket right after an operand stands for a binary operator. */
  lemma ApplyStep<V>(t: Table, scope: map<string, V>, s: State<V>, b: Bracket, rpn: seq<Rpn<V>>, ops: seq<string>)
    requires t.Sane() && b != Curly && s.lastOp == NOT_OP
    requires PopWhile(t, ApplyName(b), s.rpn, s.ops) == (rpn, ops)
    ensures Feed(t, scope, s, Open(b))
         == Ok(OpenBracket(State(rpn, ops + [ApplyName(b)], FirstChar(ApplyName(b)), false), b))
  {
    assert "R" + ApplyName(b) == "R()" || "R" + ApplyName(b) == "R[]";
    BinaryStep(t, s, ApplyName(b), rpn, ops);
  }

  lemma AfterBinary<V>(scope: map<string, V>, s: State<V>, op: string, l: Expr<V>, r: Expr<V>)
    ensures After(scope, State(s.rpn + Postorder(scope, l), s.ops + [op], FirstChar(op), false), r)
         == After(scope, s, Binary(op, l, r))
  {
  }

  lemma AfterPrefix<V>(scope: map<string, V>, s: State<V>, op: string, x: Expr<V>)
    ensures After(scope, State(s.rpn + [Unary], s.ops + ["L" + op], FirstChar(op), true), x)
         == After(scope, s, Prefix(op, x))
  {
  }

  lemma AfterApply<V>(scope: map<string, V>, s: State<V>, h: Expr<V>, b: Bracket, x: Body<V>)
    ensures State(s.rpn + Postorder(scope, h) + PostorderBody(scope, x), s.ops + [ApplyName(b)], NOT_OP, false)
         == After(scope, s, Apply(h, b, x))
  {
  }

  lemma AfterLiteral<V>(scope: map<string, V>, s: State<V>, b: Bracket, x: Body<V>)
    ensures State(s.rpn + [Rpn.Constructor(b)] + PostorderBody(scope, x), s.ops + ["()"], NOT_OP, false)
         == After(scope, s, Literal(b, x))
  {
  }

  /** The printed tree, fed where an operand is due, leaves exactly its code and its right edge behind. */
  lemma {:induction false} FeedTree<V>(t: Table, scope: map<string, V>, s: State<V>, e: Expr<V>)
    requires t.Sane() && Known(t, e) && Fits(t, e)
    requires s.lastOp != NOT_OP && Waiting(t, s, LeftEdge(e))
    ensures FeedAll(t, scope, s, Print(e)) == Ok(After(scope, s, e))
    decreases e, 1
  {
    match e
    case Leaf(a) =>
      FeedFirst(t, scope, s, Operand(a), [], HandleToken(s, Compiled(scope, a)));
      assert [Operand(a)] + [] == Print(e);
      assert s.ops + RightEdge(e) == s.ops;
    case Binary(op, l, r) => FeedBinary(t, scope, s, e);
    case Prefix(op, x) => FeedPrefix(t, scope, s, e);
    case Postfix(op, x) => FeedPostfix(t, scope, s, e);
    case Group(b) =>
      FeedFirst(t, scope, s, Open(Round), PrintRest(Round, b), OpenBracket(s, Round));
      FeedBody(t, scope, s, Round, b);
      assert s.ops + RightEdge(e) == s.ops;
    case Apply(h, b, x) => FeedApply(t, scope, s, e);
    case Literal(b, x) => FeedLiteral(t, scope, s, e);
  }

  lemma {:induction false} FeedBinary<V>(t: Table, scope: map<string, V>, s: State<V>, e: Expr<V>)
    requires e.Binary?
    requires t.Sane() && Known(t, e) && Fits(t, e)
    requires s.lastOp != NOT_OP && Waiting(t, s, LeftEdge(e))
    ensures FeedAll(t, scope, s, Print(e)) == Ok(After(scope, s, e))
    decreases e, 0
  {
    var Binary(op, l, r) := e;
    WaitingSplit(t, s, op, LeftEdge(l));
    FeedTree(t, scope, s, l);
    CloseLeftOperand(t, scope, s, op, l);
    var s1 := After(scope, s, l);
    var s2 := State(s.rpn + Postorder(scope, l), s.ops + [op], FirstChar(op), false);
    BinaryStep(t, s1, op, s2.rpn, s.ops);
    FeedChain(t, scope, s, Print(l), Op(op), Print(r), s1, s2);
    assert Waiting(t, s2, LeftEdge(r));
    FeedTree(t, scope, s2, r);
    AfterBinary(scope, s, op, l, r);
  }

  lemma {:induction false} FeedPrefix<V>(t: Table, scope: map<string, V>, s: State<V>, e: Expr<V>)
    requires e.Prefix?
    requires t.Sane() && Known(t, e) && Fits(t, e)
    requires s.lastOp != NOT_OP && Waiting(t, s, LeftEdge(e))
    ensures FeedAll(t, scope, s, Print(e)) == Ok(After(scope, s, e))
    decreases e, 0
  {
    var Prefix(op, x) := e;
    var s1 := State(s.rpn + [Unary], s.ops + ["L" + op], FirstChar(op), true);
    FeedFirst(t, scope, s, Op(op), Print(x), s1);
    FeedTree(t, scope, s1, x);
    AfterPrefix(scope, s, op, x);
  }

  lemma WaitingSplit<V>(t: Table, s: State<V>, op: string, edge: seq<string>)
    requires Waiting(t, s, [op] + edge)
    ensures Waiting(t, s, edge) && (s.ops == [] || !t.Pops(op, Last(s.ops)))
  {
    assert op in [op] + edge;
  }

  /** The operator that follows a left operand closes it. */
  lemma CloseLeftOperand<V>(t: Table, scope: map<string, V>, s: State<V>, op: string, l: Expr<V>)
    requires Known(t, l)
    requires s.ops == [] || !t.Pops(op, Last(s.ops))
    requires ClosesAll(t, op, RightEdge(l))
    ensures PopWhile(t, op, After(scope, s, l).rpn, After(scope, s, l).ops) == (s.rpn + Postorder(scope, l), s.ops)
  {
    PopWhileExact(t, op, s.rpn + Early(scope, l), s.ops, RightEdge(l));
    EarlyThenEdge(t, scope, l);
    assert s.rpn + Early(scope, l) + Emit(RightEdge(l)) == s.rpn + (Early(scope, l) + Emit(RightEdge(l)));
  }

  lemma PostfixStep<V>(t: Table, scope: map<string, V>, s: State<V>, op: string, rpn: seq<Rpn<V>>, ops: seq<string>)
    requires Plain(op) && t.Exists(op) && t.Exists("R" + op) && s.lastOp == NOT_OP
    requires PopWhile(t, "R" + op, s.rpn, s.ops) == (rpn, ops)
    ensures Feed(t, scope, s, Op(op)) == Ok(State(rpn + [Unary, Operator(op)], ops, NOT_OP, false))
  {
    assert Normalize("R" + op) == op;
  }

  lemma AfterPostfix<V>(scope: map<string, V>, s: State<V>, op: string, x: Expr<V>)
    ensures State(s.rpn + Postorder(scope, x) + [Unary, Operator(op)], s.ops, NOT_OP, false)
      == After(scope, s, Postfix(op, x))
  {
    assert s.ops + [] == s.ops;
    assert s.rpn + Postorder(scope, x) + [Unary, Operator(op)] == s.rpn + (Postorder(scope, x) + [Unary, Operator(op)]);
  }

  lemma {:induction false} FeedPostfix<V>(t: Table, scope: map<string, V>, s: State<V>, e: Expr<V>)
    requires e.Postfix?
    requires t.Sane() && Known(t, e) && Fits(t, e)
    requires s.lastOp != NOT_OP && Waiting(t, s, LeftEdge(e))
    ensures FeedAll(t, scope, s, Print(e)) == Ok(After(scope, s, e))
    decreases e, 0
  {
    var Postfix(op, x) := e;
    WaitingSplit(t, s, "R" + op, LeftEdge(x));
    FeedTree(t, scope, s, x);
    CloseLeftOperand(t, scope, s, "R" + op, x);
    PostfixStep(t, scope, After(scope, s, x), op, s.rpn + Postorder(scope, x), s.ops);
    AfterPostfix(scope, s, op, x);
    hide Feed, PopWhile, Normalize, After, Waiting, Known, Fits, Emit;
    FeedChain(t, scope, s, Print(x), Op(op), [], After(scope, s, x), After(scope, s, e));
    assert Print(x) + [Op(op)] + [] == Print(e);
  }

  lemma {:induction false} FeedApply<V>(t: Table, scope: map<string, V>, s: State<V>, e: Expr<V>)
    requires e.Apply?
    requires t.Sane() && Known(t, e) && Fits(t, e)
    requires s.lastOp != NOT_OP && Waiting(t, s, LeftEdge(e))
    ensures FeedAll(t, scope, s, Print(e)) == Ok(After(scope, s, e))
    decreases e, 0
  {
    var Apply(h, b, x) := e;
    var op := ApplyName(b);
    WaitingSplit(t, s, op, LeftEdge(h));
    FeedTree(t, scope, s, h);
    CloseLeftOperand(t, scope, s, op, h);
    var s1 := After(scope, s, h);
    var s2 := State(s.rpn + Postorder(scope, h), s.ops + [op], FirstChar(op), false);
    ApplyStep(t, scope, s1, b, s2.rpn, s.ops);
    FeedChain(t, scope, s, Print(h), Open(b), PrintRest(b, x), s1, OpenBracket(s2, b));
    FeedBody(t, scope, s2, b, x);
    AfterApply(scope, s, h, b, x);
  }

  lemma {:induction false} FeedLiteral<V>(t: Table, scope: map<string, V>, s: State<V>, e: Expr<V>)
    requires e.Literal?
    requires t.Sane() && Known(t, e) && Fits(t, e)
    requires s.lastOp != NOT_OP && Waiting(t, s, LeftEdge(e))
    ensures FeedAll(t, scope, s, Print(e)) == Ok(After(scope, s, e))
    decreases e, 0
  {
    var Literal(b, x) := e;
    var s1 := HandleToken(s, Rpn.Constructor(b));
    assert LeftEdge(e)[0] == "()";
    PopWhileExact(t, "()", s1.rpn, s.ops, []);
    assert s.ops + [] == s.ops && s1.rpn + Emit([]) == s1.rpn;
    var s2 := State(s1.rpn, s.ops + ["()"], '(', false);
    assert HandleOp(t, s1, "()") == Ok(s2) by {
      assert "R" + "()" == "R()";
    }
    FeedFirst(t, scope, s, Open(b), PrintRest(b, x), OpenBracket(s2, b));
    FeedBody(t, scope, s2, b, x);
    AfterLiteral(scope, s, b, x);
  }

  /** A bracketed body, from the opened bracket on, leaves its code and nothing on the stack. */
  lemma {:induction false} FeedBody<V>(t: Table, scope: map<string, V>, s: State<V>, b: Bracket, body: Body<V>)
    requires t.Sane() && KnownBody(t, body) && FitsBody(t, body)
    ensures FeedAll(t, scope, OpenBracket(s, b), PrintRest(b, body))
         == Ok(State(s.rpn + PostorderBody(scope, body), s.ops, NOT_OP, false))
    decreases body, 2
  {
    var s1 := OpenBracket(s, b);
    if body.Nothing? {
      CloseNothing(s, b);
      FeedFirst(t, scope, s1, Close(b), [], CloseBracket(s1, b).value);
      assert [Close(b)] + [] == PrintRest(b, body);
    } else {
      var x := body.e;
      LeftEdgeInside(t, x, OpenName(b));
      FeedTree(t, scope, s1, x);
      CloseTree(t, scope, s, b, x);
      FeedChain(t, scope, s1, Print(x), Close(b), [], After(scope, s1, x), CloseBracket(After(scope, s1, x), b).value);
      assert Print(x) + [Close(b)] + [] == PrintRest(b, body);
    }
  }

  lemma CloseNothing<V>(s: State<V>, b: Bracket)
    ensures CloseBracket(OpenBracket(s, b), b) == Ok(State(s.rpn + [EmptyTuple], s.ops, NOT_OP, false))
  {
    var name := OpenName(b);
    PopUntilExact(name, s.rpn + [EmptyTuple], s.ops, []);
    assert s.ops + [name] + [] == s.ops + [name];
    assert s.rpn + [EmptyTuple] + Emit([]) == s.rpn + [EmptyTuple];
    assert Front(s.ops + [name]) == s.ops;
  }

  lemma CloseTree<V>(t: Table, scope: map<string, V>, s: State<V>, b: Bracket, x: Expr<V>)
    requires Known(t, x)
    ensures CloseBracket(After(scope, OpenBracket(s, b), x), b)
         == Ok(State(s.rpn + Postorder(scope, x), s.ops, NOT_OP, false))
  {
    var name := OpenName(b);
    RightEdgeIsKnown(t, x);
    PopUntilExact(name, s.rpn + Early(scope, x), s.ops, RightEdge(x));
    EarlyThenEdge(t, scope, x);
    assert s.rpn + Early(scope, x) + Emit(RightEdge(x)) == s.rpn + (Early(scope, x) + Emit(RightEdge(x)));
    assert Front(s.ops + [name]) == s.ops;
  }

  /** No operator at the left edge of a known tree takes a bracket off the stack. */
  lemma {:induction false} LeftEdgeInside<V>(t: Table, e: Expr<V>, name: string)
    requires t.Sane() && Known(t, e) && name in OPEN_NAMES
    ensures ClosesNone(t, LeftEdge(e), name)
    decreases e
  {
    match e
    case Binary(op, l, r) => LeftEdgeInside(t, l, name);
    case Postfix(op, x) => LeftEdgeInside(t, x, name);
    case Apply(h, b, x) => LeftEdgeInside(t, h, name);
    case _ =>
  }

  /** For every table with brackets loosest and every tree that fits, toRPN of the printed tree is its postorder. */
  lemma CompilePrinted<V>(t: Table, scope: map<string, V>, e: Expr<V>)
    requires t.Sane() && Known(t, e) && Fits(t, e)
    ensures Compile(t, scope, Print(e)) == Ok(Postorder(scope, e))
  {
    var s: State<V> := StartState();
    FeedTree(t, scope, s, e);
    EarlyThenEdge(t, scope, e);
    assert s.rpn + Early(scope, e) == Early(scope, e);
    assert s.ops + RightEdge(e) == RightEdge(e);
    PostorderNonEmpty(scope, e);
    PrintNonEmpty(e);
  }

  /** The same for every tree at all, once the brackets its precedences need are added. */
  lemma CompileParenthesized<V>(t: Table, scope: map<string, V>, e: Expr<V>)
    requires t.Sane() && Known(t, e)
    ensures Compile(t, scope, Print(Parenthesize(t, e))) == Ok(Postorder(scope, e))
  {
    ParenthesizeFits(t, scope, e);
    CompilePrinted(t, scope, Parenthesize(t, e));
  }

  lemma {:induction false} PostorderNonEmpty<V>(scope: map<string, V>, e: Expr<V>)
    ensures Postorder(scope, e) != []
    decreases e
  {
    match e
    case Group(b) => if b.Inside? { PostorderNonEmpty(scope, b.e); }
    case _ =>
  }

  lemma PrintNonEmpty<V>(e: Expr<V>)
    ensures Print(e) != []
  {
  }
}
