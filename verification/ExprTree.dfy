/**
 Expression trees, how they are printed as tokens, and which printed trees need no more brackets:
 the independent reference that the compiler is proved against.
 */
module ExprTree {
  import opened PrecedenceTable
  import opened RpnBuilder

  /** Group is "( )"; Apply is a call "h( )" or an index "h[ ]"; Literal is a list "[ ]" or a map "{ }". */
  datatype Expr<V> =
    | Leaf(atom: Atom<V>)
    | Binary(op: string, l: Expr<V>, r: Expr<V>)
    | Prefix(op: string, e: Expr<V>)
    | Postfix(op: string, e: Expr<V>)
    | Group(body: Body<V>)
    | Apply(head: Expr<V>, bracket: Bracket, body: Body<V>)
    | Literal(bracket: Bracket, body: Body<V>)

  datatype Body<V> = Nothing | Inside(e: Expr<V>)

  /** An operator name as the scanner can deliver it. */
  predicate Plain(op: string) {
    op != "" && op[0] !in {'\0', 'L', 'R', '(', '[', '{'}
  }

  /** Every operator of the tree is in the table in the role the tree uses it in. */
  predicate Known<V>(t: Table, e: Expr<V>) {
    match e
    case Leaf(_) => true
    case Binary(op, l, r) => Plain(op) && t.Exists(op) && !t.Exists("R" + op) && Known(t, l) && Known(t, r)
    case Prefix(op, x) => Plain(op) && t.Exists(op) && t.Exists("L" + op) && Known(t, x)
    case Postfix(op, x) => Plain(op) && t.Exists(op) && t.Exists("R" + op) && Known(t, x)
    case Group(b) => KnownBody(t, b)
    case Apply(h, b, x) => b != Curly && Known(t, h) && KnownBody(t, x)
    case Literal(b, x) => b != Round && KnownBody(t, x)
  }

  predicate KnownBody<V>(t: Table, b: Body<V>) {
    b.Nothing? || Known(t, b.e)
  }

  function Print<V>(e: Expr<V>): seq<Token<V>>
    decreases e
  {
    match e
    case Leaf(a) => [Operand(a)]
    case Binary(op, l, r) => Print(l) + [Op(op)] + Print(r)
    case Prefix(op, x) => [Op(op)] + Print(x)
    case Postfix(op, x) => Print(x) + [Op(op)]
    case Group(b) => [Open(Round)] + PrintRest(Round, b)
    case Apply(h, b, x) => Print(h) + [Open(b)] + PrintRest(b, x)
    case Literal(b, x) => [Open(b)] + PrintRest(b, x)
  }

  /** What follows an opening bracket, up to and including its closing bracket. */
  function PrintRest<V>(b: Bracket, body: Body<V>): seq<Token<V>>
    decreases body
  {
    (if body.Nothing? then [] else Print(body.e)) + [Close(b)]
  }

  /** The code of a tree: operands in order, each operator right after its second operand. */
  function Postorder<V>(scope: map<string, V>, e: Expr<V>): seq<Rpn<V>> {
    match e
    case Leaf(a) => [Compiled(scope, a)]
    case Binary(op, l, r) => Postorder(scope, l) + Postorder(scope, r) + [Operator(op)]
    case Prefix(op, x) => [Unary] + Postorder(scope, x) + [Operator(op)]
    case Postfix(op, x) => Postorder(scope, x) + [Unary, Operator(op)]
    case Group(b) => PostorderBody(scope, b)
    case Apply(h, b, x) => Postorder(scope, h) + PostorderBody(scope, x) + [Operator(ApplyName(b))]
    case Literal(b, x) => [Rpn.Constructor(b)] + PostorderBody(scope, x) + [Operator("()")]
  }

  function PostorderBody<V>(scope: map<string, V>, b: Body<V>): seq<Rpn<V>> {
    if b.Nothing? then [EmptyTuple] else Postorder(scope, b.e)
  }

  /** The operators that take their left operand from the left edge of the printed tree. */
  function LeftEdge<V>(e: Expr<V>): seq<string> {
    match e
    case Leaf(_) => []
    case Binary(op, l, _) => [op] + LeftEdge(l)
    case Prefix(_, _) => []
    case Postfix(op, x) => ["R" + op] + LeftEdge(x)
    case Group(_) => []
    case Apply(h, b, _) => [ApplyName(b)] + LeftEdge(h)
    case Literal(_, _) => ["()"]
  }

  /** The operators whose right operand is still open at the right edge, outermost first. */
  function RightEdge<V>(e: Expr<V>): seq<string> {
    match e
    case Leaf(_) => []
    case Binary(op, _, r) => [op] + RightEdge(r)
    case Prefix(op, x) => ["L" + op] + RightEdge(x)
    case Postfix(_, _) => []
    case Group(_) => []
    case Apply(_, b, _) => [ApplyName(b)]
    case Literal(_, _) => ["()"]
  }

  /** op, arriving after an operand with this right edge, closes all of it. */
  predicate ClosesAll(t: Table, op: string, edge: seq<string>) {
    forall top | top in edge :: t.Pops(op, top)
  }

  /** No operator of this left edge closes the waiting operator top. */
  predicate ClosesNone(t: Table, edge: seq<string>, top: string) {
    forall op | op in edge :: !t.Pops(op, top)
  }

  /** Each left operand is closed by its operator and no right operand breaks out of its operator. */
  predicate Fits<V>(t: Table, e: Expr<V>) {
    match e
    case Leaf(_) => true
    case Binary(op, l, r) =>
      Fits(t, l) && Fits(t, r) && ClosesAll(t, op, RightEdge(l)) && ClosesNone(t, LeftEdge(r), op)
    case Prefix(op, x) => Fits(t, x) && ClosesNone(t, LeftEdge(x), "L" + op)
    case Postfix(op, x) => Fits(t, x) && ClosesAll(t, "R" + op, RightEdge(x))
    case Group(b) => FitsBody(t, b)
    case Apply(h, b, x) => Fits(t, h) && FitsBody(t, x) && ClosesAll(t, ApplyName(b), RightEdge(h))
    case Literal(_, x) => FitsBody(t, x)
  }

  predicate FitsBody<V>(t: Table, b: Body<V>) {
    b.Nothing? || Fits(t, b.e)
  }

  function Grouped<V>(fits: bool, e: Expr<V>): Expr<V> {
    if fits then e else Group(Inside(e))
  }

  /** Adds brackets exactly around the operands that do not fit where they stand. */
  function Parenthesize<V>(t: Table, e: Expr<V>): Expr<V> {
    match e
    case Leaf(_) => e
    case Binary(op, l, r) =>
      var l', r' := Parenthesize(t, l), Parenthesize(t, r);
      Binary(op, Grouped(ClosesAll(t, op, RightEdge(l')), l'), Grouped(ClosesNone(t, LeftEdge(r'), op), r'))
    case Prefix(op, x) =>
      var x' := Parenthesize(t, x);
      Prefix(op, Grouped(ClosesNone(t, LeftEdge(x'), "L" + op), x'))
    case Postfix(op, x) =>
      var x' := Parenthesize(t, x);
      Postfix(op, Grouped(ClosesAll(t, "R" + op, RightEdge(x')), x'))
    case Group(b) => Group(ParenthesizeBody(t, b))
    case Apply(h, b, x) =>
      var h' := Parenthesize(t, h);
      Apply(Grouped(ClosesAll(t, ApplyName(b), RightEdge(h')), h'), b, ParenthesizeBody(t, x))
    case Literal(b, x) => Literal(b, ParenthesizeBody(t, x))
  }

  function ParenthesizeBody<V>(t: Table, b: Body<V>): Body<V> {
    if b.Nothing? then b else Inside(Parenthesize(t, b.e))
  }

  lemma GroupedKeeps<V>(t: Table, scope: map<string, V>, fits: bool, e: Expr<V>)
    ensures Known(t, Grouped(fits, e)) == Known(t, e)
    ensures Fits(t, Grouped(fits, e)) == Fits(t, e)
    ensures Postorder(scope, Grouped(fits, e)) == Postorder(scope, e)
    ensures !fits ==> LeftEdge(Grouped(fits, e)) == RightEdge(Grouped(fits, e)) == []
  {
    var b: Body<V> := Inside(e);
    assert KnownBody(t, b) == Known(t, e) && FitsBody(t, b) == Fits(t, e);
    assert PostorderBody(scope, b) == Postorder(scope, e);
  }

  /** Any tree, bracketed by the rule above, fits, keeps its operators and keeps its code. */
  lemma {:induction false} ParenthesizeFits<V>(t: Table, scope: map<string, V>, e: Expr<V>)
    requires Known(t, e)
    ensures Known(t, Parenthesize(t, e))
    ensures Fits(t, Parenthesize(t, e))
    ensures Postorder(scope, Parenthesize(t, e)) == Postorder(scope, e)
    decreases e
  {
    match e
    case Leaf(_) =>
    case Binary(op, l, r) =>
      ParenthesizeFits(t, scope, l);
      ParenthesizeFits(t, scope, r);
      var l', r' := Parenthesize(t, l), Parenthesize(t, r);
      GroupedKeeps(t, scope, ClosesAll(t, op, RightEdge(l')), l');
      GroupedKeeps(t, scope, ClosesNone(t, LeftEdge(r'), op), r');
    case Prefix(op, x) =>
      ParenthesizeFits(t, scope, x);
      var x' := Parenthesize(t, x);
      GroupedKeeps(t, scope, ClosesNone(t, LeftEdge(x'), "L" + op), x');
    case Postfix(op, x) =>
      ParenthesizeFits(t, scope, x);
      var x' := Parenthesize(t, x);
      GroupedKeeps(t, scope, ClosesAll(t, "R" + op, RightEdge(x')), x');
    case Group(b) => if b.Inside? { ParenthesizeFits(t, scope, b.e); }
    case Apply(h, b, x) =>
      ParenthesizeFits(t, scope, h);
      if x.Inside? { ParenthesizeFits(t, scope, x.e); }
      var h' := Parenthesize(t, h);
      GroupedKeeps(t, scope, ClosesAll(t, ApplyName(b), RightEdge(h')), h');
    case Literal(b, x) => if x.Inside? { ParenthesizeFits(t, scope, x.e); }
  }

  /** f is the bracketed e with any of the brackets that were added left out again. */
  predicate LeavesOut<V(==)>(t: Table, e: Expr<V>, f: Expr<V>)
    decreases e, 0
  {
    match e
    case Leaf(_) => f == e
    case Binary(op, l, r) =>
      && f.Binary? && f.op == op
      && LeavesOutAt(t, ClosesAll(t, op, RightEdge(Parenthesize(t, l))), l, f.l)
      && LeavesOutAt(t, ClosesNone(t, LeftEdge(Parenthesize(t, r)), op), r, f.r)
    case Prefix(op, x) =>
      f.Prefix? && f.op == op && LeavesOutAt(t, ClosesNone(t, LeftEdge(Parenthesize(t, x)), "L" + op), x, f.e)
    case Postfix(op, x) =>
      f.Postfix? && f.op == op && LeavesOutAt(t, ClosesAll(t, "R" + op, RightEdge(Parenthesize(t, x))), x, f.e)
    case Group(b) => f.Group? && LeavesOutIn(t, b, f.body)
    case Apply(h, b, x) =>
      && f.Apply? && f.bracket == b && LeavesOutIn(t, x, f.body)
      && LeavesOutAt(t, ClosesAll(t, ApplyName(b), RightEdge(Parenthesize(t, h))), h, f.head)
    case Literal(b, x) => f.Literal? && f.bracket == b && LeavesOutIn(t, x, f.body)
  }

  /** An operand that fits got no bracket; one that does not may have kept its bracket or not. */
  predicate LeavesOutAt<V(==)>(t: Table, fits: bool, e: Expr<V>, f: Expr<V>)
    decreases e, 1
  {
    LeavesOut(t, e, f) || (!fits && f.Group? && f.body.Inside? && LeavesOut(t, e, f.body.e))
  }

  predicate LeavesOutIn<V(==)>(t: Table, b: Body<V>, c: Body<V>)
    decreases b
  {
    if b.Nothing? then c.Nothing? else c.Inside? && LeavesOut(t, b.e, c.e)
  }

  /** No added bracket is superfluous: with any of them left out, the tree does not fit. */
  lemma {:induction false} BracketsAreNeeded<V>(t: Table, e: Expr<V>, f: Expr<V>)
    requires LeavesOut(t, e, f) && Fits(t, f)
    ensures f == Parenthesize(t, e)
    decreases e, 0
  {
    match e
    case Leaf(_) =>
    case Binary(op, l, r) =>
      BracketIsNeeded(t, ClosesAll(t, op, RightEdge(Parenthesize(t, l))), l, f.l);
      BracketIsNeeded(t, ClosesNone(t, LeftEdge(Parenthesize(t, r)), op), r, f.r);
    case Prefix(op, x) => BracketIsNeeded(t, ClosesNone(t, LeftEdge(Parenthesize(t, x)), "L" + op), x, f.e);
    case Postfix(op, x) => BracketIsNeeded(t, ClosesAll(t, "R" + op, RightEdge(Parenthesize(t, x))), x, f.e);
    case Group(b) => if b.Inside? { BracketsAreNeeded(t, b.e, f.body.e); }
    case Apply(h, b, x) =>
      BracketIsNeeded(t, ClosesAll(t, ApplyName(b), RightEdge(Parenthesize(t, h))), h, f.head);
      if x.Inside? { BracketsAreNeeded(t, x.e, f.body.e); }
    case Literal(b, x) => if x.Inside? { BracketsAreNeeded(t, x.e, f.body.e); }
  }

  lemma {:induction false} BracketIsNeeded<V>(t: Table, fits: bool, e: Expr<V>, f: Expr<V>)
    requires LeavesOutAt(t, fits, e, f) && Fits(t, f)
    ensures f == Parenthesize(t, e) || f == Grouped(fits, Parenthesize(t, e))
    decreases e, 1
  {
    if LeavesOut(t, e, f) {
      BracketsAreNeeded(t, e, f);
    } else {
      BracketsAreNeeded(t, e, f.body.e);
    }
  }

  /** The tree itself is its bracketed form with all added brackets left out. */
  lemma {:induction false} LeavesOutAll<V>(t: Table, e: Expr<V>)
    ensures LeavesOut(t, e, e)
    decreases e
  {
    match e
    case Leaf(_) =>
    case Binary(op, l, r) =>
      LeavesOutAll(t, l);
      LeavesOutAll(t, r);
    case Prefix(op, x) => LeavesOutAll(t, x);
    case Postfix(op, x) => LeavesOutAll(t, x);
    case Group(b) => if b.Inside? { LeavesOutAll(t, b.e); }
    case Apply(h, b, x) =>
      LeavesOutAll(t, h);
      if x.Inside? { LeavesOutAll(t, x.e); }
    case Literal(b, x) => if x.Inside? { LeavesOutAll(t, x.e); }
  }

  /** A tree gets no bracket exactly if it fits already. */
  lemma FittingIsKept<V>(t: Table, e: Expr<V>)
    requires Known(t, e)
    ensures Parenthesize(t, e) == e <==> Fits(t, e)
  {
    ParenthesizeFits(t, map[], e);
    LeavesOutAll(t, e);
    if Fits(t, e) {
      BracketsAreNeeded(t, e, e);
    }
  }
}
