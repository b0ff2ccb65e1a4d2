/**
 Reading a token list as a tree with a stack of frames, one token at a time, and the two facts that
 make it the inverse of printing: the tree a print is read as is the one that was printed, and the
 compiler's code for a well-formed token list is the code of the tree it is read as.
 */
module Reading {
  import opened Wrappers
  import opened PrecedenceTable
  import opened RpnBuilder
  import opened ExprTree
  import opened TokenGrammar
  import opened ParseCorrect
  import opened RpnMachine
  import opened Sequences

  /** An operand is due after the frames, or c has just been read. */
  datatype Stage<V> = Awaits(fs: seq<Frame<V>>) | Holds(fs: seq<Frame<V>>, c: Expr<V>)

  /** The stack entry that waits for the operand after a frame. */
  function Top<V>(f: Frame<V>): string {
    Last(FrameOps(f))
  }

  /** Completes the innermost frames that stop, or the end of a bracket, closes. */
  function Reduce<V>(t: Table, stop: Option<string>, fs: seq<Frame<V>>, c: Expr<V>): (seq<Frame<V>>, Expr<V>)
    decreases |fs|
  {
    if fs == [] || Last(fs).Bracketed? || !Completes(t, stop, Top(Last(fs))) then (fs, c)
    else Reduce(t, stop, Front(fs), Joined(Last(fs), c))
  }

  /** A bracket that closes after body, if it matches the innermost open one. */
  function Closed<V>(fs: seq<Frame<V>>, b: Bracket, body: Body<V>): Option<Stage<V>> {
    if fs != [] && Last(fs).Bracketed? && Last(fs).b == b
      then Some(Holds(Front(fs), Enclosed(Last(fs), body))) else None
  }

  function Advance<V>(t: Table, p: Stage<V>, tok: Token<V>): Option<Stage<V>> {
    match p
    case Awaits(fs) => (
      match tok
      case Operand(a) => Some(Holds(fs, Leaf(a)))
      case Op(op) => Some(Awaits(fs + [OperandDue(op)]))
      case Open(b) => Some(Awaits(fs + [Bracketed(if b == Round then GroupHead else LiteralHead, b)]))
      case Close(b) => Closed(fs, b, Nothing))
    case Holds(fs, c) => (
      match tok
      case Operand(_) => None
      case Op(op) =>
        var (gs, x) := Reduce(t, Some(Key(t, tok)), fs, c);
        Some(if t.Exists("R" + op) then Holds(gs, Postfix(op, x)) else Awaits(gs + [RightDue(x, op)]))
      case Open(b) =>
        var (gs, x) := Reduce(t, Some(Key(t, tok)), fs, c);
        Some(Awaits(gs + [Bracketed(ApplyHead(x), b)]))
      case Close(b) =>
        var (gs, x) := Reduce(t, None, fs, c);
        Closed(gs, b, Inside(x)))
  }

  function ReadFrom<V>(t: Table, p: Stage<V>, toks: seq<Token<V>>): Option<Expr<V>>
    decreases |toks|
  {
    if toks == [] then
      if p.Awaits? then None
      else
        var (gs, e) := Reduce(t, None, p.fs, p.c);
        if gs == [] then Some(e) else None
    else
      match Advance(t, p, toks[0])
      case None => None
      case Some(q) => ReadFrom(t, q, toks[1..])
  }

  /** The tree a token list is read as. */
  function Read<V>(t: Table, toks: seq<Token<V>>): Option<Expr<V>> {
    ReadFrom(t, Awaits([]), toks)
  }

  lemma ReadCons<V>(t: Table, p: Stage<V>, tok: Token<V>, rest: seq<Token<V>>, q: Stage<V>)
    requires Advance(t, p, tok) == Some(q)
    ensures ReadFrom(t, p, [tok] + rest) == ReadFrom(t, q, rest)
  {
    assert ([tok] + rest)[1..] == rest;
  }

  /** The frames still open at the right edge of a printed tree, and the operand after them. */
  function Spine<V>(e: Expr<V>): seq<Frame<V>> {
    match e
    case Binary(op, l, r) => [RightDue(l, op)] + Spine(r)
    case Prefix(op, x) => [OperandDue(op)] + Spine(x)
    case _ => []
  }

  function Tip<V>(e: Expr<V>): Expr<V> {
    match e
    case Binary(_, _, r) => Tip(r)
    case Prefix(_, x) => Tip(x)
    case _ => e
  }

  /** What closes the right edge of a tree puts the tree together again. */
  lemma {:induction false} ReduceSpine<V>(t: Table, stop: Option<string>, fs: seq<Frame<V>>, e: Expr<V>)
    requires stop.Some? ==> ClosesAll(t, stop.value, RightEdge(e))
    ensures Reduce(t, stop, fs + Spine(e), Tip(e)) == Reduce(t, stop, fs, e)
    decreases e, 0
  {
    match e
    case Binary(op, l, r) => ReduceFrame(t, stop, fs, RightDue(l, op), r, e);
    case Prefix(op, x) => ReduceFrame(t, stop, fs, OperandDue(op), x, e);
    case _ => assert fs + Spine(e) == fs;
  }

  lemma {:induction false} ReduceFrame<V>(t: Table, stop: Option<string>, fs: seq<Frame<V>>, f: Frame<V>,
                                          x: Expr<V>, e: Expr<V>)
    requires !f.Bracketed? && e == Joined(f, x) && Spine(e) == [f] + Spine(x) && Tip(e) == Tip(x)
    requires stop.Some? ==> ClosesAll(t, stop.value, RightEdge(e))
    ensures Reduce(t, stop, fs + Spine(e), Tip(e)) == Reduce(t, stop, fs, e)
    decreases x, 1
  {
    assert RightEdge(e) == [Top(f)] + RightEdge(x);
    ReduceSpine(t, stop, fs + [f], x);
    assert fs + [f] + Spine(x) == fs + Spine(e);
    assert Front(fs + [f]) == fs;
  }

  /** No operator of this left edge closes the innermost waiting frame. */
  predicate Leaves<V>(t: Table, fs: seq<Frame<V>>, edge: seq<string>) {
    fs == [] || Last(fs).Bracketed? || ClosesNone(t, edge, Top(Last(fs)))
  }

  /** key, arriving after the print of e, closes all of e and nothing before it. */
  lemma ReduceTo<V>(t: Table, key: string, fs: seq<Frame<V>>, e: Expr<V>)
    requires ClosesAll(t, key, RightEdge(e)) && Leaves(t, fs, [key])
    ensures Reduce(t, Some(key), fs + Spine(e), Tip(e)) == (fs, e)
  {
    ReduceSpine(t, Some(key), fs, e);
  }

  /** Reading the print of a tree leaves its right edge open, whatever comes after it. */
  lemma {:induction false} ReadTree<V>(t: Table, fs: seq<Frame<V>>, e: Expr<V>, rest: seq<Token<V>>)
    requires Known(t, e) && Fits(t, e) && Leaves(t, fs, LeftEdge(e))
    ensures ReadFrom(t, Awaits(fs), Print(e) + rest) == ReadFrom(t, Holds(fs + Spine(e), Tip(e)), rest)
    decreases e, 1
  {
    match e
    case Leaf(a) =>
      ReadCons(t, Awaits(fs), Operand(a), rest, Holds(fs, e));
      assert fs + Spine(e) == fs;
    case Binary(op, l, r) => ReadBinary(t, fs, e, rest);
    case Prefix(op, x) =>
      var f: Frame<V> := OperandDue(op);
      Assoc([Op(op)], Print(x), rest);
      ReadCons(t, Awaits(fs), Op(op), Print(x) + rest, Awaits(fs + [f]));
      ReadTree(t, fs + [f], x, rest);
      Assoc(fs, [f], Spine(x));
    case Postfix(op, x) =>
      Assoc(Print(x), [Op(op)], rest);
      ReadTree(t, fs, x, [Op(op)] + rest);
      ReduceTo(t, "R" + op, fs, x);
      ReadCons(t, Holds(fs + Spine(x), Tip(x)), Op(op), rest, Holds(fs, e));
      assert fs + Spine(e) == fs;
    case Group(b) => ReadOpen(t, fs, Round, GroupHead, b, e, rest);
    case Apply(h, b, x) => ReadApply(t, fs, e, rest);
    case Literal(b, x) => ReadOpen(t, fs, b, LiteralHead, x, e, rest);
  }

  lemma {:induction false} ReadBinary<V>(t: Table, fs: seq<Frame<V>>, e: Expr<V>, rest: seq<Token<V>>)
    requires e.Binary? && Known(t, e) && Fits(t, e) && Leaves(t, fs, LeftEdge(e))
    ensures ReadFrom(t, Awaits(fs), Print(e) + rest) == ReadFrom(t, Holds(fs + Spine(e), Tip(e)), rest)
    decreases e, 0
  {
    var Binary(op, l, r) := e;
    var f, more := RightDue(l, op), Print(r) + rest;
    Assoc3(Print(l), [Op(op)], Print(r), rest);
    ReadTree(t, fs, l, [Op(op)] + more);
    ReduceTo(t, op, fs, l);
    ReadCons(t, Holds(fs + Spine(l), Tip(l)), Op(op), more, Awaits(fs + [f]));
    ReadTree(t, fs + [f], r, rest);
    Assoc(fs, [f], Spine(r));
  }

  lemma Assoc3<T>(a: seq<T>, b: seq<T>, c: seq<T>, d: seq<T>)
    ensures a + b + c + d == a + (b + (c + d))
  {
  }

  /** A bracket and what it encloses, after an operand is due. */
  lemma {:induction false} ReadOpen<V>(t: Table, fs: seq<Frame<V>>, b: Bracket, head: Head<V>, body: Body<V>,
                                       e: Expr<V>, rest: seq<Token<V>>)
    requires head == (if b == Round then GroupHead else LiteralHead) && e == Enclosed(Bracketed(head, b), body)
    requires KnownBody(t, body) && FitsBody(t, body)
    ensures ReadFrom(t, Awaits(fs), [Open(b)] + PrintRest(b, body) + rest)
      == ReadFrom(t, Holds(fs + Spine(e), Tip(e)), rest)
    decreases body, 3
  {
    Assoc([Open(b)], PrintRest(b, body), rest);
    var f := Bracketed(head, b);
    ReadCons(t, Awaits(fs), Open(b), PrintRest(b, body) + rest, Awaits(fs + [f]));
    ReadRest(t, fs, f, body, rest);
    assert fs + Spine(e) == fs;
  }

  lemma {:induction false} ReadApply<V>(t: Table, fs: seq<Frame<V>>, e: Expr<V>, rest: seq<Token<V>>)
    requires e.Apply? && Known(t, e) && Fits(t, e) && Leaves(t, fs, LeftEdge(e))
    ensures ReadFrom(t, Awaits(fs), Print(e) + rest) == ReadFrom(t, Holds(fs + Spine(e), Tip(e)), rest)
    decreases e, 0
  {
    var Apply(h, b, x) := e;
    var f, more := Bracketed(ApplyHead(h), b), PrintRest(b, x) + rest;
    Assoc3(Print(h), [Open(b)], PrintRest(b, x), rest);
    ReadTree(t, fs, h, [Open(b)] + more);
    ReduceTo(t, ApplyName(b), fs, h);
    ReadCons(t, Holds(fs + Spine(h), Tip(h)), Open(b), more, Awaits(fs + [f]));
    ReadRest(t, fs, f, x, rest);
    assert fs + Spine(e) == fs;
  }

  /** What stands after an opening bracket, up to and including its closing one. */
  lemma {:induction false} ReadRest<V>(t: Table, fs: seq<Frame<V>>, f: Frame<V>, body: Body<V>, rest: seq<Token<V>>)
    requires f.Bracketed? && KnownBody(t, body) && FitsBody(t, body)
    ensures ReadFrom(t, Awaits(fs + [f]), PrintRest(f.b, body) + rest)
      == ReadFrom(t, Holds(fs, Enclosed(f, body)), rest)
    decreases body, 2
  {
    var gs := fs + [f];
    assert Front(gs) == fs && Last(gs) == f;
    if body.Nothing? {
      assert PrintRest(f.b, body) == [Close(f.b)];
      ReadCons(t, Awaits(gs), Close(f.b), rest, Holds(fs, Enclosed(f, body)));
    } else {
      var x := body.e;
      Assoc(Print(x), [Close(f.b)], rest);
      ReadTree(t, gs, x, [Close(f.b)] + rest);
      ReduceSpine(t, None, gs, x);
      ReadCons(t, Holds(gs + Spine(x), Tip(x)), Close(f.b), rest, Holds(fs, Enclosed(f, body)));
    }
  }

  /** Reading is the left inverse of printing, for every table. */
  lemma ReadPrint<V>(t: Table, e: Expr<V>)
    requires Known(t, e) && Fits(t, e)
    ensures Read(t, Print(e)) == Some(e)
  {
    ReadTree(t, [], e, []);
    assert Print(e) + [] == Print(e);
    assert [] + Spine(e) == Spine(e);
    ReduceSpine(t, None, [], e);
    assert [] + Spine(e) == Spine(e);
  }

  /** There is no second reading: a token list is the print of at most one tree that fits. */
  lemma ReadingIsUnique<V>(t: Table, d: Expr<V>, e: Expr<V>)
    requires Known(t, d) && Fits(t, d) && Known(t, e) && Fits(t, e) && Print(d) == Print(e)
    ensures d == e
  {
    ReadPrint(t, d);
    ReadPrint(t, e);
  }

  /**
   Every well-formed token list is read as a tree that fits and prints as the list, and compiles to
   the code of that tree.
   */
  lemma CompileIsRead<V>(t: Table, scope: map<string, V>, toks: seq<Token<V>>)
    requires t.Sane() && WellFormed(t, toks, JustOpened, [])
    ensures var r := Read(t, toks);
      && r.Some? && Known(t, r.value) && Fits(t, r.value) && Print(r.value) == toks
      && Compile(t, scope, toks) == Ok(Postorder(scope, r.value))
  {
    var e := ParseCorrect.ParseCorrect(t, scope, toks);
    ReadPrint(t, e);
  }

  /**
   Every well-formed token list evaluates to the recursive value of the tree it is read as, with every
   variable read late, unless the tree is one variable rebound since compilation.
   */
  lemma EvaluationIsMeaning<V(!new)>(t: Table, sem: Semantics<V>, compiled: map<string, V>, scope: map<string, V>,
                                     toks: seq<Token<V>>)
    requires t.Sane() && WellFormed(t, toks, JustOpened, [])
    ensures var r := Read(t, toks);
      && r.Some?
      && (CompileThenEvaluate(t, sem, compiled, scope, toks) == Some(Meaning(sem, compiled, scope, r.value))
          <==> !StaleVariable(compiled, scope, r.value))
  {
    CompileIsRead(t, compiled, toks);
    var e := Read(t, toks).value;
    FittingIsKept(t, e);
    LateBinding(t, sem, compiled, scope, e);
  }
}
