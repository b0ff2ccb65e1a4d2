/**
 The converse of CompileCorrect, for every sane table: the well-formed token lists are exactly the
 prints of the trees that fit, and each compiles to the code of its tree.
 */
module ParseCorrect {
  import opened Wrappers
  import opened PrecedenceTable
  import opened RpnBuilder
  import opened ExprTree
  import opened TokenGrammar
  import opened CompileCorrect
  import opened Sequences

  /** An operator or bracket that still waits for something on its right, with what stands to its left. */
  datatype Frame<V> = RightDue(l: Expr<V>, op: string) | OperandDue(op: string) | Bracketed(head: Head<V>, b: Bracket)

  datatype Head<V> = GroupHead | ApplyHead(h: Expr<V>) | LiteralHead

  function FrameOps<V>(f: Frame<V>): seq<string> {
    match f
    case RightDue(_, op) => [op]
    case OperandDue(op) => ["L" + op]
    case Bracketed(GroupHead, b) => [OpenName(b)]
    case Bracketed(ApplyHead(_), b) => [ApplyName(b), OpenName(b)]
    case Bracketed(LiteralHead, b) => ["()", OpenName(b)]
  }

  function FrameCode<V>(scope: map<string, V>, f: Frame<V>): seq<Rpn<V>> {
    match f
    case RightDue(l, _) => Postorder(scope, l)
    case OperandDue(_) => [Unary]
    case Bracketed(GroupHead, _) => []
    case Bracketed(ApplyHead(h), _) => Postorder(scope, h)
    case Bracketed(LiteralHead, b) => [Rpn.Constructor(b)]
  }

  function FramePrint<V>(f: Frame<V>): seq<Token<V>> {
    match f
    case RightDue(l, op) => Print(l) + [Op(op)]
    case OperandDue(op) => [Op(op)]
    case Bracketed(ApplyHead(h), b) => Print(h) + [Open(b)]
    case Bracketed(_, b) => [Open(b)]
  }

  function Ops<V>(fs: seq<Frame<V>>): seq<string>
    ensures fs != [] ==> Ops(fs) != []
  {
    if fs == [] then [] else Ops(Front(fs)) + FrameOps(Last(fs))
  }

  function Code<V>(scope: map<string, V>, fs: seq<Frame<V>>): seq<Rpn<V>> {
    if fs == [] then [] else Code(scope, Front(fs)) + FrameCode(scope, Last(fs))
  }

  function PrintAll<V>(fs: seq<Frame<V>>): seq<Token<V>> {
    if fs == [] then [] else PrintAll(Front(fs)) + FramePrint(Last(fs))
  }

  /** The open bracket of a frame, with what closing it leaves on the stack. */
  function FrameOpened<V>(f: Frame<V>): Opened
    requires f.Bracketed?
  {
    Opened(f.b, match f.head
                case GroupHead => []
                case ApplyHead(_) => [ApplyName(f.b)]
                case LiteralHead => ["()"])
  }

  function Opens<V>(fs: seq<Frame<V>>): seq<Opened> {
    if fs == [] then [] else Opens(Front(fs)) + (if Last(fs).Bracketed? then [FrameOpened(Last(fs))] else [])
  }

  /** No operator of this left edge would close the innermost waiting frame. */
  predicate Lets<V>(t: Table, fs: seq<Frame<V>>, edge: seq<string>) {
    fs == [] || ClosesNone(t, edge, Last(Ops(fs)))
  }

  predicate FrameFits<V>(t: Table, base: seq<Frame<V>>, f: Frame<V>) {
    match f
    case RightDue(l, op) =>
      && Plain(op) && t.Exists(op) && !t.Exists("R" + op)
      && Known(t, l) && Fits(t, l) && ClosesAll(t, op, RightEdge(l)) && Lets(t, base, [op] + LeftEdge(l))
    case OperandDue(op) => Plain(op) && t.Exists(op) && t.Exists("L" + op)
    case Bracketed(GroupHead, b) => b == Round
    case Bracketed(ApplyHead(h), b) =>
      && b != Curly
      && Known(t, h) && Fits(t, h) && ClosesAll(t, ApplyName(b), RightEdge(h))
      && Lets(t, base, [ApplyName(b)] + LeftEdge(h))
    case Bracketed(LiteralHead, b) => b != Round && Lets(t, base, ["()"])
  }

  predicate FramesFit<V>(t: Table, fs: seq<Frame<V>>) {
    fs == [] || (FramesFit(t, Front(fs)) && FrameFits(t, Front(fs), Last(fs)))
  }

  /** c is a complete operand standing after the frames. */
  predicate Holding<V>(t: Table, fs: seq<Frame<V>>, c: Expr<V>) {
    FramesFit(t, fs) && Known(t, c) && Fits(t, c) && Lets(t, fs, LeftEdge(c))
  }

  /** Whether a pending frame is completed: by a bracket or the end always, by an operator if it pops it. */
  predicate Completes(t: Table, stop: Option<string>, top: string) {
    stop.Some? ==> t.Pops(stop.value, top)
  }

  /** One frame and the operand after it become one operand. */
  function Joined<V>(f: Frame<V>, c: Expr<V>): Expr<V>
    requires !f.Bracketed?
  {
    if f.RightDue? then Binary(f.op, f.l, c) else Prefix(f.op, c)
  }

  lemma JoinedShape<V>(scope: map<string, V>, f: Frame<V>, c: Expr<V>)
    requires !f.Bracketed?
    ensures var top := Last(FrameOps(f));
      && FrameOps(f) == [top]
      && (Plain(f.op) ==> top !in OPEN_NAMES && Normalize(top) == f.op)
      && RightEdge(Joined(f, c)) == [top] + RightEdge(c)
    ensures FramePrint(f) + Print(c) == Print(Joined(f, c))
    ensures FrameCode(scope, f) + Postorder(scope, c) + [Operator(f.op)] == Postorder(scope, Joined(f, c))
  {
  }

  lemma JoinedFits<V>(t: Table, base: seq<Frame<V>>, f: Frame<V>, c: Expr<V>)
    requires !f.Bracketed? && FrameFits(t, base, f)
    requires Known(t, c) && Fits(t, c) && ClosesNone(t, LeftEdge(c), Last(FrameOps(f)))
    ensures Known(t, Joined(f, c)) && Fits(t, Joined(f, c)) && Lets(t, base, LeftEdge(Joined(f, c)))
  {
  }

  lemma LastOp<V>(fs: seq<Frame<V>>)
    requires fs != []
    ensures Last(Ops(fs)) == Last(FrameOps(Last(fs)))
  {
  }

  lemma Regroup<T>(a: seq<T>, b: seq<T>, c: seq<T>, d: seq<T>, e: seq<T>)
    ensures a + b + c + (d + e) == a + (b + c + d) + e
  {
  }

  lemma Regroup2<T>(a: seq<T>, b: seq<T>, c: seq<T>, d: seq<T>)
    ensures a + b + (c + d) == a + (b + c) + d
  {
  }

  lemma CollapseOps<V>(base: seq<Frame<V>>, f: Frame<V>)
    requires !f.Bracketed?
    ensures Ops(base + [f]) == Ops(base) + [Last(FrameOps(f))] && Opens(base + [f]) == Opens(base)
  {
    assert Front(base + [f]) == base;
  }

  lemma CollapseCode<V>(scope: map<string, V>, base: seq<Frame<V>>, f: Frame<V>, c: Expr<V>, p: seq<string>)
    requires !f.Bracketed? && Plain(f.op)
    ensures Code(scope, base + [f]) + Postorder(scope, c) + Emit(p + [Last(FrameOps(f))])
         == Code(scope, base) + Postorder(scope, Joined(f, c)) + Emit(p)
  {
    var popped := p + [Last(FrameOps(f))];
    JoinedShape(scope, f, c);
    assert Front(base + [f]) == base && Front(popped) == p;
    assert Emit<V>(popped) == [Operator(f.op)] + Emit(p);
    Regroup(Code(scope, base), FrameCode(scope, f), Postorder(scope, c), [Operator(f.op)], Emit(p));
  }

  lemma CollapsePrint<V>(scope: map<string, V>, base: seq<Frame<V>>, f: Frame<V>, c: Expr<V>)
    requires !f.Bracketed?
    ensures PrintAll(base + [f]) + Print(c) == PrintAll(base) + Print(Joined(f, c))
  {
    JoinedShape(scope, f, c);
    assert Front(base + [f]) == base;
    assert PrintAll(base) + FramePrint(f) + Print(c) == PrintAll(base) + (FramePrint(f) + Print(c));
  }

  /** (fs', c') is (fs, c) with some innermost frames completed, whose stack entries are popped. */
  ghost predicate Collapsed<V>(scope: map<string, V>, fs: seq<Frame<V>>, c: Expr<V>,
                               fs': seq<Frame<V>>, c': Expr<V>, popped: seq<string>)
  {
    && Ops(fs) == Ops(fs') + popped
    && "(" !in popped && "[" !in popped && "{" !in popped
    && Code(scope, fs) + Postorder(scope, c) + Emit(popped) == Code(scope, fs') + Postorder(scope, c')
    && PrintAll(fs) + Print(c) == PrintAll(fs') + Print(c')
    && Opens(fs) == Opens(fs')
  }

  lemma CollapsedOps<V>(base: seq<Frame<V>>, f: Frame<V>, fs': seq<Frame<V>>, p: seq<string>)
    requires !f.Bracketed? && Plain(f.op) && Ops(base) == Ops(fs') + p
    requires "(" !in p && "[" !in p && "{" !in p
    ensures var popped := p + [Last(FrameOps(f))];
      Ops(base + [f]) == Ops(fs') + popped && "(" !in popped && "[" !in popped && "{" !in popped
  {
    CollapseOps(base, f);
    Assoc(Ops(fs'), p, [Last(FrameOps(f))]);
  }

  lemma CollapsedStep<V>(scope: map<string, V>, base: seq<Frame<V>>, f: Frame<V>, c: Expr<V>,
                         fs': seq<Frame<V>>, c': Expr<V>, p: seq<string>)
    requires !f.Bracketed? && Plain(f.op)
    requires Collapsed(scope, base, Joined(f, c), fs', c', p)
    ensures Collapsed(scope, base + [f], c, fs', c', p + [Last(FrameOps(f))])
  {
    CollapsedOps(base, f, fs', p);
    CollapseOps(base, f);
    CollapseCode(scope, base, f, c, p);
    CollapsePrint(scope, base, f, c);
  }

  /** Completes pending frames from the innermost one outwards. */
  lemma {:induction false} Collapse<V>(t: Table, scope: map<string, V>, stop: Option<string>,
                                       fs: seq<Frame<V>>, c: Expr<V>)
    returns (fs': seq<Frame<V>>, c': Expr<V>, popped: seq<string>)
    requires Holding(t, fs, c)
    requires stop.Some? ==> ClosesAll(t, stop.value, RightEdge(c))
    ensures Holding(t, fs', c')
    ensures stop.Some? ==> ClosesAll(t, stop.value, RightEdge(c')) && ClosesAll(t, stop.value, popped)
    ensures fs' == [] || Last(fs').Bracketed? || !Completes(t, stop, Last(Ops(fs')))
    ensures Collapsed(scope, fs, c, fs', c', popped)
    decreases |fs|
  {
    if fs == [] || Last(fs).Bracketed? || !Completes(t, stop, Last(Ops(fs))) {
      fs', c', popped := fs, c, [];
      assert Code(scope, fs) + Postorder(scope, c) + Emit([]) == Code(scope, fs) + Postorder(scope, c);
      assert Ops(fs) + [] == Ops(fs);
    } else {
      var base, f := Front(fs), Last(fs);
      assert fs == base + [f];
      LastOp(fs);
      JoinedShape(scope, f, c);
      JoinedFits(t, base, f, c);
      var p;
      fs', c', p := Collapse(t, scope, stop, base, Joined(f, c));
      popped := p + [Last(FrameOps(f))];
      CollapsedStep(scope, base, f, c, fs', c', p);
    }
  }

  lemma {:induction false} EmitAppend<V>(a: seq<string>, b: seq<string>)
    ensures Emit<V>(a + b) == Emit<V>(b) + Emit<V>(a)
    decreases |b|
  {
    if b == [] {
      assert a + b == a;
    } else {
      var ab := a + b;
      var out: seq<Rpn<V>> := [Operator(Normalize(Last(b)))];
      EmitAppend<V>(a, Front(b));
      assert Front(ab) == a + Front(b) && Last(ab) == Last(b);
      Assoc(out, Emit<V>(Front(b)), Emit<V>(a));
    }
  }

  /** Just before an operand. */
  ghost predicate Due<V>(t: Table, scope: map<string, V>, s: State<V>, fs: seq<Frame<V>>, mode: Mode) {
    && FramesFit(t, fs)
    && s.rpn == Code(scope, fs) && s.ops == Ops(fs) && s.lastOp != NOT_OP
    && match mode
       case NeedOperand(top) => fs != [] && !Last(fs).Bracketed? && top == Last(Ops(fs))
       case JustOpened => fs == [] || (Last(fs).Bracketed? && s.lastOp == OpenName(Last(fs).b)[0])
       case HaveOperand(_) => false
  }

  /** Just after the operand c; only a finished call or index is still on the stack. */
  ghost predicate Have<V>(t: Table, scope: map<string, V>, s: State<V>, fs: seq<Frame<V>>, c: Expr<V>) {
    && Holding(t, fs, c)
    && s == State(Code(scope, fs) + Early(scope, c), Ops(fs) + RightEdge(c), NOT_OP, false)
    && forall op | op in RightEdge(c) :: op == "()" || op == "[]"
  }

  /** The compiler's state once everything still stacked after c has been popped. */
  lemma PoppedCode<V>(t: Table, scope: map<string, V>, fs: seq<Frame<V>>, c: Expr<V>,
                      fs': seq<Frame<V>>, c': Expr<V>, popped: seq<string>)
    requires Known(t, c) && Collapsed(scope, fs, c, fs', c', popped)
    ensures Ops(fs) + RightEdge(c) == Ops(fs') + (popped + RightEdge(c))
    ensures Code(scope, fs) + Early(scope, c) + Emit(popped + RightEdge(c)) == Code(scope, fs') + Postorder(scope, c')
  {
    Assoc(Ops(fs'), popped, RightEdge(c));
    EmitAppend<V>(popped, RightEdge(c));
    EarlyThenEdge(t, scope, c);
    Regroup2(Code(scope, fs), Early(scope, c), Emit(RightEdge(c)), Emit(popped));
  }

  lemma BracketStays<V>(t: Table, fs: seq<Frame<V>>, key: string)
    requires t.Sane() && t.Exists(key) && key !in OPEN_NAMES
    requires fs == [] || Last(fs).Bracketed? || !t.Pops(key, Last(Ops(fs)))
    ensures fs == [] || !t.Pops(key, Last(Ops(fs)))
  {
    if fs != [] && Last(fs).Bracketed? {
      LastOp(fs);
    }
  }

  /** An operator key after an operand completes what it pops and leaves the rest waiting. */
  lemma OperatorArrives<V>(t: Table, scope: map<string, V>, s: State<V>, fs: seq<Frame<V>>, c: Expr<V>, key: string)
    returns (fs': seq<Frame<V>>, c': Expr<V>)
    requires t.Sane() && Have(t, scope, s, fs, c)
    requires t.Exists(key) && key !in OPEN_NAMES && ClosesAll(t, key, RightEdge(c))
    ensures PopWhile(t, key, s.rpn, s.ops) == (Code(scope, fs') + Postorder(scope, c'), Ops(fs'))
    ensures Holding(t, fs', c') && ClosesAll(t, key, RightEdge(c')) && Lets(t, fs', [key])
    ensures PrintAll(fs') + Print(c') == PrintAll(fs) + Print(c) && Opens(fs') == Opens(fs)
  {
    var popped;
    fs', c', popped := Collapse(t, scope, Some(key), fs, c);
    BracketStays(t, fs', key);
    PoppedCode(t, scope, fs, c, fs', c', popped);
    PopWhileExact(t, key, s.rpn, Ops(fs'), popped + RightEdge(c));
  }

  /** The tree a bracket pair closes into. */
  function Enclosed<V>(f: Frame<V>, body: Body<V>): Expr<V>
    requires f.Bracketed?
  {
    match f.head
    case GroupHead => Group(body)
    case ApplyHead(h) => Apply(h, f.b, body)
    case LiteralHead => Literal(f.b, body)
  }

  lemma EnclosedShape<V>(scope: map<string, V>, f: Frame<V>, body: Body<V>)
    requires f.Bracketed? && (f.head.GroupHead? ==> f.b == Round)
    ensures var c := Enclosed(f, body);
      && FrameOps(f) == RightEdge(c) + [OpenName(f.b)]
      && FrameCode(scope, f) + PostorderBody(scope, body) == Early(scope, c)
      && FramePrint(f) + PrintRest(f.b, body) == Print(c)
      && (forall op | op in RightEdge(c) :: op == "()" || op == "[]")
  {
  }

  lemma EnclosedFits<V>(t: Table, base: seq<Frame<V>>, f: Frame<V>, body: Body<V>)
    requires f.Bracketed? && FramesFit(t, base) && FrameFits(t, base, f)
    requires KnownBody(t, body) && FitsBody(t, body)
    ensures Holding(t, base, Enclosed(f, body))
  {
  }

  lemma EnclosedHave<V>(t: Table, scope: map<string, V>, base: seq<Frame<V>>, f: Frame<V>, body: Body<V>)
    requires f.Bracketed? && FramesFit(t, base) && FrameFits(t, base, f)
    requires KnownBody(t, body) && FitsBody(t, body)
    ensures var c := Enclosed(f, body);
      && Ops(base + [f]) == Ops(base) + RightEdge(c) + [OpenName(f.b)]
      && Code(scope, base + [f]) + PostorderBody(scope, body) == Code(scope, base) + Early(scope, c)
      && PrintAll(base + [f]) + PrintRest(f.b, body) == PrintAll(base) + Print(c)
      && Have(t, scope, State(Code(scope, base) + Early(scope, c), Ops(base) + RightEdge(c), NOT_OP, false), base, c)
  {
    assert Front(base + [f]) == base;
    var c := Enclosed(f, body);
    EnclosedShape(scope, f, body);
    EnclosedFits(t, base, f, body);
    Assoc(Ops(base), RightEdge(c), [OpenName(f.b)]);
    Assoc(Code(scope, base), FrameCode(scope, f), PostorderBody(scope, body));
    Assoc(PrintAll(base), FramePrint(f), PrintRest(f.b, body));
  }

  /** From state s the tokens compile to the code of the tree e, whose print is given. */
  ghost predicate Parsed<V>(t: Table, scope: map<string, V>, s: State<V>, toks: seq<Token<V>>, e: Expr<V>,
                            printed: seq<Token<V>>)
  {
    && Known(t, e) && Fits(t, e) && Print(e) == printed
    && var r := FeedAll(t, scope, s, toks);
       r.Ok? && Finish(r.value) == Ok(Postorder(scope, e))
  }

  lemma ParsedStep<V>(t: Table, scope: map<string, V>, s: State<V>, tok: Token<V>, s': State<V>, rest: seq<Token<V>>,
                      e: Expr<V>, before: seq<Token<V>>, after: seq<Token<V>>)
    requires Feed(t, scope, s, tok) == Ok(s')
    requires after == before + [tok] && Parsed(t, scope, s', rest, e, after + rest)
    ensures Parsed(t, scope, s, [tok] + rest, e, before + ([tok] + rest))
  {
    FeedFirst(t, scope, s, tok, rest, s');
    Assoc(before, [tok], rest);
  }

  lemma SnocFrame<V>(t: Table, scope: map<string, V>, fs: seq<Frame<V>>, f: Frame<V>)
    requires FramesFit(t, fs) && FrameFits(t, fs, f)
    ensures var gs := fs + [f];
      && FramesFit(t, gs)
      && Ops(gs) == Ops(fs) + FrameOps(f) && Last(Ops(gs)) == Last(FrameOps(f))
      && Code(scope, gs) == Code(scope, fs) + FrameCode(scope, f)
      && PrintAll(gs) == PrintAll(fs) + FramePrint(f)
      && Opens(gs) == Opens(fs) + (if f.Bracketed? then [FrameOpened(f)] else [])
  {
    assert Front(fs + [f]) == fs;
  }

  /** After one token: the frames and their print have grown by the frame f and the token. */
  ghost predicate Pushed<V>(t: Table, scope: map<string, V>, s: State<V>, from: Mode, tok: Token<V>, fs: seq<Frame<V>>,
                            s': State<V>, gs: seq<Frame<V>>, mode: Mode)
  {
    && Feed(t, scope, s, tok) == Ok(s')
    && Due(t, scope, s', gs, mode)
    && Opens(gs) == NextOpen(from, Opens(fs), tok)
  }

  lemma DueOperand<V>(t: Table, scope: map<string, V>, s: State<V>, fs: seq<Frame<V>>, mode: Mode, a: Atom<V>)
    requires Due(t, scope, s, fs, mode)
    ensures Have(t, scope, HandleToken(s, Compiled(scope, a)), fs, Leaf(a))
  {
  }

  lemma DuePrefix<V>(t: Table, scope: map<string, V>, s: State<V>, fs: seq<Frame<V>>, mode: Mode, op: string)
    returns (s': State<V>, gs: seq<Frame<V>>)
    requires Due(t, scope, s, fs, mode) && Plain(op) && t.Exists(op) && t.Exists("L" + op)
    ensures Pushed(t, scope, s, mode, Op(op), fs, s', gs, NeedOperand("L" + op))
    ensures PrintAll(gs) == PrintAll(fs) + [Op(op)]
  {
    s' := State(s.rpn + [Unary], s.ops + ["L" + op], FirstChar(op), true);
    var f: Frame<V> := OperandDue(op);
    gs := fs + [f];
    SnocFrame(t, scope, fs, f);
  }

  lemma DueGroup<V>(t: Table, scope: map<string, V>, s: State<V>, fs: seq<Frame<V>>, mode: Mode)
    returns (s': State<V>, gs: seq<Frame<V>>)
    requires Due(t, scope, s, fs, mode)
    ensures Pushed(t, scope, s, mode, Open(Round), fs, s', gs, JustOpened)
    ensures PrintAll(gs) == PrintAll(fs) + [Open(Round)]
  {
    s' := OpenBracket(s, Round);
    var f: Frame<V> := Bracketed(GroupHead, Round);
    gs := fs + [f];
    SnocFrame(t, scope, fs, f);
  }

  lemma LiteralStep<V>(t: Table, scope: map<string, V>, s: State<V>, b: Bracket)
    requires t.Sane() && b != Round && s.lastOp != NOT_OP
    requires s.ops == [] || !t.Pops("()", Last(s.ops))
    ensures Feed(t, scope, s, Open(b))
         == Ok(OpenBracket(State(s.rpn + [Rpn.Constructor(b)], s.ops + ["()"], '(', false), b))
  {
    var s1 := HandleToken(s, Rpn.Constructor(b));
    assert "R" + "()" == "R()";
    assert PopWhile(t, "()", s1.rpn, s.ops) == (s1.rpn, s.ops);
    BinaryStep(t, s1, "()", s1.rpn, s.ops);
  }

  lemma LiteralMayStart<V>(t: Table, scope: map<string, V>, s: State<V>, fs: seq<Frame<V>>, mode: Mode)
    requires t.Sane() && Due(t, scope, s, fs, mode)
    requires mode.NeedOperand? ==> !t.Pops("()", mode.top)
    ensures Lets(t, fs, ["()"]) && (s.ops == [] || !t.Pops("()", Last(s.ops)))
  {
    if mode.JustOpened? {
      BracketStays(t, fs, "()");
    }
  }

  lemma LiteralFrame<V>(t: Table, scope: map<string, V>, s: State<V>, fs: seq<Frame<V>>, b: Bracket)
    requires FramesFit(t, fs) && s.rpn == Code(scope, fs) && s.ops == Ops(fs) && b != Round && Lets(t, fs, ["()"])
    ensures var gs := fs + [Bracketed(LiteralHead, b)];
      && Due(t, scope, OpenBracket(State(s.rpn + [Rpn.Constructor(b)], s.ops + ["()"], '(', false), b), gs, JustOpened)
      && Opens(gs) == Opens(fs) + [Opened(b, ["()"])] && PrintAll(gs) == PrintAll(fs) + [Open(b)]
  {
    SnocFrame(t, scope, fs, Bracketed(LiteralHead, b));
    Assoc(s.ops, ["()"], [OpenName(b)]);
    hide FramesFit, FrameFits, Lets, Code, Ops, PrintAll, Opens;
  }

  lemma DueLiteral<V>(t: Table, scope: map<string, V>, s: State<V>, fs: seq<Frame<V>>, mode: Mode, b: Bracket)
    returns (s': State<V>, gs: seq<Frame<V>>)
    requires t.Sane() && Due(t, scope, s, fs, mode) && b != Round
    requires mode.NeedOperand? ==> !t.Pops("()", mode.top)
    ensures Pushed(t, scope, s, mode, Open(b), fs, s', gs, JustOpened)
    ensures PrintAll(gs) == PrintAll(fs) + [Open(b)]
  {
    LiteralMayStart(t, scope, s, fs, mode);
    LiteralStep(t, scope, s, b);
    s' := OpenBracket(State(s.rpn + [Rpn.Constructor(b)], s.ops + ["()"], '(', false), b);
    gs := fs + [Bracketed(LiteralHead, b)];
    LiteralFrame(t, scope, s, fs, b);
    hide Due, Feed, Opens, PrintAll;
  }

  lemma DueOpen<V>(t: Table, scope: map<string, V>, s: State<V>, fs: seq<Frame<V>>, mode: Mode, b: Bracket)
    returns (s': State<V>, gs: seq<Frame<V>>)
    requires t.Sane() && Due(t, scope, s, fs, mode)
    requires mode.NeedOperand? && b != Round ==> !t.Pops("()", mode.top)
    ensures Pushed(t, scope, s, mode, Open(b), fs, s', gs, JustOpened)
    ensures PrintAll(gs) == PrintAll(fs) + [Open(b)]
  {
    if b == Round {
      s', gs := DueGroup(t, scope, s, fs, mode);
    } else {
      s', gs := DueLiteral(t, scope, s, fs, mode, b);
    }
  }

  /** The innermost bracket of the frames is the last frame once nothing else is pending. */
  lemma InnermostBracket<V>(fs: seq<Frame<V>>)
    requires Opens(fs) != [] && (fs == [] || Last(fs).Bracketed?)
    ensures fs != [] && fs == Front(fs) + [Last(fs)] && FrameOpened(Last(fs)) == Last(Opens(fs))
      && Opens(Front(fs)) == Front(Opens(fs))
  {
  }

  lemma CloseEmpty<V>(s: State<V>, b: Bracket, under: seq<string>)
    requires s.ops == under + [OpenName(b)] && s.lastOp == OpenName(b)[0]
    ensures CloseBracket(s, b) == Ok(State(s.rpn + [EmptyTuple], under, NOT_OP, false))
  {
    assert Front(s.ops) == under;
    assert PopUntil(OpenName(b), s.rpn + [EmptyTuple], s.ops) == (s.rpn + [EmptyTuple], s.ops);
  }

  lemma CloseNothing<V>(t: Table, scope: map<string, V>, s: State<V>, base: seq<Frame<V>>, f: Frame<V>)
    returns (s': State<V>)
    requires f.Bracketed? && FramesFit(t, base) && FrameFits(t, base, f)
    requires s.rpn == Code(scope, base + [f]) && s.ops == Ops(base + [f]) && s.lastOp == OpenName(f.b)[0]
    ensures Feed(t, scope, s, Close(f.b)) == Ok(s') && Have(t, scope, s', base, Enclosed(f, Nothing))
    ensures PrintAll(base) + Print(Enclosed(f, Nothing)) == PrintAll(base + [f]) + [Close(f.b)]
  {
    hide FramesFit, FrameFits, Known, Fits, Postorder, Early, Print, FrameCode, FramePrint, Have, Ops, Code, PrintAll;
    var c := Enclosed(f, Nothing);
    EnclosedHave(t, scope, base, f, Nothing);
    CloseEmpty(s, f.b, Ops(base) + RightEdge(c));
    s' := State(s.rpn + [EmptyTuple], Ops(base) + RightEdge(c), NOT_OP, false);
  }

  lemma DueBracket<V>(t: Table, scope: map<string, V>, s: State<V>, fs: seq<Frame<V>>)
    requires Due(t, scope, s, fs, JustOpened) && Opens(fs) != []
    ensures fs != [] && Last(fs).Bracketed? && fs == Front(fs) + [Last(fs)]
    ensures FramesFit(t, Front(fs)) && FrameFits(t, Front(fs), Last(fs))
    ensures s.rpn == Code(scope, fs) && s.ops == Ops(fs) && s.lastOp == OpenName(Last(fs).b)[0]
    ensures FrameOpened(Last(fs)) == Last(Opens(fs)) && Opens(Front(fs)) == Front(Opens(fs))
  {
    hide Code, Ops, FrameFits;
  }

  /** A closing bracket right after its opening one. */
  lemma DueClose<V>(t: Table, scope: map<string, V>, s: State<V>, fs: seq<Frame<V>>, b: Bracket)
    returns (s': State<V>, base: seq<Frame<V>>, c: Expr<V>)
    requires t.Sane() && Due(t, scope, s, fs, JustOpened) && Opens(fs) != [] && Last(Opens(fs)).bracket == b
    ensures Feed(t, scope, s, Close(b)) == Ok(s') && Have(t, scope, s', base, c)
    ensures PrintAll(base) + Print(c) == PrintAll(fs) + [Close(b)]
    ensures Opens(base) == Front(Opens(fs)) && RightEdge(c) == Last(Opens(fs)).edge
  {
    hide Due, Feed, Have, PrintAll, Print, Opens, FramesFit, FrameFits, Code, Ops;
    DueBracket(t, scope, s, fs);
    var f := Last(fs);
    base, c := Front(fs), Enclosed(f, Nothing);
    s' := CloseNothing(t, scope, s, base, f);
  }

  lemma HaveBinary<V>(t: Table, scope: map<string, V>, s: State<V>, fs: seq<Frame<V>>, c: Expr<V>, op: string)
    returns (s': State<V>, gs: seq<Frame<V>>)
    requires t.Sane() && Have(t, scope, s, fs, c)
    requires Plain(op) && t.Exists(op) && !t.Exists("R" + op) && ClosesAll(t, op, RightEdge(c))
    ensures Pushed(t, scope, s, HaveOperand(RightEdge(c)), Op(op), fs, s', gs, NeedOperand(op))
    ensures PrintAll(gs) == PrintAll(fs) + Print(c) + [Op(op)]
  {
    var base, l := OperatorArrives(t, scope, s, fs, c, op);
    var f := RightDue(l, op);
    BinaryStep(t, s, op, Code(scope, base) + Postorder(scope, l), Ops(base));
    s' := State(Code(scope, base) + Postorder(scope, l), Ops(base) + [op], FirstChar(op), false);
    gs := base + [f];
    SnocFrame(t, scope, base, f);
    Assoc(PrintAll(base), Print(l), [Op(op)]);
    hide FramesFit, FrameFits, Lets, Code, Ops, PrintAll, Opens, Have, PopWhile, Known, Fits;
  }

  lemma HavePostfix<V>(t: Table, scope: map<string, V>, s: State<V>, fs: seq<Frame<V>>, c: Expr<V>, op: string)
    returns (s': State<V>, base: seq<Frame<V>>, c': Expr<V>)
    requires t.Sane() && Have(t, scope, s, fs, c)
    requires Plain(op) && t.Exists(op) && t.Exists("R" + op) && ClosesAll(t, "R" + op, RightEdge(c))
    ensures Feed(t, scope, s, Op(op)) == Ok(s') && Have(t, scope, s', base, c')
    ensures PrintAll(base) + Print(c') == PrintAll(fs) + Print(c) + [Op(op)]
    ensures Opens(base) == Opens(fs) && RightEdge(c') == []
  {
    var x;
    base, x := OperatorArrives(t, scope, s, fs, c, "R" + op);
    c' := Postfix(op, x);
    s' := State(Code(scope, base) + Postorder(scope, x) + [Unary, Operator(op)], Ops(base), NOT_OP, false);
    PostfixStep(t, scope, s, op, Code(scope, base) + Postorder(scope, x), Ops(base));
    PostfixHave(t, scope, base, x, op);
    Assoc(PrintAll(base), Print(x), [Op(op)]);
    hide Have, PrintAll, Feed;
  }

  lemma PostfixHave<V>(t: Table, scope: map<string, V>, base: seq<Frame<V>>, x: Expr<V>, op: string)
    requires Holding(t, base, x) && ClosesAll(t, "R" + op, RightEdge(x)) && Lets(t, base, ["R" + op])
    requires Plain(op) && t.Exists(op) && t.Exists("R" + op)
    ensures Have(t, scope,
                 State(Code(scope, base) + Postorder(scope, x) + [Unary, Operator(op)], Ops(base), NOT_OP, false), base,
                 Postfix(op, x))
  {
    Assoc(Code(scope, base), Postorder(scope, x), [Unary, Operator(op)]);
    assert Ops(base) + [] == Ops(base);
  }

  lemma ApplyFrame<V>(t: Table, scope: map<string, V>, base: seq<Frame<V>>, h: Expr<V>, b: Bracket)
    returns (gs: seq<Frame<V>>)
    requires b != Curly && Holding(t, base, h)
    requires ClosesAll(t, ApplyName(b), RightEdge(h)) && Lets(t, base, [ApplyName(b)])
    ensures Due(t, scope, OpenBracket(State(Code(scope, base) + Postorder(scope, h), Ops(base) + [ApplyName(b)],
                                            FirstChar(ApplyName(b)), false), b), gs, JustOpened)
    ensures PrintAll(gs) == PrintAll(base) + Print(h) + [Open(b)]
      && Opens(gs) == Opens(base) + [Opened(b, [ApplyName(b)])]
  {
    hide Known, Fits, Postorder, Print, LeftEdge, RightEdge, ClosesAll;
    var f := Bracketed(ApplyHead(h), b);
    gs := base + [f];
    SnocFrame(t, scope, base, f);
    Assoc(Ops(base), [ApplyName(b)], [OpenName(b)]);
    Assoc(PrintAll(base), Print(h), [Open(b)]);
    hide FramesFit, FrameFits, Lets, Code, Ops, PrintAll, Opens;
  }

  lemma HaveApply<V>(t: Table, scope: map<string, V>, s: State<V>, fs: seq<Frame<V>>, c: Expr<V>, b: Bracket)
    returns (s': State<V>, gs: seq<Frame<V>>)
    requires t.Sane() && Have(t, scope, s, fs, c) && b != Curly && ClosesAll(t, ApplyName(b), RightEdge(c))
    ensures Pushed(t, scope, s, HaveOperand(RightEdge(c)), Open(b), fs, s', gs, JustOpened)
    ensures PrintAll(gs) == PrintAll(fs) + Print(c) + [Open(b)]
  {
    var base, h := OperatorArrives(t, scope, s, fs, c, ApplyName(b));
    ApplyStep(t, scope, s, b, Code(scope, base) + Postorder(scope, h), Ops(base));
    gs := ApplyFrame(t, scope, base, h, b);
    s' := OpenBracket(State(Code(scope, base) + Postorder(scope, h), Ops(base) + [ApplyName(b)],
                            FirstChar(ApplyName(b)), false), b);
  }

  lemma CloseFull<V>(s: State<V>, b: Bracket, under: seq<string>, popped: seq<string>)
    requires s.ops == under + [OpenName(b)] + popped && OpenName(b) !in popped && s.lastOp == NOT_OP
    ensures CloseBracket(s, b) == Ok(State(s.rpn + Emit(popped), under, NOT_OP, false))
  {
    PopUntilExact(OpenName(b), s.rpn, under, popped);
    assert Front(under + [OpenName(b)]) == under;
  }

  lemma NoBracketPopped(b: Bracket, popped: seq<string>, edge: seq<string>)
    requires "(" !in popped && "[" !in popped && "{" !in popped && forall op | op in edge :: op == "()" || op == "[]"
    ensures OpenName(b) !in popped + edge
  {
  }

  /** Everything since the innermost open bracket, completed to one tree x. */
  lemma CollapseToBracket<V>(t: Table, scope: map<string, V>, fs: seq<Frame<V>>, c: Expr<V>)
    returns (gs: seq<Frame<V>>, x: Expr<V>, popped: seq<string>)
    requires Holding(t, fs, c) && Opens(fs) != []
    ensures gs != [] && Last(gs).Bracketed? && Holding(t, gs, x) && Collapsed(scope, fs, c, gs, x, popped)
    ensures FrameOpened(Last(gs)) == Last(Opens(fs)) && Opens(Front(gs)) == Front(Opens(fs))
      && gs == Front(gs) + [Last(gs)]
  {
    gs, x, popped := Collapse(t, scope, None, fs, c);
    hide Code, PrintAll, Postorder, Print, Emit;
    InnermostBracket(gs);
  }

  /** A closing bracket after an operand completes everything back to its opening bracket. */
  lemma HaveClose<V>(t: Table, scope: map<string, V>, s: State<V>, fs: seq<Frame<V>>, c: Expr<V>, b: Bracket)
    returns (s': State<V>, base: seq<Frame<V>>, c': Expr<V>)
    requires Have(t, scope, s, fs, c) && Opens(fs) != [] && Last(Opens(fs)).bracket == b
    ensures Feed(t, scope, s, Close(b)) == Ok(s') && Have(t, scope, s', base, c')
    ensures PrintAll(base) + Print(c') == PrintAll(fs) + Print(c) + [Close(b)]
    ensures Opens(base) == Front(Opens(fs)) && RightEdge(c') == Last(Opens(fs)).edge
  {
    var gs, x, p := CollapseToBracket(t, scope, fs, c);
    PoppedCode(t, scope, fs, c, gs, x, p);
    NoBracketPopped(b, p, RightEdge(c));
    var f := Last(gs);
    base, c' := Front(gs), Enclosed(f, Inside(x));
    assert FramesFit(t, base) && FrameFits(t, base, f) && Known(t, x) && Fits(t, x);
    s' := CloseFramesOf(t, scope, s, base, f, x, p + RightEdge(c), PrintAll(fs) + Print(c));
  }

  lemma CloseFramesOf<V>(t: Table, scope: map<string, V>, s: State<V>, base: seq<Frame<V>>, f: Frame<V>, x: Expr<V>,
                         popped: seq<string>, printed: seq<Token<V>>)
    returns (s': State<V>)
    requires f.Bracketed? && FramesFit(t, base) && FrameFits(t, base, f) && Known(t, x) && Fits(t, x)
    requires s.ops == Ops(base + [f]) + popped && OpenName(f.b) !in popped && s.lastOp == NOT_OP
    requires s.rpn + Emit(popped) == Code(scope, base + [f]) + Postorder(scope, x)
      && PrintAll(base + [f]) + Print(x) == printed
    ensures Feed(t, scope, s, Close(f.b)) == Ok(s') && Have(t, scope, s', base, Enclosed(f, Inside(x)))
    ensures PrintAll(base) + Print(Enclosed(f, Inside(x))) == printed + [Close(f.b)]
  {
    hide Have, Feed, Code, Ops, PrintAll, Postorder, Print, Emit, FramesFit, FrameFits, Known, Fits;
    s' := CloseFrames(t, scope, s, base, f, x, popped);
    Assoc(PrintAll(base + [f]), Print(x), [Close(f.b)]);
  }

  lemma CloseFrames<V>(t: Table, scope: map<string, V>, s: State<V>, base: seq<Frame<V>>, f: Frame<V>, x: Expr<V>,
                       popped: seq<string>)
    returns (s': State<V>)
    requires f.Bracketed? && FramesFit(t, base) && FrameFits(t, base, f) && Known(t, x) && Fits(t, x)
    requires s.ops == Ops(base + [f]) + popped && OpenName(f.b) !in popped && s.lastOp == NOT_OP
    requires s.rpn + Emit(popped) == Code(scope, base + [f]) + Postorder(scope, x)
    ensures Feed(t, scope, s, Close(f.b)) == Ok(s') && Have(t, scope, s', base, Enclosed(f, Inside(x)))
    ensures PrintAll(base) + Print(Enclosed(f, Inside(x))) == PrintAll(base + [f]) + (Print(x) + [Close(f.b)])
  {
    var c' := Enclosed(f, Inside(x));
    EnclosedHave(t, scope, base, f, Inside(x));
    CloseFull(s, f.b, Ops(base) + RightEdge(c'), popped);
    s' := State(Code(scope, base + [f]) + Postorder(scope, x), Ops(base) + RightEdge(c'), NOT_OP, false);
  }

  lemma HaveEnd<V>(t: Table, scope: map<string, V>, s: State<V>, fs: seq<Frame<V>>, c: Expr<V>) returns (e: Expr<V>)
    requires Have(t, scope, s, fs, c) && Opens(fs) == []
    ensures Parsed(t, scope, s, [], e, PrintAll(fs) + Print(c))
  {
    var gs, popped;
    gs, e, popped := Collapse(t, scope, None, fs, c);
    assert gs == [];
    PoppedCode(t, scope, fs, c, gs, e, popped);
    PostorderNonEmpty(scope, e);
    assert Ops(gs) + (popped + RightEdge(c)) == popped + RightEdge(c);
    assert Code(scope, gs) + Postorder(scope, e) == Postorder(scope, e);
    assert Finish(s) == Ok(Postorder(scope, e));
  }

  /** Where the parser stands: an operand is due, or the operand c has just been read. */
  datatype Place<V> = OperandIsDue(fs: seq<Frame<V>>, mode: Mode) | OperandRead(fs: seq<Frame<V>>, c: Expr<V>)

  function ModeAt<V>(p: Place<V>): Mode {
    if p.OperandRead? then HaveOperand(RightEdge(p.c)) else p.mode
  }

  function PrintAt<V>(p: Place<V>): seq<Token<V>> {
    PrintAll(p.fs) + if p.OperandRead? then Print(p.c) else []
  }

  ghost predicate At<V>(t: Table, scope: map<string, V>, s: State<V>, p: Place<V>) {
    match p
    case OperandIsDue(fs, mode) => Due(t, scope, s, fs, mode)
    case OperandRead(fs, c) => Have(t, scope, s, fs, c)
  }

  lemma AdvanceDue<V>(t: Table, scope: map<string, V>, s: State<V>, p: Place<V>, tok: Token<V>)
    returns (s': State<V>, q: Place<V>)
    requires t.Sane() && p.OperandIsDue? && At(t, scope, s, p)
    requires Allowed(t, p.mode, Opens(p.fs), tok)
    ensures Feed(t, scope, s, tok) == Ok(s') && At(t, scope, s', q)
    ensures PrintAt(q) == PrintAt(p) + [tok]
    ensures ModeAt(q) == NextMode(t, ModeAt(p), Opens(p.fs), tok)
      && Opens(q.fs) == NextOpen(ModeAt(p), Opens(p.fs), tok)
  {
    assert !p.mode.HaveOperand?;
    hide Due, Have, Feed, PrintAll, Opens, FrameOpened;
    match tok
    case Operand(a) =>
      DueOperand(t, scope, s, p.fs, p.mode, a);
      s', q := HandleToken(s, Compiled(scope, a)), OperandRead(p.fs, Leaf(a));
    case Op(op) =>
      var gs;
      s', gs := DuePrefix(t, scope, s, p.fs, p.mode, op);
      q := OperandIsDue(gs, NeedOperand("L" + op));
    case Open(b) =>
      var gs;
      s', gs := DueOpen(t, scope, s, p.fs, p.mode, b);
      q := OperandIsDue(gs, JustOpened);
    case Close(b) =>
      var base, c;
      s', base, c := DueClose(t, scope, s, p.fs, b);
      q := OperandRead(base, c);
  }

  lemma AdvanceRead<V>(t: Table, scope: map<string, V>, s: State<V>, p: Place<V>, tok: Token<V>)
    returns (s': State<V>, q: Place<V>)
    requires t.Sane() && p.OperandRead? && At(t, scope, s, p)
    requires Allowed(t, ModeAt(p), Opens(p.fs), tok)
    ensures Feed(t, scope, s, tok) == Ok(s') && At(t, scope, s', q)
    ensures PrintAt(q) == PrintAt(p) + [tok]
    ensures ModeAt(q) == NextMode(t, ModeAt(p), Opens(p.fs), tok)
      && Opens(q.fs) == NextOpen(ModeAt(p), Opens(p.fs), tok)
  {
    hide Due, Have, Feed, PrintAll, Opens, FrameOpened;
    var gs, c;
    match tok
    case Op(op) =>
      if t.Exists("R" + op) {
        s', gs, c := HavePostfix(t, scope, s, p.fs, p.c, op);
        q := OperandRead(gs, c);
      } else {
        s', gs := HaveBinary(t, scope, s, p.fs, p.c, op);
        q := OperandIsDue(gs, NeedOperand(op));
      }
    case Open(b) =>
      s', gs := HaveApply(t, scope, s, p.fs, p.c, b);
      q := OperandIsDue(gs, JustOpened);
    case Close(b) =>
      s', gs, c := HaveClose(t, scope, s, p.fs, p.c, b);
      q := OperandRead(gs, c);
  }

  lemma {:induction false} ParseFrom<V>(t: Table, scope: map<string, V>, s: State<V>, p: Place<V>, toks: seq<Token<V>>)
    returns (e: Expr<V>)
    requires t.Sane()
    requires At(t, scope, s, p) && WellFormed(t, toks, ModeAt(p), Opens(p.fs))
    ensures Parsed(t, scope, s, toks, e, PrintAt(p) + toks)
    decreases |toks|
  {
    hide Have, Parsed, Feed, PrintAll;
    if toks == [] {
      e := HaveEnd(t, scope, s, p.fs, p.c);
      assert PrintAt(p) + toks == PrintAt(p);
    } else {
      var tok, rest := toks[0], toks[1..];
      var s', q;
      if p.OperandIsDue? {
        s', q := AdvanceDue(t, scope, s, p, tok);
      } else {
        s', q := AdvanceRead(t, scope, s, p, tok);
      }
      e := ParseFrom(t, scope, s', q, rest);
      ParsedStep(t, scope, s, tok, s', rest, e, PrintAt(p), PrintAt(q));
      assert [tok] + rest == toks;
    }
  }

  /** Every well-formed token list is the print of a tree that fits, and compiles to that tree's code. */
  lemma ParseCorrect<V>(t: Table, scope: map<string, V>, toks: seq<Token<V>>) returns (e: Expr<V>)
    requires t.Sane() && WellFormed(t, toks, JustOpened, [])
    ensures Known(t, e) && Fits(t, e) && Print(e) == toks
    ensures Compile(t, scope, toks) == Ok(Postorder(scope, e))
  {
    var p: Place<V> := OperandIsDue([], JustOpened);
    e := ParseFrom(t, scope, StartState(), p, toks);
    assert PrintAt(p) + toks == toks;
  }

  /** The call or index that a printed tree ends in. */
  function FreshEdge<V>(e: Expr<V>): (edge: seq<string>)
    ensures forall top | top in edge :: top in RightEdge(e)
  {
    match e
    case Binary(_, _, r) => FreshEdge(r)
    case Prefix(_, x) => FreshEdge(x)
    case Apply(_, b, _) => [ApplyName(b)]
    case Literal(_, _) => ["()"]
    case _ => []
  }

  lemma {:induction false} PrintIsWellFormed<V>(t: Table, e: Expr<V>, mode: Mode, open: seq<Opened>,
                                                rest: seq<Token<V>>)
    requires t.Sane() && Known(t, e) && Fits(t, e)
    requires !mode.HaveOperand? && (mode.NeedOperand? ==> ClosesNone(t, LeftEdge(e), mode.top))
    requires WellFormed(t, rest, HaveOperand(FreshEdge(e)), open)
    ensures WellFormed(t, Print(e) + rest, mode, open)
    decreases e, 1
  {
    match e
    case Leaf(a) => WellFormedCons(t, Operand(a), rest, mode, open);
    case Binary(op, l, r) => BinaryIsWellFormed(t, e, mode, open, rest);
    case Prefix(op, x) =>
      PrintIsWellFormed(t, x, NeedOperand("L" + op), open, rest);
      WellFormedCons(t, Op(op), Print(x) + rest, mode, open);
      Assoc([Op(op)], Print(x), rest);
    case Postfix(op, x) =>
      WellFormedCons(t, Op(op), rest, HaveOperand(FreshEdge(x)), open);
      PrintIsWellFormed(t, x, mode, open, [Op(op)] + rest);
      Assoc(Print(x), [Op(op)], rest);
    case Group(b) =>
      BodyIsWellFormed(t, Opened(Round, []), b, open, rest);
      WellFormedCons(t, Open(Round), PrintRest(Round, b) + rest, mode, open);
      Assoc([Open(Round)], PrintRest(Round, b), rest);
    case Apply(h, b, x) => ApplyIsWellFormed(t, e, mode, open, rest);
    case Literal(b, x) =>
      BodyIsWellFormed(t, Opened(b, ["()"]), x, open, rest);
      assert "()" in LeftEdge(e);
      WellFormedCons(t, Open(b), PrintRest(b, x) + rest, mode, open);
      Assoc([Open(b)], PrintRest(b, x), rest);
  }

  lemma Assoc4<T>(a: seq<T>, b: seq<T>, c: seq<T>, d: seq<T>)
    ensures a + b + c + d == a + (b + (c + d))
  {
  }

  lemma {:induction false} BinaryIsWellFormed<V>(t: Table, e: Expr<V>, mode: Mode, open: seq<Opened>,
                                                 rest: seq<Token<V>>)
    requires e.Binary? && t.Sane() && Known(t, e) && Fits(t, e)
    requires !mode.HaveOperand? && (mode.NeedOperand? ==> ClosesNone(t, LeftEdge(e), mode.top))
    requires WellFormed(t, rest, HaveOperand(FreshEdge(e)), open)
    ensures WellFormed(t, Print(e) + rest, mode, open)
    decreases e, 0
  {
    var Binary(op, l, r) := e;
    PrintIsWellFormed(t, r, NeedOperand(op), open, rest);
    WellFormedCons(t, Op(op), Print(r) + rest, HaveOperand(FreshEdge(l)), open);
    PrintIsWellFormed(t, l, mode, open, [Op(op)] + (Print(r) + rest));
    Assoc4(Print(l), [Op(op)], Print(r), rest);
  }

  lemma {:induction false} ApplyIsWellFormed<V>(t: Table, e: Expr<V>, mode: Mode, open: seq<Opened>,
                                                rest: seq<Token<V>>)
    requires e.Apply? && t.Sane() && Known(t, e) && Fits(t, e)
    requires !mode.HaveOperand? && (mode.NeedOperand? ==> ClosesNone(t, LeftEdge(e), mode.top))
    requires WellFormed(t, rest, HaveOperand(FreshEdge(e)), open)
    ensures WellFormed(t, Print(e) + rest, mode, open)
    decreases e, 0
  {
    var Apply(h, b, x) := e;
    BodyIsWellFormed(t, Opened(b, [ApplyName(b)]), x, open, rest);
    WellFormedCons(t, Open(b), PrintRest(b, x) + rest, HaveOperand(FreshEdge(h)), open);
    PrintIsWellFormed(t, h, mode, open, [Open(b)] + (PrintRest(b, x) + rest));
    Assoc4(Print(h), [Open(b)], PrintRest(b, x), rest);
  }

  lemma WellFormedCons<V>(t: Table, tok: Token<V>, rest: seq<Token<V>>, mode: Mode, open: seq<Opened>)
    requires Allowed(t, mode, open, tok) && WellFormed(t, rest, NextMode(t, mode, open, tok), NextOpen(mode, open, tok))
    ensures WellFormed(t, [tok] + rest, mode, open)
  {
    assert ([tok] + rest)[1..] == rest;
  }

  lemma {:induction false} BodyIsWellFormed<V>(t: Table, o: Opened, body: Body<V>, open: seq<Opened>,
                                               rest: seq<Token<V>>)
    requires t.Sane() && KnownBody(t, body) && FitsBody(t, body)
    requires WellFormed(t, rest, HaveOperand(o.edge), open)
    ensures WellFormed(t, PrintRest(o.bracket, body) + rest, JustOpened, open + [o])
    decreases body, 2
  {
    assert Front(open + [o]) == open;
    if body.Nothing? {
      WellFormedCons(t, Close(o.bracket), rest, JustOpened, open + [o]);
      assert PrintRest(o.bracket, body) == [Close(o.bracket)];
    } else {
      WellFormedCons(t, Close(o.bracket), rest, HaveOperand(FreshEdge(body.e)), open + [o]);
      PrintIsWellFormed(t, body.e, JustOpened, open + [o], [Close(o.bracket)] + rest);
      Assoc(Print(body.e), [Close(o.bracket)], rest);
    }
  }

  /** The token lists that follow the grammar are exactly the prints of the trees that fit. */
  lemma GrammarIsExact<V(!new)>(t: Table, toks: seq<Token<V>>)
    requires t.Sane()
    ensures WellFormed(t, toks, JustOpened, []) <==> exists e: Expr<V> :: Known(t, e) && Fits(t, e) && Print(e) == toks
  {
    if WellFormed(t, toks, JustOpened, []) {
      var e := ParseCorrect(t, map[], toks);
    }
    if e: Expr<V> :| Known(t, e) && Fits(t, e) && Print(e) == toks {
      PrintIsWellFormed(t, e, JustOpened, [], []);
      assert Print(e) + [] == toks;
    }
  }
}
