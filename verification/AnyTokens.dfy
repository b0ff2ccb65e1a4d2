/**
 What becomes of any token list, also one in which operands and operators do not alternate: whether it
 compiles, how many values its code leaves, and when running it is refused. The compiler checks little:
 an operand may follow an operand, and an unclosed bracket ends up in the code as an operator.
 */
module AnyTokens {
  import opened Wrappers
  import opened PrecedenceTable
  import opened RpnBuilder
  import opened ExprTree
  import opened RpnMachine
  import opened Sequences
  import opened StackBalance

  /**
   What decides whether the next token is accepted: the flags of the builder and the open brackets.
   weight counts the values that running the code would leave if the list ended here.
   */
  datatype Shape = Shape(last: char, unary: bool, open: seq<string>, weight: int)

  const START: Shape := Shape(AT_START, false, [], 0)

  /** The brackets below the innermost one of this name; those opened after it are closed with it. */
  function Below(open: seq<string>, name: string): Option<seq<string>>
    decreases |open|
  {
    if open == [] then None else if Last(open) == name then Some(Front(open)) else Below(Front(open), name)
  }

  /** A bracket that starts a list or a map. */
  predicate OpensLiteral(sh: Shape, b: Bracket) {
    b == Curly || (b == Square && sh.last != NOT_OP)
  }

  function Weight<V>(t: Table, sh: Shape, tok: Token<V>): int {
    match tok
    case Operand(_) => 1
    case Op(op) => if sh.last != NOT_OP || t.Exists("R" + op) then 0 else -1
    case Open(b) => if OpensLiteral(sh, b) || sh.last != NOT_OP then -1 else -2
    case Close(b) => if sh.last == OpenName(b)[0] then 2 else 1
  }

  function NextShape<V>(t: Table, sh: Shape, tok: Token<V>): Option<Shape> {
    var w := sh.weight + Weight(t, sh, tok);
    match tok
    case Operand(_) => Some(Shape(NOT_OP, false, sh.open, w))
    case Op(op) =>
      if !t.Exists(op) || (sh.last != NOT_OP && !t.Exists("L" + op)) then None
      else if sh.last == NOT_OP && t.Exists("R" + op) then Some(Shape(NOT_OP, false, sh.open, w))
      else Some(Shape(FirstChar(op), sh.last != NOT_OP, sh.open, w))
    case Open(b) => Some(Shape(OpenName(b)[0], false, sh.open + [OpenName(b)], w))
    case Close(b) =>
      match Below(sh.open, OpenName(b)) {
        case Some(open) => Some(Shape(NOT_OP, false, open, w))
        case None => None
      }
  }

  function ShapeOf<V>(t: Table, sh: Shape, toks: seq<Token<V>>): Option<Shape>
    decreases |toks|
  {
    if toks == [] then Some(sh)
    else match NextShape(t, sh, toks[0]) {
      case Some(next) => ShapeOf(t, next, toks[1..])
      case None => None
    }
  }

  /**
   Every operator is known, in its prefix form where an operand is due; every closing bracket has an
   open one of its kind; the last token is not a prefix operator.
   */
  predicate Compiles<V>(t: Table, toks: seq<Token<V>>) {
    toks != [] && var sh := ShapeOf(t, START, toks); sh.Some? && !sh.value.unary
  }

  /** Operator names as the scanner delivers them. */
  ghost predicate PlainOps<V>(toks: seq<Token<V>>) {
    forall tok | tok in toks && tok.Op? :: Plain(tok.name)
  }

  // The builder has this shape, whatever the precedences.

  ghost predicate Matches<V>(s: State<V>, sh: Shape) {
    && s.lastOp == sh.last && s.lastUnary == sh.unary && BracketsOn(s.ops) == sh.open
    && Balance(s.rpn) - |s.ops| == sh.weight
  }

  lemma BalanceSnoc<V>(rpn: seq<Rpn<V>>, x: Rpn<V>)
    ensures Balance(rpn + [x]) == Balance(rpn) + if x.Operator? then -1 else 1
  {
    assert Front(rpn + [x]) == rpn;
  }

  lemma {:induction false} PopWhileMoves<V>(t: Table, op: string, rpn: seq<Rpn<V>>, ops: seq<string>)
    requires t.Sane() && op !in OPEN_NAMES
    ensures var (rpn', ops') := PopWhile(t, op, rpn, ops);
      Balance(rpn') - |ops'| == Balance(rpn) - |ops| && BracketsOn(ops') == BracketsOn(ops)
    decreases |ops|
  {
    if ops != [] && t.Pops(op, Last(ops)) {
      BalanceSnoc(rpn, Operator(Normalize(Last(ops))));
      PopWhileMoves(t, op, rpn + [Operator(Normalize(Last(ops)))], Front(ops));
    }
  }

  lemma {:induction false} PopUntilMoves<V>(name: string, rpn: seq<Rpn<V>>, ops: seq<string>)
    requires name in OPEN_NAMES
    ensures var (rpn', ops') := PopUntil(name, rpn, ops);
      && Balance(rpn') - |ops'| == Balance(rpn) - |ops|
      && Below(BracketsOn(ops), name) == if ops' == [] then None else Some(BracketsOn(Front(ops')))
    decreases |ops|
  {
    if ops != [] {
      var below := BracketsOn(Front(ops));
      assert BracketsOn(ops) == if Last(ops) in OPEN_NAMES then below + [Last(ops)] else below;
      assert Front(below + [Last(ops)]) == below;
      if Last(ops) != name {
        BalanceSnoc(rpn, Operator(Normalize(Last(ops))));
        PopUntilMoves(name, rpn + [Operator(Normalize(Last(ops)))], Front(ops));
      }
    }
  }

  lemma PoppedMatches<V>(t: Table, s: State<V>, sh: Shape, op: string)
    requires t.Sane() && Matches(s, sh) && op !in OPEN_NAMES
    ensures var (rpn, ops) := PopWhile(t, op, s.rpn, s.ops); Matches(State(rpn, ops, s.lastOp, s.lastUnary), sh)
  {
    hide Balance, BracketsOn;
    PopWhileMoves(t, op, s.rpn, s.ops);
  }

  lemma PushedMatches<V>(s: State<V>, sh: Shape, op: string, last: char, unary: bool)
    requires Matches(s, sh) && op !in OPEN_NAMES
    ensures Matches(State(s.rpn, s.ops + [op], last, unary), Shape(last, unary, sh.open, sh.weight - 1))
  {
    PushedOp(s.ops, op);
    hide Balance, BracketsOn;
  }

  lemma EmittedMatches<V>(s: State<V>, sh: Shape, x: Rpn<V>, last: char, unary: bool)
    requires Matches(s, sh)
    ensures Matches(State(s.rpn + [x], s.ops, last, unary),
                    Shape(last, unary, sh.open, sh.weight + if x.Operator? then -1 else 1))
  {
    BalanceSnoc(s.rpn, x);
    hide Balance, BracketsOn;
  }

  lemma BinaryMatches<V>(t: Table, s: State<V>, sh: Shape, op: string)
    requires t.Sane() && Matches(s, sh) && op !in OPEN_NAMES && s.lastOp == NOT_OP && t.Exists(op)
      && !t.Exists("R" + op)
    ensures var r := HandleOp(t, s, op);
      r.Ok? && Matches(r.value, Shape(FirstChar(op), false, sh.open, sh.weight - 1))
  {
    hide Matches, PopWhile;
    PoppedMatches(t, s, sh, op);
    var (rpn, ops) := PopWhile(t, op, s.rpn, s.ops);
    PushedMatches(State(rpn, ops, s.lastOp, s.lastUnary), sh, op, FirstChar(op), false);
  }

  lemma PrefixMatches<V>(t: Table, s: State<V>, sh: Shape, op: string)
    requires Matches(s, sh) && "L" + op !in OPEN_NAMES && s.lastOp != NOT_OP && t.Exists("L" + op)
    ensures var r := HandleOp(t, s, op); r.Ok? && Matches(r.value, Shape(FirstChar(op), true, sh.open, sh.weight))
  {
    hide Matches;
    EmittedMatches(s, sh, Unary, NOT_OP, false);
    PushedMatches(State(s.rpn + [Unary], s.ops, NOT_OP, false), Shape(NOT_OP, false, sh.open, sh.weight + 1), "L" + op,
                  FirstChar(op), true);
  }

  lemma PostfixMatches<V>(t: Table, s: State<V>, sh: Shape, op: string)
    requires t.Sane() && Matches(s, sh) && "R" + op !in OPEN_NAMES && s.lastOp == NOT_OP && t.Exists("R" + op)
    ensures var r := HandleOp(t, s, op); r.Ok? && Matches(r.value, Shape(NOT_OP, false, sh.open, sh.weight))
  {
    hide Matches, PopWhile, Normalize;
    PoppedMatches(t, s, sh, "R" + op);
    var (rpn, ops) := PopWhile(t, "R" + op, s.rpn, s.ops);
    var x: Rpn<V> := Operator(Normalize("R" + op));
    EmittedMatches(State(rpn, ops, s.lastOp, s.lastUnary), sh, Unary, NOT_OP, false);
    EmittedMatches(State(rpn + [Unary], ops, NOT_OP, false), Shape(NOT_OP, false, sh.open, sh.weight + 1), x,
                   NOT_OP, false);
    assert rpn + [Unary] + [x] == rpn + [Unary, x];
  }

  lemma OpMatches<V>(t: Table, s: State<V>, sh: Shape, op: string)
    requires t.Sane() && Matches(s, sh) && Plain(op) && t.Exists(op)
    ensures var r, next := HandleOp(t, s, op), NextShape(t, sh, Token<V>.Op(op));
      (r.Ok? <==> next.Some?) && (r.Ok? ==> Matches(r.value, next.value))
  {
    assert s.lastOp == sh.last && ("L" + op)[0] == 'L' && ("R" + op)[0] == 'R';
    hide Matches, PopWhile, Normalize;
    if s.lastOp != NOT_OP {
      if t.Exists("L" + op) {
        PrefixMatches(t, s, sh, op);
      }
    } else if t.Exists("R" + op) {
      PostfixMatches(t, s, sh, op);
    } else {
      BinaryMatches(t, s, sh, op);
    }
  }

  lemma BracketMatches<V>(s: State<V>, sh: Shape, b: Bracket)
    requires Matches(s, sh)
    ensures Matches(OpenBracket(s, b), Shape(OpenName(b)[0], false, sh.open + [OpenName(b)], sh.weight - 1))
  {
    PushedOp(s.ops, OpenName(b));
    hide Balance, BracketsOn;
  }

  lemma LiteralMatches<V>(t: Table, s: State<V>, sh: Shape, b: Bracket)
    requires t.Sane() && Matches(s, sh)
    ensures var r := HandleOp(t, HandleToken(s, Rpn.Constructor(b)), "()");
      r.Ok? && Matches(OpenBracket(r.value, b), Shape(OpenName(b)[0], false, sh.open + [OpenName(b)], sh.weight - 1))
  {
    var s1, sh1 := HandleToken(s, Rpn.Constructor(b)), Shape(NOT_OP, false, sh.open, sh.weight + 1);
    EmittedMatches(s, sh, Rpn<V>.Constructor(b), NOT_OP, false);
    assert s1.lastOp == NOT_OP;
    CallsAreBinary(t, Round);
    hide Matches, HandleOp, OpenBracket, HandleToken;
    BinaryMatches(t, s1, sh1, "()");
    BracketMatches(HandleOp(t, s1, "()").value, Shape('(', false, sh.open, sh.weight), b);
  }

  lemma CallMatches<V>(t: Table, s: State<V>, sh: Shape, b: Bracket)
    requires t.Sane() && Matches(s, sh) && s.lastOp == NOT_OP
    ensures var r := HandleOp(t, s, ApplyName(b));
      r.Ok? && Matches(OpenBracket(r.value, b), Shape(OpenName(b)[0], false, sh.open + [OpenName(b)], sh.weight - 2))
  {
    var op := ApplyName(b);
    CallsAreBinary(t, b);
    hide Matches, HandleOp, OpenBracket, ApplyName;
    BinaryMatches(t, s, sh, op);
    BracketMatches(HandleOp(t, s, op).value, Shape(FirstChar(op), false, sh.open, sh.weight - 1), b);
  }

  lemma OpenMatches<V>(t: Table, scope: map<string, V>, s: State<V>, sh: Shape, b: Bracket)
    requires t.Sane() && Matches(s, sh)
    ensures var r, next := Feed(t, scope, s, Token<V>.Open(b)), NextShape(t, sh, Token<V>.Open(b));
      r.Ok? && next.Some? && Matches(r.value, next.value)
  {
    assert s.lastOp == sh.last;
    hide Matches, HandleOp, OpenBracket, HandleToken, OpenName, ApplyName;
    match b
    case Curly => LiteralMatches(t, s, sh, b);
    case Square => if s.lastOp == NOT_OP { CallMatches(t, s, sh, b); } else { LiteralMatches(t, s, sh, b); }
    case Round => if s.lastOp == NOT_OP { CallMatches(t, s, sh, b); } else { BracketMatches(s, sh, b); }
  }

  lemma ClosedMatches<V>(s: State<V>, sh: Shape, name: string)
    requires Matches(s, sh) && name in OPEN_NAMES
    ensures var (rpn, ops) := PopUntil(name, s.rpn, s.ops);
      && (ops == [] <==> Below(sh.open, name) == None)
      && (ops != [] ==>
          Matches(State(rpn, Front(ops), NOT_OP, false),
                  Shape(NOT_OP, false, Below(sh.open, name).value, sh.weight + 1)))
  {
    hide Balance, BracketsOn, Below;
    PopUntilMoves(name, s.rpn, s.ops);
  }

  lemma CloseMatches<V>(t: Table, s: State<V>, sh: Shape, b: Bracket)
    requires Matches(s, sh)
    ensures var r, next := CloseBracket(s, b), NextShape(t, sh, Token<V>.Close(b));
      (r.Ok? <==> next.Some?) && (r.Ok? ==> Matches(r.value, next.value))
  {
    assert s.lastOp == sh.last && OpenName(b) in OPEN_NAMES;
    hide Matches, PopUntil, Below;
    if s.lastOp == OpenName(b)[0] {
      EmittedMatches(s, sh, Rpn<V>.EmptyTuple, NOT_OP, false);
      ClosedMatches(State(s.rpn + [EmptyTuple], s.ops, NOT_OP, false), Shape(NOT_OP, false, sh.open, sh.weight + 1),
                    OpenName(b));
    } else {
      ClosedMatches(s, sh, OpenName(b));
    }
  }

  lemma StepMatches<V>(t: Table, scope: map<string, V>, s: State<V>, sh: Shape, tok: Token<V>)
    requires t.Sane() && Matches(s, sh) && (tok.Op? ==> Plain(tok.name))
    ensures var r, next := Feed(t, scope, s, tok), NextShape(t, sh, tok);
      (r.Ok? <==> next.Some?) && (r.Ok? ==> Matches(r.value, next.value))
  {
    match tok
    case Operand(a) => EmittedMatches(s, sh, Compiled(scope, a), NOT_OP, false);
    case Op(op) =>
      hide Matches, HandleOp;
      if t.Exists(op) {
        OpMatches(t, s, sh, op);
      }
    case Open(b) => OpenMatches(t, scope, s, sh, b);
    case Close(b) => CloseMatches(t, s, sh, b);
  }

  lemma {:induction false} FeedMatches<V>(t: Table, scope: map<string, V>, s: State<V>, sh: Shape, toks: seq<Token<V>>)
    requires t.Sane() && Matches(s, sh) && PlainOps(toks)
    ensures var r, next := FeedAll(t, scope, s, toks), ShapeOf(t, sh, toks);
      (r.Ok? <==> next.Some?) && (r.Ok? ==> Matches(r.value, next.value))
    decreases |toks|
  {
    hide Matches, Feed, NextShape;
    if toks != [] {
      assert toks[0] in toks && forall tok | tok in toks[1..] :: tok in toks;
      StepMatches(t, scope, s, sh, toks[0]);
      if Feed(t, scope, s, toks[0]).Ok? {
        FeedMatches(t, scope, Feed(t, scope, s, toks[0]).value, NextShape(t, sh, toks[0]).value, toks[1..]);
      }
    }
  }

  /** As long as no code has been emitted, only round brackets have been opened, the last one just now. */
  predicate NoCodeYet<V>(s: State<V>) {
    s.rpn == [] ==> s.lastOp != NOT_OP && (s.ops == [] || (Last(s.ops) == "(" && s.lastOp == '('))
  }

  lemma PopUntilEmits<V>(name: string, rpn: seq<Rpn<V>>, ops: seq<string>)
    ensures |PopUntil(name, rpn, ops).0| >= |rpn|
    ensures ops != [] && Last(ops) != name ==> |PopUntil(name, rpn, ops).0| > |rpn|
    decreases |ops|
  {
    if ops != [] && Last(ops) != name {
      PopUntilEmits(name, rpn + [Operator(Normalize(Last(ops)))], Front(ops));
    }
  }

  lemma PopWhileEmits<V>(t: Table, op: string, rpn: seq<Rpn<V>>, ops: seq<string>)
    ensures |PopWhile(t, op, rpn, ops).0| >= |rpn|
    decreases |ops|
  {
    if ops != [] && t.Pops(op, Last(ops)) {
      PopWhileEmits(t, op, rpn + [Operator(Normalize(Last(ops)))], Front(ops));
    }
  }

  lemma OpEmits<V>(t: Table, s: State<V>, op: string)
    requires NoCodeYet(s)
    ensures var r := HandleOp(t, s, op); r.Ok? ==> r.value.rpn != []
  {
    PopWhileEmits(t, op, s.rpn, s.ops);
    PopWhileEmits(t, "R" + op, s.rpn, s.ops);
    hide PopWhile, Normalize;
  }

  lemma StepEmits<V>(t: Table, scope: map<string, V>, s: State<V>, tok: Token<V>)
    requires NoCodeYet(s)
    ensures var r := Feed(t, scope, s, tok); r.Ok? ==> NoCodeYet(r.value) && (r.value.rpn != [] || r.value.ops != [])
  {
    match tok
    case Operand(_) =>
    case Op(op) => OpEmits(t, s, op);
    case Open(b) =>
      OpEmits(t, s, ApplyName(b));
      OpEmits(t, HandleToken(s, Rpn.Constructor(b)), "()");
      hide HandleOp;
    case Close(b) =>
      PopUntilEmits(OpenName(b), s.rpn, s.ops);
      PopUntilEmits(OpenName(b), s.rpn + [EmptyTuple], s.ops);
      hide PopUntil;
  }

  lemma {:induction false} FeedEmits<V>(t: Table, scope: map<string, V>, s: State<V>, toks: seq<Token<V>>)
    requires NoCodeYet(s) && (toks != [] || s.rpn != [] || s.ops != [])
    ensures var r := FeedAll(t, scope, s, toks); r.Ok? ==> r.value.rpn != [] || r.value.ops != []
    decreases |toks|
  {
    hide Feed, NoCodeYet;
    if toks != [] {
      StepEmits(t, scope, s, toks[0]);
      if Feed(t, scope, s, toks[0]).Ok? {
        FeedEmits(t, scope, Feed(t, scope, s, toks[0]).value, toks[1..]);
      }
    }
  }

  lemma {:induction false} EmitMoves<V>(rpn: seq<Rpn<V>>, ops: seq<string>)
    ensures Balance(rpn + Emit(ops)) == Balance(rpn) - |ops|
    decreases |ops|
  {
    if ops == [] {
      assert rpn + Emit(ops) == rpn;
    } else {
      var x: Rpn<V> := Operator(Normalize(Last(ops)));
      BalanceSnoc(rpn, x);
      EmitMoves(rpn + [x], Front(ops));
      Assoc(rpn, [x], Emit(Front(ops)));
    }
  }

  /**
   Which token lists compile: exactly those of the grammar above, and their code leaves as many values
   as the tokens weigh. Neither depends on precedence or associativity.
   */
  lemma WhichCompile<V>(t: Table, scope: map<string, V>, toks: seq<Token<V>>)
    requires t.Sane() && PlainOps(toks)
    ensures var c := Compile(t, scope, toks);
      && (c.Ok? <==> Compiles(t, toks))
      && (c.Ok? ==> c.value != [] && Balance(c.value) == ShapeOf(t, START, toks).value.weight)
  {
    if toks != [] {
      FeedMatches(t, scope, StartState(), START, toks);
      FeedEmits(t, scope, StartState(), toks);
      var r := FeedAll(t, scope, StartState(), toks);
      if r.Ok? {
        EmitMoves(r.value.rpn, r.value.ops);
        assert r.value.rpn + Emit(r.value.ops) != [];
      }
    }
    hide FeedAll, ShapeOf, BracketsOn, Balance, Emit;
  }

  // When such code runs.

  lemma {:induction false} SafeLeavesValues<V>(code: seq<Rpn<V>>)
    requires Safe(code) && code != []
    ensures Balance(code) >= 1
    decreases |code|
  {
    if |code| > 1 {
      SafeLeavesValues(Front(code));
    }
  }

  ghost predicate NeverFails<V(!new)>(sem: Semantics<V>) {
    forall op, x, y :: sem(op, x, y).Ok?
  }

  /** Only safe code runs to its end; if no operator itself fails, all of it does, and other code is refused. */
  lemma {:induction false} SafeCodeRuns<V(!new)>(sem: Semantics<V>, scope: map<string, V>, code: seq<Rpn<V>>)
    ensures var r := Run(sem, scope, [], code);
      && (r.Ok? ==> Safe(code) && |r.value| == Balance(code))
      && (NeverFails(sem) ==> if Safe(code) then r.Ok? else r == Err(InvalidEquation))
    decreases |code|
  {
    if code != [] {
      SafeCodeRuns(sem, scope, Front(code));
      RunSnoc(sem, scope, [], Front(code), Last(code));
      assert Front(code) + [Last(code)] == code;
    }
  }

  /** The values that no pending operator takes. */
  function Free(sh: Shape): int {
    sh.weight + |sh.open|
  }

  /** Whatever may take operators off the stack comes after a free value, and brackets are closed in order. */
  predicate Ready<V>(sh: Shape, tok: Token<V>) {
    match tok
    case Operand(_) => true
    case Op(_) => sh.last == NOT_OP ==> Free(sh) >= 1
    case Open(b) => if OpensLiteral(sh, b) then Free(sh) >= 0 else sh.last == NOT_OP ==> Free(sh) >= 1
    case Close(b) =>
      && sh.open != [] && Last(sh.open) == OpenName(b)
      && Free(sh) + (if sh.last == OpenName(b)[0] then 1 else 0) >= 1
  }

  predicate Supplied<V>(t: Table, sh: Shape, toks: seq<Token<V>>)
    decreases |toks|
  {
    if toks == [] then sh.open == [] && Free(sh) >= 1
    else
      Ready(sh, toks[0])
      && match NextShape(t, sh, toks[0]) {
        case Some(next) => Supplied(t, next, toks[1..])
        case None => false
      }
  }

  lemma {:induction false} CountOps(ops: seq<string>)
    ensures |ops| == Pending(ops) + |BracketsOn(ops)|
    decreases |ops|
  {
    if ops != [] {
      CountOps(Front(ops));
    }
  }

  lemma FreeIsAhead<V>(s: State<V>, sh: Shape)
    requires Matches(s, sh) && Safe(s.rpn) && Free(sh) >= 1
    ensures Ahead(s.rpn, s.ops, Free(sh))
  {
    CountOps(s.ops);
  }

  lemma BinaryIsSafe<V>(t: Table, s: State<V>, sh: Shape, op: string)
    requires t.Sane() && Matches(s, sh) && Safe(s.rpn) && Free(sh) >= 1 && op !in OPEN_NAMES
    ensures Safe(PopWhile(t, op, s.rpn, s.ops).0) && Balance(PopWhile(t, op, s.rpn, s.ops).0) >= 1
  {
    FreeIsAhead(s, sh);
    PopWhileKeeps(t, op, s.rpn, s.ops, Free(sh));
  }

  lemma OpIsSafe<V>(t: Table, s: State<V>, sh: Shape, op: string)
    requires t.Sane() && Matches(s, sh) && Safe(s.rpn) && (sh.last == NOT_OP ==> Free(sh) >= 1)
    requires op !in OPEN_NAMES && "R" + op !in OPEN_NAMES
    ensures var r := HandleOp(t, s, op); r.Ok? ==> Safe(r.value.rpn)
  {
    if s.lastOp != NOT_OP {
      SafeSnoc(s.rpn, Unary);
    } else if t.Exists("R" + op) {
      BinaryIsSafe(t, s, sh, "R" + op);
      var rpn := PopWhile(t, "R" + op, s.rpn, s.ops).0;
      var x: Rpn<V> := Operator(Normalize("R" + op));
      SafeSnoc(rpn, Unary);
      SafeSnoc(rpn + [Unary], x);
      assert rpn + [Unary] + [x] == rpn + [Unary, x];
    } else {
      BinaryIsSafe(t, s, sh, op);
    }
    hide Safe, Balance, BracketsOn, PopWhile, Normalize;
  }

  lemma OpenIsSafe<V>(t: Table, scope: map<string, V>, s: State<V>, sh: Shape, b: Bracket)
    requires t.Sane() && Matches(s, sh) && Safe(s.rpn) && Ready(sh, Token<V>.Open(b))
    ensures var r := Feed(t, scope, s, Token<V>.Open(b)); r.Ok? ==> Safe(r.value.rpn)
  {
    var s1 := HandleToken(s, Rpn.Constructor(b));
    var sh1 := Shape(NOT_OP, false, sh.open, sh.weight + 1);
    EmittedMatches(s, sh, Rpn<V>.Constructor(b), NOT_OP, false);
    SafeSnoc(s.rpn, Rpn<V>.Constructor(b));
    assert s.lastOp == sh.last;
    CallsAreBinary(t, b);
    CallsAreBinary(t, Round);
    assert ("R" + "()")[0] == 'R' && ("R" + ApplyName(b))[0] == 'R';
    hide Matches, HandleOp, HandleToken, Safe;
    if OpensLiteral(sh, b) {
      OpIsSafe(t, s1, sh1, "()");
    } else if s.lastOp == NOT_OP {
      OpIsSafe(t, s, sh, ApplyName(b));
    }
  }

  lemma ClosedIsSafe<V>(s: State<V>, sh: Shape, b: Bracket)
    requires Matches(s, sh) && Safe(s.rpn) && Free(sh) >= 1 && sh.open != [] && Last(sh.open) == OpenName(b)
    ensures Safe(PopUntil(OpenName(b), s.rpn, s.ops).0)
  {
    FreeIsAhead(s, sh);
    hide Balance, Safe, Pending, PopUntil;
    PopUntilKeeps(OpenName(b), s.rpn, s.ops, Free(sh));
  }

  lemma CloseIsSafe<V>(s: State<V>, sh: Shape, b: Bracket)
    requires Matches(s, sh) && Safe(s.rpn) && Ready(sh, Token<V>.Close(b))
    ensures var r := CloseBracket(s, b); r.Ok? ==> Safe(r.value.rpn)
  {
    assert s.lastOp == sh.last;
    SafeSnoc(s.rpn, Rpn<V>.EmptyTuple);
    hide Matches, Safe, PopUntil, Balance;
    if s.lastOp == OpenName(b)[0] {
      EmittedMatches(s, sh, Rpn<V>.EmptyTuple, NOT_OP, false);
      ClosedIsSafe(State(s.rpn + [EmptyTuple], s.ops, NOT_OP, false), Shape(NOT_OP, false, sh.open, sh.weight + 1), b);
    } else {
      ClosedIsSafe(s, sh, b);
    }
  }

  lemma StepIsSafe<V>(t: Table, scope: map<string, V>, s: State<V>, sh: Shape, tok: Token<V>)
    requires t.Sane() && Matches(s, sh) && Safe(s.rpn) && Ready(sh, tok) && (tok.Op? ==> Plain(tok.name))
    ensures var r := Feed(t, scope, s, tok); r.Ok? ==> Safe(r.value.rpn)
  {
    match tok
    case Operand(a) => SafeSnoc(s.rpn, Compiled(scope, a));
    case Op(op) =>
      assert ("R" + op)[0] == 'R';
      hide Matches, HandleOp, Safe;
      OpIsSafe(t, s, sh, op);
    case Open(b) => OpenIsSafe(t, scope, s, sh, b);
    case Close(b) => CloseIsSafe(s, sh, b);
  }

  lemma {:induction false} SuppliedIsSafe<V>(t: Table, scope: map<string, V>, s: State<V>, sh: Shape,
                                             toks: seq<Token<V>>)
    requires t.Sane() && Matches(s, sh) && Safe(s.rpn) && PlainOps(toks) && Supplied(t, sh, toks)
    ensures var r := FeedAll(t, scope, s, toks); r.Ok? ==> Safe(r.value.rpn + Emit(r.value.ops))
    decreases |toks|
  {
    if toks == [] {
      FreeIsAhead(s, sh);
      EmitBalances(s.rpn, s.ops, Free(sh));
    } else {
      hide Matches, Feed, NextShape, Ready, Safe;
      assert toks[0] in toks && forall tok | tok in toks[1..] :: tok in toks;
      StepMatches(t, scope, s, sh, toks[0]);
      StepIsSafe(t, scope, s, sh, toks[0]);
      if Feed(t, scope, s, toks[0]).Ok? {
        SuppliedIsSafe(t, scope, Feed(t, scope, s, toks[0]).value, NextShape(t, sh, toks[0]).value, toks[1..]);
      }
    }
  }

  lemma SuppliedCode<V>(t: Table, scope: map<string, V>, toks: seq<Token<V>>)
    requires t.Sane() && PlainOps(toks) && Compiles(t, toks) && Supplied(t, START, toks)
    ensures var c := Compile(t, scope, toks); c.Ok? && Safe(c.value)
  {
    WhichCompile(t, scope, toks);
    SuppliedIsSafe(t, scope, StartState(), START, toks);
    hide FeedAll, ShapeOf, Supplied, Emit;
    assert Safe([Rpn<V>.NoToken]);
  }

  /**
   Which token lists run: if no operator itself fails, exactly those whose code gives every operator two
   values; they leave as many as the tokens weigh. Whatever the precedences, a list of weight 0 or less
   is not among them, and one that always has a free value where operators leave the stack is.
   */
  lemma WhichRun<V(!new)>(t: Table, sem: Semantics<V>, compiled: map<string, V>, scope: map<string, V>,
                          toks: seq<Token<V>>)
    requires t.Sane() && PlainOps(toks) && Compiles(t, toks)
    ensures var c, weight := Compile(t, compiled, toks), ShapeOf(t, START, toks).value.weight;
      && c.Ok? && var r := Run(sem, scope, [], c.value);
      && (r.Ok? ==> Safe(c.value) && |r.value| == weight)
      && (NeverFails(sem) ==> if Safe(c.value) then r.Ok? else r == Err(InvalidEquation))
      && (weight <= 0 ==> !Safe(c.value))
      && (Supplied(t, START, toks) ==> Safe(c.value))
  {
    WhichCompile(t, compiled, toks);
    var code := Compile(t, compiled, toks).value;
    SafeCodeRuns(sem, scope, code);
    if Safe(code) {
      SafeLeavesValues(code);
    }
    if Supplied(t, START, toks) {
      SuppliedCode(t, compiled, toks);
    }
    hide Compile, ShapeOf, Supplied, Safe, Balance, Run, NeverFails;
  }

  lemma TwoTokens<V>(t: Table, scope: map<string, V>, a: Token<V>, b: Token<V>)
    requires var r := Feed(t, scope, StartState(), a); r.Ok? && Feed(t, scope, r.value, b).Ok?
    ensures Compile(t, scope, [a, b]) == Finish(Feed(t, scope, Feed(t, scope, StartState(), a).value, b).value)
  {
    hide Feed, Finish;
    var s := Feed(t, scope, StartState(), a).value;
    assert [a, b][1..] == [b] && [b][1..] == [];
    assert FeedAll(t, scope, s, [b]) == FeedAll(t, scope, Feed(t, scope, s, b).value, []);
  }

  lemma TwoSteps<V>(sem: Semantics<V>, scope: map<string, V>, x: Rpn<V>, y: Rpn<V>)
    requires !x.Operator?
    ensures var r := Run(sem, scope, [], [x, y]);
      if y.Operator? then r == Err(InvalidEquation) else r == Ok([Loaded(scope, x), Loaded(scope, y)])
  {
    var stack: seq<Rpn<V>> := [Loaded(scope, x)];
    assert [x, y][1..] == [y] && [y][1..] == [] && [] + [Loaded(scope, x)] == stack;
    assert Run(sem, scope, [], [x, y]) == Run(sem, scope, stack, [y]);
    assert stack + [Loaded(scope, y)] == [Loaded(scope, x), Loaded(scope, y)];
    assert !y.Operator? ==> Run(sem, scope, stack, [y]) == Run(sem, scope, stack + [Loaded(scope, y)], []);
  }

  /** Two operands in a row compile, and evaluate to the second one. */
  lemma TwoOperands<V>(t: Table, sem: Semantics<V>, compiled: map<string, V>, scope: map<string, V>, x: V, y: V)
    ensures var c := Compile(t, compiled, [Operand(Const(x)), Operand(Const(y))]);
      c == Ok([Value(x), Value(y)]) && Evaluate(sem, scope, c.value) == Ok(Value(y))
  {
    var a: Token<V>, b: Token<V> := Operand(Const(x)), Operand(Const(y));
    assert Feed(t, compiled, StartState(), a).value == State([Value(x)], [], NOT_OP, false);
    var s: State<V> := State([Value(x), Value(y)], [], NOT_OP, false);
    assert Feed(t, compiled, State([Value(x)], [], NOT_OP, false), b).value == s;
    assert s.rpn + Emit(s.ops) == s.rpn;
    TwoTokens(t, compiled, a, b);
    TwoSteps(sem, scope, Value(x), Value(y));
    hide Compile, Run;
  }

  /** An unclosed bracket is emitted as an operator, for which there is only one value. */
  lemma UnclosedBracket<V>(t: Table, sem: Semantics<V>, compiled: map<string, V>, scope: map<string, V>, x: V)
    ensures var c := Compile(t, compiled, [Token<V>.Open(Round), Operand(Const(x))]);
      c == Ok([Value(x), Operator("(")]) && Evaluate(sem, scope, c.value) == Err(InvalidEquation)
  {
    var a: Token<V>, b: Token<V> := Token.Open(Round), Operand(Const(x));
    assert Feed(t, compiled, StartState(), a).value == State([], ["("], '(', false);
    var s: State<V> := State([Value(x)], ["("], NOT_OP, false);
    assert Feed(t, compiled, State([], ["("], '(', false), b).value == s;
    assert Front(s.ops) == [];
    assert s.rpn + Emit(s.ops) == [Value(x), Operator("(")];
    TwoTokens(t, compiled, a, b);
    TwoSteps(sem, scope, Value(x), Operator("("));
    hide Compile, Run;
  }
}
