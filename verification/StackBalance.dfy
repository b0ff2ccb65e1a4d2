/**
 The counting invariant of the compiler, for every sane table and every alternating token list: values
 and operators emitted against operators still pending, and what it means for the code that is run.
 */
module StackBalance {
  import opened Wrappers
  import opened PrecedenceTable
  import opened RpnBuilder
  import opened ExprTree
  import opened TokenGrammar
  import opened RpnMachine
  import opened Sequences

  /** Values minus operators: how much running the code adds to the value stack. */
  function Balance<V>(rpn: seq<Rpn<V>>): int
    decreases |rpn|
  {
    if rpn == [] then 0 else Balance(Front(rpn)) + if Last(rpn).Operator? then -1 else 1
  }

  /** Every operator of the code finds two values on the stack. */
  predicate Safe<V>(rpn: seq<Rpn<V>>)
    decreases |rpn|
  {
    rpn == [] || (Safe(Front(rpn)) && (Last(rpn).Operator? ==> Balance(Front(rpn)) >= 2))
  }

  lemma SafeSnoc<V>(rpn: seq<Rpn<V>>, x: Rpn<V>)
    requires Safe(rpn) && (x.Operator? ==> Balance(rpn) >= 2)
    ensures Safe(rpn + [x])
    ensures Balance(rpn + [x]) == Balance(rpn) + if x.Operator? then -1 else 1
  {
    assert Front(rpn + [x]) == rpn;
  }

  /** The operators on the stack that are not brackets, and the brackets. */
  function Pending(ops: seq<string>): nat
    decreases |ops|
  {
    if ops == [] then 0 else Pending(Front(ops)) + if Last(ops) in OPEN_NAMES then 0 else 1
  }

  function BracketsOn(ops: seq<string>): seq<string>
    decreases |ops|
  {
    if ops == [] then [] else BracketsOn(Front(ops)) + if Last(ops) in OPEN_NAMES then [Last(ops)] else []
  }

  function OpenNames(open: seq<Opened>): seq<string>
    decreases |open|
  {
    if open == [] then [] else OpenNames(Front(open)) + [OpenName(Last(open).bracket)]
  }

  lemma PushedOp(ops: seq<string>, op: string)
    ensures Pending(ops + [op]) == Pending(ops) + if op in OPEN_NAMES then 0 else 1
    ensures BracketsOn(ops + [op]) == BracketsOn(ops) + if op in OPEN_NAMES then [op] else []
  {
    assert Front(ops + [op]) == ops;
  }

  /** After an operand: more values than the pending operators will take, so each of them finds two. */
  predicate Ahead<V>(rpn: seq<Rpn<V>>, ops: seq<string>, n: int) {
    n >= 1 && Safe(rpn) && Balance(rpn) == Pending(ops) + n
  }

  /** Moving an operator from the stack to the code. */
  lemma OperatorEmitted<V>(rpn: seq<Rpn<V>>, ops: seq<string>, n: int)
    requires Ahead(rpn, ops, n) && ops != [] && Last(ops) !in OPEN_NAMES
    ensures Ahead(rpn + [Operator(Normalize(Last(ops)))], Front(ops), n) && BracketsOn(Front(ops)) == BracketsOn(ops)
  {
    SafeSnoc(rpn, Operator(Normalize(Last(ops))));
  }

  lemma {:induction false} PopWhileKeeps<V>(t: Table, op: string, rpn: seq<Rpn<V>>, ops: seq<string>, n: int)
    requires t.Sane() && op !in OPEN_NAMES && Ahead(rpn, ops, n)
    ensures var (rpn', ops') := PopWhile(t, op, rpn, ops); Ahead(rpn', ops', n) && BracketsOn(ops') == BracketsOn(ops)
    decreases |ops|
  {
    if ops != [] && t.Pops(op, Last(ops)) {
      OperatorEmitted(rpn, ops, n);
      PopWhileKeeps(t, op, rpn + [Operator(Normalize(Last(ops)))], Front(ops), n);
    }
  }

  lemma {:induction false} PopUntilKeeps<V>(name: string, rpn: seq<Rpn<V>>, ops: seq<string>, n: int)
    requires name in OPEN_NAMES && BracketsOn(ops) != [] && Last(BracketsOn(ops)) == name && Ahead(rpn, ops, n)
    ensures var (rpn', ops') := PopUntil(name, rpn, ops);
      ops' != [] && Last(ops') == name && Ahead(rpn', ops', n) && BracketsOn(ops') == BracketsOn(ops)
    decreases |ops|
  {
    if Last(ops) != name {
      OperatorEmitted(rpn, ops, n);
      PopUntilKeeps(name, rpn + [Operator(Normalize(Last(ops)))], Front(ops), n);
    }
  }

  /** After an operand the difference is 1, otherwise 0; the brackets on the stack are those open. */
  predicate Balanced<V>(s: State<V>, mode: Mode, open: seq<Opened>) {
    && Safe(s.rpn) && Balance(s.rpn) - Pending(s.ops) == (if mode.HaveOperand? then 1 else 0)
    && (s.lastOp == NOT_OP <==> mode.HaveOperand?)
    && (mode.HaveOperand? ==> !s.lastUnary)
    && BracketsOn(s.ops) == OpenNames(open)
    && (mode.JustOpened? && open != [] ==> s.lastOp == OpenName(Last(open).bracket)[0])
  }

  /** A binary or call operator after an operand. */
  lemma BinaryBalances<V>(t: Table, s: State<V>, mode: Mode, op: string, open: seq<Opened>)
    requires t.Sane() && mode.HaveOperand? && Balanced(s, mode, open) && t.Exists(op) && !t.Exists("R" + op)
    requires op !in OPEN_NAMES && FirstChar(op) != NOT_OP
    ensures var r := HandleOp(t, s, op); r.Ok? && Balanced(r.value, NeedOperand(op), open)
  {
    PopWhileKeeps(t, op, s.rpn, s.ops, 1);
    PushedOp(PopWhile(t, op, s.rpn, s.ops).1, op);
  }

  lemma PrefixBalances<V>(t: Table, s: State<V>, mode: Mode, open: seq<Opened>, op: string)
    requires Balanced(s, mode, open) && !mode.HaveOperand? && Plain(op) && t.Exists("L" + op)
    ensures var r := HandleOp(t, s, op); r.Ok? && Balanced(r.value, NeedOperand("L" + op), open)
  {
    SafeSnoc(s.rpn, Unary);
    PushedOp(s.ops, "L" + op);
    hide Safe, Balance, Pending, BracketsOn, OpenNames;
  }

  lemma PostfixBalances<V>(t: Table, s: State<V>, mode: Mode, open: seq<Opened>, op: string)
    requires t.Sane() && mode.HaveOperand? && Balanced(s, mode, open) && t.Exists("R" + op)
    ensures var r := HandleOp(t, s, op); r.Ok? && Balanced(r.value, HaveOperand([]), open)
  {
    var (rpn, ops) := PopWhile(t, "R" + op, s.rpn, s.ops);
    assert ("R" + op)[0] == 'R';
    PopWhileKeeps(t, "R" + op, s.rpn, s.ops, 1);
    var x: Rpn<V> := Operator(Normalize("R" + op));
    SafeSnoc(rpn, Unary);
    SafeSnoc(rpn + [Unary], x);
    assert rpn + [Unary] + [x] == rpn + [Unary, x];
    hide Safe, Balance, Pending, BracketsOn, OpenNames, PopWhile, Normalize;
  }

  lemma OpBalances<V>(t: Table, s: State<V>, mode: Mode, open: seq<Opened>, op: string)
    requires t.Sane() && Balanced(s, mode, open) && Plain(op) && t.Exists(op)
      && (!mode.HaveOperand? ==> t.Exists("L" + op))
    ensures var r := HandleOp(t, s, op); r.Ok? && Balanced(r.value, NextMode(t, mode, open, Token<V>.Op(op)), open)
  {
    assert op !in OPEN_NAMES && FirstChar(op) != NOT_OP;
    hide Balanced, HandleOp, Plain;
    if !mode.HaveOperand? {
      PrefixBalances(t, s, mode, open, op);
    } else if t.Exists("R" + op) {
      PostfixBalances(t, s, mode, open, op);
    } else {
      BinaryBalances(t, s, mode, op, open);
    }
  }

  /** Calls and indexing are binary operators. */
  lemma CallsAreBinary(t: Table, b: Bracket)
    requires t.Sane()
    ensures var op := ApplyName(b); t.Exists(op) && !t.Exists("R" + op) && op !in OPEN_NAMES && FirstChar(op) != NOT_OP
  {
    assert "R" + "()" == "R()" && "R" + "[]" == "R[]";
  }

  lemma BracketBalances<V>(s: State<V>, mode: Mode, open: seq<Opened>, o: Opened)
    requires Balanced(s, mode, open) && !mode.HaveOperand?
    ensures Balanced(OpenBracket(s, o.bracket), JustOpened, open + [o])
  {
    assert Front(open + [o]) == open;
    PushedOp(s.ops, OpenName(o.bracket));
  }

  /** A list or map literal: its constructor counts as the operand of a call. */
  lemma LiteralBalances<V>(t: Table, s: State<V>, mode: Mode, open: seq<Opened>, b: Bracket)
    requires t.Sane() && Balanced(s, mode, open) && !mode.HaveOperand?
    ensures var r := HandleOp(t, HandleToken(s, Rpn.Constructor(b)), "()");
      r.Ok? && Balanced(r.value, NeedOperand("()"), open)
  {
    SafeSnoc(s.rpn, Rpn.Constructor(b));
    var s1 := HandleToken(s, Rpn.Constructor(b));
    assert Balanced(s1, HaveOperand([]), open);
    CallsAreBinary(t, Round);
    hide Balanced, HandleOp, HandleToken;
    BinaryBalances(t, s1, HaveOperand([]), "()", open);
  }

  lemma LiteralOpens<V>(t: Table, s: State<V>, mode: Mode, open: seq<Opened>, o: Opened)
    requires t.Sane() && Balanced(s, mode, open) && !mode.HaveOperand?
    ensures var r := HandleOp(t, HandleToken(s, Rpn.Constructor(o.bracket)), "()");
      r.Ok? && Balanced(OpenBracket(r.value, o.bracket), JustOpened, open + [o])
  {
    hide Balanced, HandleOp, HandleToken, OpenBracket;
    LiteralBalances(t, s, mode, open, o.bracket);
    BracketBalances(HandleOp(t, HandleToken(s, Rpn.Constructor(o.bracket)), "()").value, NeedOperand("()"), open, o);
  }

  lemma CallBalances<V>(t: Table, s: State<V>, mode: Mode, open: seq<Opened>, o: Opened)
    requires t.Sane() && mode.HaveOperand? && Balanced(s, mode, open)
    ensures var r := HandleOp(t, s, ApplyName(o.bracket));
      r.Ok? && Balanced(OpenBracket(r.value, o.bracket), JustOpened, open + [o])
  {
    var op := ApplyName(o.bracket);
    CallsAreBinary(t, o.bracket);
    BinaryBalances(t, s, mode, op, open);
    hide Balanced, HandleOp, OpenBracket;
    BracketBalances(HandleOp(t, s, op).value, NeedOperand(op), open, o);
  }

  lemma OpenBalances<V>(t: Table, scope: map<string, V>, s: State<V>, mode: Mode, open: seq<Opened>, o: Opened)
    requires t.Sane() && Balanced(s, mode, open) && (mode.HaveOperand? ==> o.bracket != Curly)
    ensures var r := Feed(t, scope, s, Token<V>.Open(o.bracket)); r.Ok? && Balanced(r.value, JustOpened, open + [o])
  {
    assert s.lastOp == NOT_OP <==> mode.HaveOperand?;
    hide Balanced, HandleOp, HandleToken, OpenBracket;
    if mode.HaveOperand? {
      CallBalances(t, s, mode, open, o);
    } else if o.bracket == Round {
      BracketBalances(s, mode, open, o);
    } else {
      LiteralOpens(t, s, mode, open, o);
    }
  }

  lemma CloseBalances<V>(s: State<V>, mode: Mode, open: seq<Opened>, b: Bracket)
    requires Balanced(s, mode, open) && !mode.NeedOperand? && open != [] && Last(open).bracket == b
    ensures var r := CloseBracket(s, b); r.Ok? && Balanced(r.value, HaveOperand(Last(open).edge), Front(open))
  {
    var rpn := if s.lastOp == OpenName(b)[0] then s.rpn + [EmptyTuple] else s.rpn;
    SafeSnoc(s.rpn, EmptyTuple);
    PopUntilKeeps(OpenName(b), rpn, s.ops, 1);
    var ops := PopUntil(OpenName(b), rpn, s.ops).1;
    assert BracketsOn(Front(ops)) == Front(BracketsOn(ops));
    assert OpenNames(Front(open)) == Front(OpenNames(open));
  }

  /** One token of an alternating list is accepted and keeps the balance. */
  lemma StepBalances<V>(t: Table, scope: map<string, V>, s: State<V>, mode: Mode, open: seq<Opened>, tok: Token<V>)
    requires t.Sane() && Balanced(s, mode, open) && Admits(t, mode, open, tok)
    ensures var r := Feed(t, scope, s, tok);
      r.Ok? && Balanced(r.value, NextMode(t, mode, open, tok), NextOpen(mode, open, tok))
  {
    match tok
    case Operand(a) => SafeSnoc(s.rpn, Compiled(scope, a));
    case Op(op) => OpBalances(t, s, mode, open, op);
    case Open(b) => OpenBalances(t, scope, s, mode, open, Opened(b, OpenedEdge(mode, b)));
    case Close(b) => CloseBalances(s, mode, open, b);
  }

  /** The mode and the open brackets after a token list. */
  function After<V>(t: Table, mode: Mode, open: seq<Opened>, toks: seq<Token<V>>): (Mode, seq<Opened>)
    decreases |toks|
  {
    if toks == [] then (mode, open)
    else After(t, NextMode(t, mode, open, toks[0]), NextOpen(mode, open, toks[0]), toks[1..])
  }

  /**
   After every prefix of an alternating token list, values minus operators emitted exceed the pending
   operators by 1 after an operand and by 0 after an operator, and every operator emitted found two values.
   */
  lemma {:induction false} EveryPrefixBalances<V>(t: Table, scope: map<string, V>, s: State<V>, mode: Mode,
                                                  open: seq<Opened>, toks: seq<Token<V>>, n: nat)
    requires t.Sane() && Balanced(s, mode, open) && Alternating(t, toks, mode, open) && n <= |toks|
    ensures var r, (mode', open') := FeedAll(t, scope, s, toks[..n]), After(t, mode, open, toks[..n]);
      r.Ok? && Balanced(r.value, mode', open')
    decreases n
  {
    hide Feed, Balanced, Admits;
    if n > 0 {
      var tok, rest := toks[0], toks[1..];
      StepBalances(t, scope, s, mode, open, tok);
      EveryPrefixBalances(t, scope, Feed(t, scope, s, tok).value, NextMode(t, mode, open, tok),
                          NextOpen(mode, open, tok), rest, n - 1);
      assert toks[..n][0] == tok && toks[..n][1..] == rest[..n - 1];
    }
  }

  /** The compiler starts balanced, so this holds for all of toRPN's input. */
  lemma StartBalances<V>()
    ensures Balanced(StartState<V>(), JustOpened, [])
  {
  }

  lemma {:induction false} AlternatingEnds<V>(t: Table, mode: Mode, open: seq<Opened>, toks: seq<Token<V>>)
    requires Alternating(t, toks, mode, open)
    ensures var (mode', open') := After(t, mode, open, toks); mode'.HaveOperand? && open' == []
    decreases |toks|
  {
    if toks != [] {
      AlternatingEnds(t, NextMode(t, mode, open, toks[0]), NextOpen(mode, open, toks[0]), toks[1..]);
    }
  }

  /** What is left on the stack at the end can all be emitted. */
  lemma {:induction false} EmitBalances<V>(rpn: seq<Rpn<V>>, ops: seq<string>, n: int)
    requires Ahead(rpn, ops, n) && BracketsOn(ops) == []
    ensures Safe(rpn + Emit(ops)) && Balance(rpn + Emit(ops)) == n
    decreases |ops|
  {
    if ops == [] {
      assert rpn + Emit(ops) == rpn;
    } else {
      var x: Rpn<V> := Operator(Normalize(Last(ops)));
      OperatorEmitted(rpn, ops, n);
      assert Emit<V>(ops) == [x] + Emit(Front(ops));
      hide Safe, Balance, Emit, Pending, BracketsOn, Ahead;
      EmitBalances(rpn + [x], Front(ops), n);
      Assoc(rpn, [x], Emit(Front(ops)));
    }
  }

  /** The code of an alternating token list is safe and leaves one value. */
  lemma CompiledBalances<V>(t: Table, scope: map<string, V>, toks: seq<Token<V>>)
    requires t.Sane() && Alternating(t, toks, JustOpened, [])
    ensures var c := Compile(t, scope, toks); c.Ok? && c.value != [] && Safe(c.value) && Balance(c.value) == 1
  {
    StartBalances<V>();
    EveryPrefixBalances(t, scope, StartState(), JustOpened, [], toks, |toks|);
    AlternatingEnds(t, JustOpened, [], toks);
    assert toks[..|toks|] == toks;
    var s := FeedAll(t, scope, StartState(), toks).value;
    EmitBalances(s.rpn, s.ops, 1);
  }

  lemma {:induction false} RunSnoc<V>(sem: Semantics<V>, scope: map<string, V>, stack: seq<Rpn<V>>,
                                      code: seq<Rpn<V>>, x: Rpn<V>)
    ensures var r := Run(sem, scope, stack, code);
      Run(sem, scope, stack, code + [x]) == if r.Err? then r else Step(sem, scope, r.value, x)
    decreases |code|
  {
    if code == [] {
      assert code + [x] == [x];
    } else {
      assert (code + [x])[1..] == code[1..] + [x];
      var r := Step(sem, scope, stack, code[0]);
      if r.Ok? {
        RunSnoc(sem, scope, r.value, code[1..], x);
      }
    }
  }

  /** Safe code never finds too few values, and its balance is the height of the stack it leaves. */
  lemma {:induction false} SafeRuns<V(!new)>(sem: Semantics<V>, scope: map<string, V>, code: seq<Rpn<V>>)
    requires Safe(code) && forall op, x, y :: sem(op, x, y) != Err(InvalidEquation)
    ensures var r := Run(sem, scope, [], code); if r.Ok? then |r.value| == Balance(code) else r.error != InvalidEquation
    decreases |code|
  {
    if code != [] {
      SafeRuns(sem, scope, Front(code));
      RunSnoc(sem, scope, [], Front(code), Last(code));
      assert Front(code) + [Last(code)] == code;
    }
  }

  /**
   Stack balance: for every sane table the code of an alternating token list never underflows the value
   stack on any prefix and leaves exactly one value, unless an operator itself fails.
   */
  lemma AlternatingRuns<V(!new)>(t: Table, sem: Semantics<V>, compiled: map<string, V>, scope: map<string, V>,
                                 toks: seq<Token<V>>)
    requires t.Sane() && Alternating(t, toks, JustOpened, [])
    requires forall op, x, y :: sem(op, x, y) != Err(InvalidEquation)
    ensures var c := Compile(t, compiled, toks);
      c.Ok? && var r := Run(sem, scope, [], c.value); if r.Ok? then |r.value| == 1 else r.error != InvalidEquation
  {
    CompiledBalances(t, compiled, toks);
    SafeRuns(sem, scope, Compile(t, compiled, toks).value);
  }
}
