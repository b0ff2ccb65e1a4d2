/**
 Infix tokens to reverse Polish notation (rpnBuilder and calculator::toRPN), at token level:
 the character scanner, its reserved words and the memory management of tokens are not modelled.
 */
module RpnBuilder {
  import opened Wrappers
  import opened PrecedenceTable

  /** A literal or a variable name as the scanner delivers it. */
  datatype Atom<V> = Const(v: V) | Var(name: string)

  datatype Token<V> = Operand(atom: Atom<V>) | Op(name: string) | Open(bracket: Bracket) | Close(bracket: Bracket)

  /** The tokens of the compiled queue. Constructor is the list or map function that "[" or "{" starts with. */
  datatype Rpn<V> =
    | Value(v: V)
    | Ref(name: string, original: V)
    | Unresolved(name: string)
    | Unary
    | EmptyTuple
    | Constructor(bracket: Bracket)
    | NoToken
    | Operator(name: string)

  datatype CompileError =
    | EmptyExpression
    | UnrecognizedUnary(op: string)
    | UndefinedOperator(op: string)
    | InvalidOperator(op: string)
    | ExtraBracket(bracket: Bracket)
    | MissingOperand(op: string)

  /** lastOp is '\0' for "the last token was not an operator", like the source's uint8_t flag. */
  datatype State<V> = State(rpn: seq<Rpn<V>>, ops: seq<string>, lastOp: char, lastUnary: bool)

  const NOT_OP: char := '\0'
  const AT_START: char := '\U{1}'

  function FirstChar(op: string): char {
    if op == "" then '\0' else op[0]
  }

  function Last<T>(s: seq<T>): T
    requires s != []
  {
    s[|s| - 1]
  }

  function Front<T>(s: seq<T>): seq<T>
    requires s != []
  {
    s[..|s| - 1]
  }

  /** Drops the marker of a prefix or postfix operator. */
  function Normalize(op: string): string {
    if FirstChar(op) == 'L' || FirstChar(op) == 'R' then op[1..] else op
  }

  /** No precedence lookup on the stack can fail. */
  predicate StackKnown(t: Table, ops: seq<string>) {
    forall i | 0 <= i < |ops| :: ops[i] in t.prec
  }

  function PopWhile<V>(t: Table, op: string, rpn: seq<Rpn<V>>, ops: seq<string>): (seq<Rpn<V>>, seq<string>)
    decreases |ops|
  {
    if ops != [] && t.Pops(op, Last(ops))
    then PopWhile(t, op, rpn + [Operator(Normalize(Last(ops)))], Front(ops))
    else (rpn, ops)
  }

  function PopUntil<V>(name: string, rpn: seq<Rpn<V>>, ops: seq<string>): (seq<Rpn<V>>, seq<string>)
    decreases |ops|
  {
    if ops != [] && Last(ops) != name
    then PopUntil(name, rpn + [Operator(Normalize(Last(ops)))], Front(ops))
    else (rpn, ops)
  }

  /** The operators of a stack in the order in which they leave it. */
  function Emit<V>(ops: seq<string>): seq<Rpn<V>>
    decreases |ops|
  {
    if ops == [] then [] else [Operator(Normalize(Last(ops)))] + Emit(Front(ops))
  }

  function HandleOp<V>(t: Table, s: State<V>, op: string): Result<State<V>, CompileError> {
    if s.lastOp != NOT_OP then
      if t.Exists("L" + op)
      then Ok(State(s.rpn + [Unary], s.ops + ["L" + op], FirstChar(op), true))
      else Err(UnrecognizedUnary(op))
    else if t.Exists("R" + op) then
      var (rpn, ops) := PopWhile(t, "R" + op, s.rpn, s.ops);
      Ok(State(rpn + [Unary, Operator(Normalize("R" + op))], ops, NOT_OP, false))
    else if t.Exists(op) then
      var (rpn, ops) := PopWhile(t, op, s.rpn, s.ops);
      Ok(State(rpn, ops + [op], FirstChar(op), false))
    else
      Err(UndefinedOperator(op))
  }

  function HandleToken<V>(s: State<V>, tok: Rpn<V>): State<V> {
    State(s.rpn + [tok], s.ops, NOT_OP, false)
  }

  function OpenBracket<V>(s: State<V>, b: Bracket): State<V> {
    State(s.rpn, s.ops + [OpenName(b)], OpenName(b)[0], false)
  }

  function CloseBracket<V>(s: State<V>, b: Bracket): Result<State<V>, CompileError> {
    var rpn := if s.lastOp == OpenName(b)[0] then s.rpn + [EmptyTuple] else s.rpn;
    var (rpn', ops') := PopUntil(OpenName(b), rpn, s.ops);
    if ops' == [] then Err(ExtraBracket(b))
    else Ok(State(rpn', Front(ops'), NOT_OP, false))
  }

  /** A variable bound at compile time is stored with its value, an unbound one by name only. */
  function Compiled<V>(scope: map<string, V>, a: Atom<V>): Rpn<V> {
    match a
    case Const(v) => Value(v)
    case Var(name) => if name in scope then Ref(name, scope[name]) else Unresolved(name)
  }

  /** The operator that a bracket right after an operand stands for. */
  function ApplyName(b: Bracket): string {
    if b == Square then "[]" else "()"
  }

  function Feed<V>(t: Table, scope: map<string, V>, s: State<V>, tok: Token<V>): Result<State<V>, CompileError> {
    match tok
    case Operand(a) => Ok(HandleToken(s, Compiled(scope, a)))
    case Op(name) => if t.Exists(name) then HandleOp(t, s, name) else Err(InvalidOperator(name))
    case Close(b) => CloseBracket(s, b)
    case Open(b) =>
      var s' :-
        if b == Curly || (b == Square && s.lastOp != NOT_OP) then HandleOp(t, HandleToken(s, Rpn.Constructor(b)), "()")
        else if s.lastOp == NOT_OP then HandleOp(t, s, ApplyName(b))
        else Ok(s);
      Ok(OpenBracket(s', b))
  }

  function FeedAll<V>(t: Table, scope: map<string, V>, s: State<V>, toks: seq<Token<V>>): Result<State<V>, CompileError>
    decreases |toks|
  {
    if toks == [] then Ok(s)
    else
      var s' :- Feed(t, scope, s, toks[0]);
      FeedAll(t, scope, s', toks[1..])
  }

  function Finish<V>(s: State<V>): Result<seq<Rpn<V>>, CompileError> {
    if s.lastUnary then Err(MissingOperand(if s.ops == [] then "" else Last(s.ops)))
    else
      var rpn := s.rpn + Emit(s.ops);
      Ok(if rpn == [] then [NoToken] else rpn)
  }

  function StartState<V>(): State<V> {
    State([], [], AT_START, false)
  }

  /** What toRPN returns for a token list. */
  function Compile<V>(t: Table, scope: map<string, V>, toks: seq<Token<V>>): Result<seq<Rpn<V>>, CompileError> {
    if toks == [] then Err(EmptyExpression)
    else
      var s :- FeedAll(t, scope, StartState(), toks);
      Finish(s)
  }

  /** By the numbers of the table: top binds tighter than op, or as tight if op goes from left to right. */
  predicate Tighter(t: Table, top: string, op: string) {
    && top in t.prec && op in t.prec
    && (t.prec[top] < t.prec[op] || (t.prec[top] == t.prec[op] && op !in t.rtol))
  }

  class Builder<V> {
    var rpn: seq<Rpn<V>>
    var opStack: seq<string>
    var lastTokenWasOp: char
    var lastTokenWasUnary: bool
    const opp: Table

    ghost predicate Valid()
      reads this
    {
      opp.Valid() && StackKnown(opp, opStack)
    }

    ghost function Abstract(): State<V>
      reads this
    {
      State(rpn, opStack, lastTokenWasOp, lastTokenWasUnary)
    }

    constructor (opp: Table)
      requires opp.Valid()
      ensures Valid() && this.opp == opp && Abstract() == StartState()
    {
      this.opp := opp;
      rpn, opStack := [], [];
      lastTokenWasOp, lastTokenWasUnary := AT_START, false;
    }

    /** Both loops of handle_opStack: ">=" for left-to-right operators, ">" for right-to-left ones. */
    method HandleOpStack(op: string)
      requires Valid() && opp.Exists(op)
      modifies this`rpn, this`opStack
      ensures opStack <= old(opStack) && (opStack != [] ==> !Tighter(opp, Last(opStack), op))
      ensures forall i | |opStack| <= i < |old(opStack)| :: Tighter(opp, old(opStack[i]), op)
      ensures Valid() && (rpn, opStack) == PopWhile(opp, op, old(rpn), old(opStack))
    {
      if op !in opp.rtol {
        while opStack != [] && opp.prec[op] >= opp.prec[Last(opStack)]
          invariant Valid() && opStack <= old(opStack)
          invariant forall i | |opStack| <= i < |old(opStack)| :: Tighter(opp, old(opStack[i]), op)
          invariant PopWhile(opp, op, rpn, opStack) == PopWhile(opp, op, old(rpn), old(opStack))
          decreases |opStack|
        {
          rpn := rpn + [Operator(Normalize(Last(opStack)))];
          opStack := Front(opStack);
        }
      } else {
        while opStack != [] && opp.prec[op] > opp.prec[Last(opStack)]
          invariant Valid() && opStack <= old(opStack)
          invariant forall i | |opStack| <= i < |old(opStack)| :: Tighter(opp, old(opStack[i]), op)
          invariant PopWhile(opp, op, rpn, opStack) == PopWhile(opp, op, old(rpn), old(opStack))
          decreases |opStack|
        {
          rpn := rpn + [Operator(Normalize(Last(opStack)))];
          opStack := Front(opStack);
        }
      }
    }

    method HandleOperator(op: string) returns (r: Result<(), CompileError>)
      requires Valid()
      modifies this
      ensures Valid()
      ensures r.Ok? <==> HandleOp(opp, old(Abstract()), op).Ok?
      ensures r.Ok? ==> Abstract() == HandleOp(opp, old(Abstract()), op).value
      ensures r.Err? ==> r.error == HandleOp(opp, old(Abstract()), op).error
    {
      if lastTokenWasOp != NOT_OP {
        if !opp.Exists("L" + op) {
          return Err(UnrecognizedUnary(op));
        }
        rpn := rpn + [Unary];
        opStack := opStack + ["L" + op];
        lastTokenWasUnary, lastTokenWasOp := true, FirstChar(op);
      } else if opp.Exists("R" + op) {
        HandleOpStack("R" + op);
        rpn := rpn + [Unary];
        rpn := rpn + [Operator(Normalize("R" + op))];
        lastTokenWasUnary, lastTokenWasOp := false, NOT_OP;
        assert rpn == PopWhile(opp, "R" + op, old(rpn), old(opStack)).0 + [Unary, Operator(Normalize("R" + op))];
      } else {
        if !opp.Exists(op) {
          return Err(UndefinedOperator(op));
        }
        HandleOpStack(op);
        opStack := opStack + [op];
        lastTokenWasUnary, lastTokenWasOp := false, FirstChar(op);
      }
      return Ok(());
    }

    method PushToken(tok: Rpn<V>)
      requires Valid()
      modifies this
      ensures Valid() && Abstract() == HandleToken(old(Abstract()), tok)
    {
      rpn := rpn + [tok];
      lastTokenWasOp, lastTokenWasUnary := NOT_OP, false;
    }

    method PushBracket(b: Bracket)
      requires Valid()
      modifies this
      ensures Valid() && Abstract() == OpenBracket(old(Abstract()), b)
    {
      opStack := opStack + [OpenName(b)];
      lastTokenWasOp, lastTokenWasUnary := OpenName(b)[0], false;
    }

    method PopBracket(b: Bracket) returns (r: Result<(), CompileError>)
      requires Valid()
      modifies this
      ensures Valid()
      ensures r.Ok? <==> CloseBracket(old(Abstract()), b).Ok?
      ensures r.Ok? ==> Abstract() == CloseBracket(old(Abstract()), b).value
      ensures r.Err? ==> r.error == CloseBracket(old(Abstract()), b).error
    {
      if lastTokenWasOp == OpenName(b)[0] {
        rpn := rpn + [EmptyTuple];
      }
      ghost var rpn0 := rpn;
      while opStack != [] && Last(opStack) != OpenName(b)
        invariant Valid()
        invariant PopUntil(OpenName(b), rpn, opStack) == PopUntil(OpenName(b), rpn0, old(opStack))
        decreases |opStack|
      {
        rpn := rpn + [Operator(Normalize(Last(opStack)))];
        opStack := Front(opStack);
      }
      if opStack == [] {
        return Err(ExtraBracket(b));
      }
      opStack := Front(opStack);
      lastTokenWasOp, lastTokenWasUnary := NOT_OP, false;
      return Ok(());
    }

    /** One round of the scanning loop of toRPN. */
    method Scan(scope: map<string, V>, tok: Token<V>) returns (r: Result<(), CompileError>)
      requires Valid()
      modifies this
      ensures Valid()
      ensures r.Ok? <==> Feed(opp, scope, old(Abstract()), tok).Ok?
      ensures r.Ok? ==> Abstract() == Feed(opp, scope, old(Abstract()), tok).value
      ensures r.Err? ==> r.error == Feed(opp, scope, old(Abstract()), tok).error
    {
      match tok
      case Operand(a) =>
        PushToken(Compiled(scope, a));
        r := Ok(());
      case Op(name) =>
        if !opp.Exists(name) {
          return Err(InvalidOperator(name));
        }
        r := HandleOperator(name);
      case Close(b) =>
        r := PopBracket(b);
      case Open(b) =>
        r := Ok(());
        match b {
          case Round =>
            if lastTokenWasOp == NOT_OP {
              r := HandleOperator("()");
            }
          case Square =>
            if lastTokenWasOp == NOT_OP {
              r := HandleOperator("[]");
            } else {
              PushToken(Rpn.Constructor(Square));
              r := HandleOperator("()");
            }
          case Curly =>
            PushToken(Rpn.Constructor(Curly));
            r := HandleOperator("()");
        }
        if r.Ok? {
          PushBracket(b);
        }
    }
  }

  /** calculator::toRPN on a token list. */
  method ToRPN<V>(opp: Table, scope: map<string, V>, toks: seq<Token<V>>) returns (r: Result<seq<Rpn<V>>, CompileError>)
    requires opp.Valid()
    ensures r == Compile(opp, scope, toks)
  {
    hide Feed;
    if toks == [] {
      return Err(EmptyExpression);
    }
    var data := new Builder<V>(opp);
    var i := 0;
    while i < |toks|
      invariant 0 <= i <= |toks|
      invariant data.Valid() && data.opp == opp && fresh(data)
      invariant FeedAll(opp, scope, StartState(), toks) == FeedAll(opp, scope, data.Abstract(), toks[i..])
    {
      assert toks[i..][0] == toks[i] && toks[i..][1..] == toks[i + 1..];
      var step := data.Scan(scope, toks[i]);
      if step.Err? {
        return Err(step.error);
      }
      i := i + 1;
    }
    if data.lastTokenWasUnary {
      return Err(MissingOperand(if data.opStack == [] then "" else Last(data.opStack)));
    }
    ghost var all := data.rpn + Emit(data.opStack);
    while data.opStack != []
      invariant data.rpn + Emit(data.opStack) == all && fresh(data)
      decreases |data.opStack|
    {
      data.rpn := data.rpn + [Operator(Normalize(Last(data.opStack)))];
      data.opStack := Front(data.opStack);
    }
    assert data.rpn == all;
    if data.rpn == [] {
      data.rpn := [NoToken];
    }
    return Ok(data.rpn);
  }
}
