/**
 Running compiled code on a value stack (calculator::calculate) and the meaning of expression trees.
 Operators and functions are a parameter: a total function of the operator name and its two
 resolved operands that may fail. Operators that assign to the scope are not modelled.
 */
module RpnMachine {
  import opened Wrappers
  import opened PrecedenceTable
  import opened RpnBuilder
  import opened ExprTree
  import opened CompileCorrect

  datatype EvalError = InvalidEquation | OperationFailed(op: string)

  type Semantics<!V> = (string, Rpn<V>, Rpn<V>) -> Result<V, EvalError>

  /** RefToken::resolve with a scope: the newest value wins over the one stored at compile time. */
  function Resolve<V>(scope: map<string, V>, x: Rpn<V>): Rpn<V> {
    match x
    case Ref(name, original) => Value(if name in scope then scope[name] else original)
    case _ => x
  }

  /** resolve_reference without a scope, as eval applies it to the final result. */
  function ResolveFinal<V>(x: Rpn<V>): Rpn<V> {
    match x
    case Ref(_, original) => Value(original)
    case _ => x
  }

  /** What a token that is not an operator puts on the stack. */
  function Loaded<V>(scope: map<string, V>, tok: Rpn<V>): Rpn<V> {
    match tok
    case Unresolved(name) => if name in scope then Ref(name, scope[name]) else tok
    case _ => tok
  }

  function Step<V>(sem: Semantics<V>, scope: map<string, V>, stack: seq<Rpn<V>>, tok: Rpn<V>): Result<seq<Rpn<V>>,
      EvalError>
  {
    match tok
    case Operator(op) =>
      if |stack| < 2 then Err(InvalidEquation)
      else
        var v :- sem(op, Resolve(scope, stack[|stack| - 2]), Resolve(scope, stack[|stack| - 1]));
        Ok(stack[..|stack| - 2] + [Value(v)])
    case _ => Ok(stack + [Loaded(scope, tok)])
  }

  function Run<V>(sem: Semantics<V>, scope: map<string, V>, stack: seq<Rpn<V>>,
                  code: seq<Rpn<V>>): Result<seq<Rpn<V>>, EvalError>
    decreases |code|
  {
    if code == [] then Ok(stack)
    else
      var stack' :- Step(sem, scope, stack, code[0]);
      Run(sem, scope, stack', code[1..])
  }

  lemma {:induction false} RunNeverEmpties<V>(sem: Semantics<V>, scope: map<string, V>, stack: seq<Rpn<V>>,
                                              code: seq<Rpn<V>>)
    requires stack != [] || code != []
    ensures var r := Run(sem, scope, stack, code); r.Ok? ==> r.value != []
    decreases |code|
  {
    if code != [] {
      var r := Step(sem, scope, stack, code[0]);
      if r.Ok? {
        RunNeverEmpties(sem, scope, r.value, code[1..]);
      }
    }
  }

  /** The token eval returns: the top of the final stack, with a reference replaced by its stored value. */
  function Evaluate<V>(sem: Semantics<V>, scope: map<string, V>, code: seq<Rpn<V>>): Result<Rpn<V>, EvalError>
    requires code != []
  {
    RunNeverEmpties(sem, scope, [], code);
    var stack :- Run(sem, scope, [], code);
    Ok(ResolveFinal(Last(stack)))
  }

  method Calculate<V>(sem: Semantics<V>, scope: map<string, V>, code: seq<Rpn<V>>)
    returns (r: Result<Rpn<V>, EvalError>)
    requires code != []
    ensures r == Evaluate(sem, scope, code)
  {
    RunNeverEmpties(sem, scope, [], code);
    var rpn := code;
    var evaluation: seq<Rpn<V>> := [];
    while rpn != []
      invariant Run(sem, scope, [], code) == Run(sem, scope, evaluation, rpn)
      decreases |rpn|
    {
      var base := rpn[0];
      rpn := rpn[1..];
      match base
      case Operator(op) =>
        if |evaluation| < 2 {
          return Err(InvalidEquation);
        }
        var right := evaluation[|evaluation| - 1];
        var left := evaluation[|evaluation| - 2];
        evaluation := evaluation[..|evaluation| - 2];
        var result := sem(op, Resolve(scope, left), Resolve(scope, right));
        if result.Err? {
          return Err(result.error);
        }
        evaluation := evaluation + [Value(result.value)];
      case Unresolved(name) =>
        evaluation := evaluation + [if name in scope then Ref(name, scope[name]) else base];
      case _ =>
        evaluation := evaluation + [base];
    }
    return Ok(ResolveFinal(Last(evaluation)));
  }

  /** A variable reads the evaluation scope if bound there, else the compile-time scope. */
  function AtomMeaning<V>(compiled: map<string, V>, scope: map<string, V>, a: Atom<V>): Rpn<V> {
    match a
    case Const(v) => Value(v)
    case Var(name) =>
      if name in scope then Value(scope[name])
      else if name in compiled then Value(compiled[name])
      else Unresolved(name)
  }

  function Computed<V>(r: Result<V, EvalError>): Result<Rpn<V>, EvalError> {
    if r.Ok? then Ok(Value(r.value)) else Err(r.error)
  }

  /** The recursive value of a tree: operands from left to right, then the operator. */
  function Meaning<V>(sem: Semantics<V>, compiled: map<string, V>, scope: map<string, V>, e: Expr<V>): Result<Rpn<V>,
      EvalError>
  {
    match e
    case Leaf(a) => Ok(AtomMeaning(compiled, scope, a))
    case Binary(op, l, r) =>
      var x :- Meaning(sem, compiled, scope, l);
      var y :- Meaning(sem, compiled, scope, r);
      Computed(sem(op, x, y))
    case Prefix(op, x) =>
      var y :- Meaning(sem, compiled, scope, x);
      Computed(sem(op, Unary, y))
    case Postfix(op, x) =>
      var y :- Meaning(sem, compiled, scope, x);
      Computed(sem(op, y, Unary))
    case Group(b) => BodyMeaning(sem, compiled, scope, b)
    case Apply(h, b, x) =>
      var f :- Meaning(sem, compiled, scope, h);
      var y :- BodyMeaning(sem, compiled, scope, x);
      Computed(sem(ApplyName(b), f, y))
    case Literal(b, x) =>
      var y :- BodyMeaning(sem, compiled, scope, x);
      Computed(sem("()", Rpn.Constructor(b), y))
  }

  function BodyMeaning<V>(sem: Semantics<V>, compiled: map<string, V>, scope: map<string, V>,
                          b: Body<V>): Result<Rpn<V>, EvalError>
  {
    if b.Nothing? then Ok(EmptyTuple) else Meaning(sem, compiled, scope, b.e)
  }

  /** An expression that is a single atom, possibly in brackets. */
  function BareAtom<V>(e: Expr<V>): Option<Atom<V>> {
    match e
    case Leaf(a) => Some(a)
    case Group(b) => if b.Nothing? then None else BareAtom(b.e)
    case _ => None
  }

  /** What the code of e leaves on the stack: a bare variable is left unread, anything else is its meaning. */
  function Entry<V>(sem: Semantics<V>, compiled: map<string, V>, scope: map<string, V>, e: Expr<V>): Result<Rpn<V>,
      EvalError>
  {
    match BareAtom(e)
    case Some(a) => Ok(Loaded(scope, Compiled(compiled, a)))
    case None => Meaning(sem, compiled, scope, e)
  }

  lemma {:induction false} EntryResolves<V>(sem: Semantics<V>, compiled: map<string, V>,
                                            scope: map<string, V>, e: Expr<V>)
    ensures var x, m := Entry(sem, compiled, scope, e), Meaning(sem, compiled, scope, e);
      if x.Err? then m == x else m == Ok(Resolve(scope, x.value))
    decreases e
  {
    match e
    case Group(b) => if b.Inside? { EntryResolves(sem, compiled, scope, b.e); }
    case _ =>
  }

  /** On every stack and before every continuation, code pushes exactly x, or fails as x does. */
  ghost predicate Computes<V(!new)>(sem: Semantics<V>, scope: map<string, V>, code: seq<Rpn<V>>,
                                    x: Result<Rpn<V>, EvalError>)
  {
    forall stack, rest :: Run(sem, scope, stack, code + rest) == Then(sem, scope, stack, x, rest)
  }

  ghost function Then<V>(sem: Semantics<V>, scope: map<string, V>, stack: seq<Rpn<V>>, x: Result<Rpn<V>, EvalError>,
                         rest: seq<Rpn<V>>): Result<seq<Rpn<V>>, EvalError>
  {
    if x.Err? then Err(x.error) else Run(sem, scope, stack + [x.value], rest)
  }

  lemma OneComputes<V(!new)>(sem: Semantics<V>, scope: map<string, V>, tok: Rpn<V>)
    requires !tok.Operator?
    ensures Computes(sem, scope, [tok], Ok(Loaded(scope, tok)))
  {
    forall stack: seq<Rpn<V>>, rest: seq<Rpn<V>>
      ensures Run(sem, scope, stack, [tok] + rest) == Run(sem, scope, stack + [Loaded(scope, tok)], rest)
    {
      assert ([tok] + rest)[1..] == rest;
    }
  }

  /** The result of an operator whose operands left x and y on the stack. */
  function Combined<V>(sem: Semantics<V>, scope: map<string, V>, op: string, x: Result<Rpn<V>, EvalError>,
                       y: Result<Rpn<V>, EvalError>)
    : Result<Rpn<V>, EvalError>
  {
    if x.Err? then x else if y.Err? then y
    else Computed(sem(op, Resolve(scope, x.value), Resolve(scope, y.value)))
  }

  lemma OperatorComputes<V(!new)>(sem: Semantics<V>, scope: map<string, V>, op: string,
                                  c: seq<Rpn<V>>, x: Result<Rpn<V>, EvalError>, d: seq<Rpn<V>>,
                                  y: Result<Rpn<V>, EvalError>)
    requires Computes(sem, scope, c, x) && Computes(sem, scope, d, y)
    ensures Computes(sem, scope, c + d + [Operator(op)], Combined(sem, scope, op, x, y))
  {
    var code := c + d + [Operator(op)];
    forall stack: seq<Rpn<V>>, rest: seq<Rpn<V>>
      ensures Run(sem, scope, stack, code + rest) == Then(sem, scope, stack, Combined(sem, scope, op, x, y), rest)
    {
      var rest1 := [Operator(op)] + rest;
      assert code + rest == c + (d + rest1);
      if x.Ok? && y.Ok? {
        assert rest1[1..] == rest;
        var full := stack + [x.value] + [y.value];
        assert full[..|full| - 2] == stack;
        assert Run(sem, scope, stack, c + (d + rest1)) == Run(sem, scope, full, rest1);
      }
    }
  }

  /** The code of a tree computes the tree, never underflows and leaves one entry. */
  lemma {:induction false} PostorderComputes<V(!new)>(sem: Semantics<V>, compiled: map<string, V>,
                                                      scope: map<string, V>, e: Expr<V>)
    ensures Computes(sem, scope, Postorder(compiled, e), Entry(sem, compiled, scope, e))
    decreases e
  {
    match e
    case Leaf(a) => OneComputes(sem, scope, Compiled(compiled, a));
    case Binary(op, l, r) =>
      PostorderComputes(sem, compiled, scope, l);
      PostorderComputes(sem, compiled, scope, r);
      EntryResolves(sem, compiled, scope, l);
      EntryResolves(sem, compiled, scope, r);
      OperatorComputes(sem, scope, op, Postorder(compiled, l), Entry(sem, compiled, scope, l),
                       Postorder(compiled, r), Entry(sem, compiled, scope, r));
    case Prefix(op, x) =>
      OneComputes(sem, scope, Unary);
      PostorderComputes(sem, compiled, scope, x);
      EntryResolves(sem, compiled, scope, x);
      OperatorComputes(sem, scope, op, [Unary], Ok(Unary), Postorder(compiled, x), Entry(sem, compiled, scope, x));
    case Postfix(op, x) =>
      OneComputes(sem, scope, Unary);
      PostorderComputes(sem, compiled, scope, x);
      EntryResolves(sem, compiled, scope, x);
      OperatorComputes(sem, scope, op, Postorder(compiled, x), Entry(sem, compiled, scope, x), [Unary], Ok(Unary));
      assert Postorder(compiled, x) + [Unary] + [Operator(op)] == Postorder(compiled, e);
    case Group(b) => BodyComputes(sem, compiled, scope, b);
    case Apply(h, b, x) =>
      PostorderComputes(sem, compiled, scope, h);
      EntryResolves(sem, compiled, scope, h);
      BodyComputes(sem, compiled, scope, x);
      OperatorComputes(sem, scope, ApplyName(b), Postorder(compiled, h), Entry(sem, compiled, scope, h),
                       PostorderBody(compiled, x), BodyEntry(sem, compiled, scope, x));
    case Literal(b, x) =>
      OneComputes(sem, scope, Rpn<V>.Constructor(b));
      BodyComputes(sem, compiled, scope, x);
      OperatorComputes(sem, scope, "()", [Rpn.Constructor(b)], Ok(Rpn.Constructor(b)),
                       PostorderBody(compiled, x), BodyEntry(sem, compiled, scope, x));
  }

  function BodyEntry<V>(sem: Semantics<V>, compiled: map<string, V>, scope: map<string, V>, b: Body<V>): Result<Rpn<V>,
      EvalError>
  {
    if b.Nothing? then Ok(EmptyTuple) else Entry(sem, compiled, scope, b.e)
  }

  lemma {:induction false} BodyComputes<V(!new)>(sem: Semantics<V>, compiled: map<string, V>,
                                                 scope: map<string, V>, b: Body<V>)
    ensures Computes(sem, scope, PostorderBody(compiled, b), BodyEntry(sem, compiled, scope, b))
    ensures var x, m := BodyEntry(sem, compiled, scope, b), BodyMeaning(sem, compiled, scope, b);
      if x.Err? then m == x else m == Ok(Resolve(scope, x.value))
    decreases b
  {
    if b.Nothing? {
      OneComputes(sem, scope, EmptyTuple);
    } else {
      PostorderComputes(sem, compiled, scope, b.e);
      EntryResolves(sem, compiled, scope, b.e);
    }
  }

  /** Compiling a token list under one scope and evaluating it under another. */
  function CompileThenEvaluate<V>(t: Table, sem: Semantics<V>, compiled: map<string, V>, scope: map<string, V>,
                                  toks: seq<Token<V>>)
    : Option<Result<Rpn<V>, EvalError>>
  {
    var c := Compile(t, compiled, toks);
    if c.Ok? && c.value != [] then Some(Evaluate(sem, scope, c.value)) else None
  }

  /** Evaluation returns the entry the tree leaves, with a reference read as stored. */
  lemma EvaluatePrinted<V(!new)>(t: Table, sem: Semantics<V>, compiled: map<string, V>,
                                 scope: map<string, V>, e: Expr<V>)
    requires t.Sane() && Known(t, e)
    ensures CompileThenEvaluate(t, sem, compiled, scope, Print(Parenthesize(t, e)))
         == Some(var x := Entry(sem, compiled, scope, e); if x.Err? then x else Ok(ResolveFinal(x.value)))
  {
    CompileParenthesized(t, compiled, e);
    PostorderNonEmpty(compiled, e);
    PostorderComputes(sem, compiled, scope, e);
    var code, x := Postorder(compiled, e), Entry(sem, compiled, scope, e);
    assert code + [] == code;
    assert Run(sem, scope, [], code + []) == Then(sem, scope, [], x, []);
  }

  lemma {:induction false} MeaningOfBareAtom<V>(sem: Semantics<V>, compiled: map<string, V>,
                                                scope: map<string, V>, e: Expr<V>)
    ensures BareAtom(e).Some? ==>
      Meaning(sem, compiled, scope, e) == Ok(AtomMeaning(compiled, scope, BareAtom(e).value))
    decreases e
  {
    match e
    case Group(b) => if b.Inside? { MeaningOfBareAtom(sem, compiled, scope, b.e); }
    case _ =>
  }

  /** Results of operators are values, never references. */
  lemma {:induction false} MeaningIsResolved<V>(sem: Semantics<V>, compiled: map<string, V>,
                                                scope: map<string, V>, e: Expr<V>)
    ensures var m := Meaning(sem, compiled, scope, e); m.Ok? ==> !m.value.Ref?
    decreases e
  {
    match e
    case Group(b) => if b.Inside? { MeaningIsResolved(sem, compiled, scope, b.e); }
    case _ =>
  }

  /** A lone variable that both scopes bind, to different values. */
  predicate StaleVariable<V(==)>(compiled: map<string, V>, scope: map<string, V>, e: Expr<V>) {
    match BareAtom(e)
    case Some(Var(name)) => name in compiled && name in scope && compiled[name] != scope[name]
    case _ => false
  }

  /**
   Late binding, and exactly where it fails: any tree, printed with the brackets it needs (none if it
   fits), is compiled and evaluated to its own recursive value with every variable read late, unless the
   whole expression is one variable rebound since compilation.
   */
  lemma LateBinding<V(!new)>(t: Table, sem: Semantics<V>, compiled: map<string, V>, scope: map<string, V>, e: Expr<V>)
    requires t.Sane() && Known(t, e)
    ensures CompileThenEvaluate(t, sem, compiled, scope, Print(Parenthesize(t, e)))
              == Some(Meaning(sem, compiled, scope, e))
       <==> !StaleVariable(compiled, scope, e)
  {
    EvaluatePrinted(t, sem, compiled, scope, e);
    EntryResolves(sem, compiled, scope, e);
    MeaningOfBareAtom(sem, compiled, scope, e);
    MeaningIsResolved(sem, compiled, scope, e);
  }

  /** The failing case: "x", compiled with x = 1 and evaluated with x = 2, still gives 1. */
  lemma StaleVariableExample(t: Table, sem: Semantics<int>)
    requires t.Sane()
    ensures CompileThenEvaluate(t, sem, map["x" := 1], map["x" := 2], [Operand(Var("x"))]) == Some(Ok(Value(1)))
    ensures Meaning(sem, map["x" := 1], map["x" := 2], Leaf(Var("x"))) == Ok(Value(2))
  {
    EvaluatePrinted(t, sem, map["x" := 1], map["x" := 2], Leaf(Var("x")));
  }
}
