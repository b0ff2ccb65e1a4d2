/**
 Which token lists are expressions: operands and operators alternate and brackets match (Alternating),
 and, beyond that, every finished call is closed by the operator after it and no list or map literal
 takes away the operand of the operator before it (WellFormed).
 */
module TokenGrammar {
  import opened PrecedenceTable
  import opened RpnBuilder
  import opened ExprTree

  /**
   What the next token may be. NeedOperand carries the stack entry that waits for the operand,
   HaveOperand the entry of a call or index just finished, if there is one.
   */
  datatype Mode = NeedOperand(top: string) | JustOpened | HaveOperand(edge: seq<string>)

  /** An open bracket and the stack entry below it that its closing bracket finishes. */
  datatype Opened = Opened(bracket: Bracket, edge: seq<string>)

  /** The stack entry that a token after an operand is looked up as. */
  function Key<V>(t: Table, tok: Token<V>): string {
    match tok
    case Op(op) => if t.Exists("R" + op) then "R" + op else op
    case Open(b) => ApplyName(b)
    case _ => ""
  }

  /** Operands and operators alternate, prefix operators are known as such and brackets match. */
  predicate Admits<V>(t: Table, mode: Mode, open: seq<Opened>, tok: Token<V>) {
    match tok
    case Operand(_) => !mode.HaveOperand?
    case Op(op) => Plain(op) && t.Exists(op) && (!mode.HaveOperand? ==> t.Exists("L" + op))
    case Open(b) => mode.HaveOperand? ==> b != Curly
    case Close(b) => !mode.NeedOperand? && open != [] && Last(open).bracket == b
  }

  /** An operator or bracket right after a finished call takes the call off the stack. */
  predicate ClosesCall<V>(t: Table, mode: Mode, tok: Token<V>) {
    mode.HaveOperand? && (tok.Op? || tok.Open?) ==> ClosesAll(t, Key(t, tok), mode.edge)
  }

  /** The call that a list or map literal stands for does not take the waiting operator off the stack. */
  predicate LiteralStands<V>(t: Table, mode: Mode, tok: Token<V>) {
    mode.NeedOperand? && tok.Open? && tok.bracket != Round ==> !t.Pops("()", mode.top)
  }

  predicate Allowed<V>(t: Table, mode: Mode, open: seq<Opened>, tok: Token<V>) {
    Admits(t, mode, open, tok) && ClosesCall(t, mode, tok) && LiteralStands(t, mode, tok)
  }

  function NextMode<V>(t: Table, mode: Mode, open: seq<Opened>, tok: Token<V>): Mode {
    match tok
    case Op(op) =>
      if !mode.HaveOperand? then NeedOperand("L" + op)
      else if t.Exists("R" + op) then HaveOperand([]) else NeedOperand(op)
    case Open(_) => JustOpened
    case Close(_) => HaveOperand(if open == [] then [] else Last(open).edge)
    case Operand(_) => HaveOperand([])
  }

  /** The entry that the call or index opened by b, or the literal, leaves on the stack. */
  function OpenedEdge(mode: Mode, b: Bracket): seq<string> {
    if mode.HaveOperand? then [ApplyName(b)] else if b == Round then [] else ["()"]
  }

  function NextOpen<V>(mode: Mode, open: seq<Opened>, tok: Token<V>): seq<Opened> {
    match tok
    case Open(b) => open + [Opened(b, OpenedEdge(mode, b))]
    case Close(b) => if open == [] then [] else Front(open)
    case _ => open
  }

  predicate Alternating<V>(t: Table, toks: seq<Token<V>>, mode: Mode, open: seq<Opened>)
    decreases |toks|
  {
    if toks == [] then mode.HaveOperand? && open == []
    else
      && Admits(t, mode, open, toks[0])
      && Alternating(t, toks[1..], NextMode(t, mode, open, toks[0]), NextOpen(mode, open, toks[0]))
  }

  predicate WellFormed<V>(t: Table, toks: seq<Token<V>>, mode: Mode, open: seq<Opened>)
    decreases |toks|
  {
    if toks == [] then mode.HaveOperand? && open == []
    else
      && Allowed(t, mode, open, toks[0])
      && WellFormed(t, toks[1..], NextMode(t, mode, open, toks[0]), NextOpen(mode, open, toks[0]))
  }

  lemma {:induction false} WellFormedAlternates<V>(t: Table, toks: seq<Token<V>>, mode: Mode, open: seq<Opened>)
    requires WellFormed(t, toks, mode, open)
    ensures Alternating(t, toks, mode, open)
    decreases |toks|
  {
    if toks != [] {
      WellFormedAlternates(t, toks[1..], NextMode(t, mode, open, toks[0]), NextOpen(mode, open, toks[0]));
    }
  }

  /** The entries carried along are calls and indexings. */
  predicate CallEdges(mode: Mode, open: seq<Opened>) {
    && (mode.HaveOperand? ==> mode.edge in {[], ["()"], ["[]"]})
    && forall o | o in open :: o.edge in {[], ["()"], ["[]"]}
  }

  /** No literal stands where a call would take the waiting operator off the stack. */
  predicate LiteralsStand<V>(t: Table, toks: seq<Token<V>>, mode: Mode, open: seq<Opened>)
    decreases |toks|
  {
    toks == [] ||
    (LiteralStands(t, mode, toks[0])
     && LiteralsStand(t, toks[1..], NextMode(t, mode, open, toks[0]), NextOpen(mode, open, toks[0])))
  }

  /** Where no operator binds tighter than a call, alternation and well-placed literals are all there is. */
  lemma {:induction false} TightCallsGrammar<V>(t: Table, toks: seq<Token<V>>, mode: Mode, open: seq<Opened>)
    requires CallsTightest(t) && CallEdges(mode, open)
    requires t.Sane()
    ensures WellFormed(t, toks, mode, open) <==> Alternating(t, toks, mode, open) && LiteralsStand(t, toks, mode, open)
    decreases |toks|
  {
    if toks != [] {
      var tok := toks[0];
      if Admits(t, mode, open, tok) {
        assert ClosesCall(t, mode, tok);
        assert tok.Close? ==> Last(open) in open;
        TightCallsGrammar(t, toks[1..], NextMode(t, mode, open, tok), NextOpen(mode, open, tok));
      }
    }
  }
}
