/**
 The operator table of the expression compiler (OppMap_t). A smaller number binds tighter;
 prefix operators are stored under "L" + name and postfix operators under "R" + name.
 */
module PrecedenceTable {

  const INT_MAX := 0x7FFFFFFF

  datatype Bracket = Round | Square | Curly

  /** The string a bracket is stored under on the operator stack. */
  function OpenName(b: Bracket): string {
    match b
    case Round => "("
    case Square => "["
    case Curly => "{"
  }

  const OPEN_NAMES: set<string> := {"(", "[", "{"}

  datatype Table = Table(prec: map<string, int>, rtol: set<string>) {
    predicate Exists(op: string) {
      op in prec
    }

    /** Whether an arriving op takes the operator on top of the stack off it. */
    predicate Pops(op: string, top: string) {
      && op in prec
      && top in prec
      && if op in rtol then prec[op] > prec[top] else prec[op] >= prec[top]
    }

    /** The entries every table has from its constructor on. */
    predicate Valid() {
      && OPEN_NAMES <= prec.Keys
      && "()" in prec
      && "[]" in prec
    }

    /** No operator takes an opening bracket off the stack, and calls and indexing are not postfix. */
    predicate Sane() {
      && Valid()
      && "R()" !in prec
      && "R[]" !in prec
      && forall op, b | op in prec && b in OPEN_NAMES && op !in OPEN_NAMES :: !Pops(op, b)
    }

    /** The effect of add. */
    function With(op: string, precedence: int): Table {
      if precedence < 0
      then Table(prec[op := -precedence], rtol + {op})
      else Table(prec[op := precedence], rtol)
    }

    /** The effect of addUnary ("L") and addRightUnary ("R"). */
    function WithUnary(side: string, op: string, precedence: int): Table {
      var t := With(side + op, precedence);
      if op in t.prec then t else t.With(op, precedence)
    }
  }

  const INITIAL := Table(
    map["[]" := -1, "()" := -1, "[" := INT_MAX, "(" := INT_MAX, "{" := INT_MAX],
    {"="})

  /** Brackets are at the loosest level and calls at level k, which no operator undercuts. */
  predicate Layered(t: Table, k: int) {
    && t.Sane()
    && (forall b | b in OPEN_NAMES :: t.prec[b] == INT_MAX)
    && t.prec["()"] == t.prec["[]"] == k && "()" !in t.rtol && "[]" !in t.rtol
    && forall op | op in t.prec && op !in OPEN_NAMES :: t.prec[op] >= k && (op in t.rtol ==> t.prec[op] > k)
  }

  predicate AddsLayered(op: string, precedence: int, k: int) {
    && op !in OPEN_NAMES && op !in {"()", "[]", "R()", "R[]"}
    && (k <= precedence < INT_MAX || (0 <= k < -precedence <= INT_MAX))
  }

  /** Operators no tighter than calls and no looser than brackets keep the table in layers. */
  lemma WithKeepsLayered(t: Table, op: string, precedence: int, k: nat)
    requires Layered(t, k) && AddsLayered(op, precedence, k)
    requires precedence >= 0 ==> op !in t.rtol || precedence > k
    ensures Layered(t.With(op, precedence), k)
  {
    var u := t.With(op, precedence);
    forall o, b | o in u.prec && b in OPEN_NAMES && o !in OPEN_NAMES
      ensures !u.Pops(o, b)
    {
      if o != op {
        assert !t.Pops(o, b);
      }
    }
  }

  /** Calls and indexing bind at least as tight as every operator. */
  predicate CallsTightest(t: Table) {
    forall op | op in t.prec && op !in OPEN_NAMES :: t.Pops(op, "()") && t.Pops(op, "[]")
  }

  lemma LayeredCalls(t: Table, k: int)
    requires Layered(t, k)
    ensures t.Sane() && CallsTightest(t)
  {
  }

  function AddAll(t: Table, ops: seq<(string, int)>): Table
    decreases |ops|
  {
    if ops == [] then t else AddAll(t.With(ops[0].0, ops[0].1), ops[1..])
  }

  predicate AllLayered(ops: seq<(string, int)>, k: int) {
    forall i | 0 <= i < |ops| :: AddsLayered(ops[i].0, ops[i].1, k) && (ops[i].1 >= 0 ==> ops[i].1 > k)
  }

  lemma {:induction false} AddAllKeepsLayered(t: Table, ops: seq<(string, int)>, k: nat)
    requires Layered(t, k) && AllLayered(ops, k)
    ensures Layered(AddAll(t, ops), k)
    decreases |ops|
  {
    if ops != [] {
      WithKeepsLayered(t, ops[0].0, ops[0].1, k);
      AddAllKeepsLayered(t.With(ops[0].0, ops[0].1), ops[1..], k);
    }
  }

  const CALLS: Table := INITIAL.With("[]", 2).With("()", 2).With(".", 2)

  /** The calculator's own operators; addUnary enters "!" as a binary operator too, "+" and "-" are there already. */
  const BUILTIN_OPERATORS: seq<(string, int)> := [
    ("**", 3), ("*", 5), ("/", 5), ("%", 5), ("+", 6), ("-", 6), ("<<", 7), (">>", 7),
    ("<", 8), ("<=", 8), (">=", 8), (">", 8), ("==", 9), ("!=", 9), ("&&", 13), ("||", 14),
    ("=", 15), (":", 15), (",", 16), ("L+", 3), ("L-", 3), ("L!", 4), ("!", 4)]

  const BUILTIN: Table := AddAll(CALLS, BUILTIN_OPERATORS)

  /** The built-in table meets what the compiler theorems ask of a table. */
  lemma BuiltinIsLayered()
    ensures Layered(BUILTIN, 2)
    ensures BUILTIN.Sane() && CallsTightest(BUILTIN)
  {
    AddAllKeepsLayered(CALLS, BUILTIN_OPERATORS, 2);
    hide AddAll, CallsTightest;
    LayeredCalls(BUILTIN, 2);
  }

  // What the built-in table says, operator by operator.

  lemma {:induction false} AddAllOthers(t: Table, ops: seq<(string, int)>, op: string)
    requires forall i | 0 <= i < |ops| :: ops[i].0 != op
    ensures var u := AddAll(t, ops);
      (op in u.prec <==> op in t.prec) && (op in t.prec ==> u.prec[op] == t.prec[op])
        && (op in u.rtol <==> op in t.rtol)
    decreases |ops|
  {
    if ops != [] {
      AddAllOthers(t.With(ops[0].0, ops[0].1), ops[1..], op);
    }
  }

  /** The last entry of an operator is the one that counts. */
  lemma {:induction false} AddAllEnters(t: Table, ops: seq<(string, int)>, i: nat)
    requires i < |ops| && forall j | i < j < |ops| :: ops[j].0 != ops[i].0
    ensures var u := AddAll(t, ops);
      ops[i].0 in u.prec && u.prec[ops[i].0] == if ops[i].1 < 0 then -ops[i].1 else ops[i].1
    decreases |ops|
  {
    if i == 0 {
      AddAllOthers(t.With(ops[0].0, ops[0].1), ops[1..], ops[0].0);
    } else {
      assert ops[1..][i - 1] == ops[i];
      AddAllEnters(t.With(ops[0].0, ops[0].1), ops[1..], i - 1);
    }
  }

  lemma {:induction false} AddAllAssociates(t: Table, ops: seq<(string, int)>)
    requires forall i | 0 <= i < |ops| :: ops[i].1 >= 0
    ensures AddAll(t, ops).rtol == t.rtol
    decreases |ops|
  {
    if ops != [] {
      AddAllAssociates(t.With(ops[0].0, ops[0].1), ops[1..]);
    }
  }

  /** The level of a built-in operator, if it is one. */
  function Level(op: string): int {
    if op in BUILTIN.prec then BUILTIN.prec[op] else -1
  }

  lemma EnteredOnce(i: nat, j: nat)
    requires i < j < |BUILTIN_OPERATORS|
    ensures BUILTIN_OPERATORS[i].0 != BUILTIN_OPERATORS[j].0
  {
  }

  lemma BuiltinEntry(i: nat)
    requires i < |BUILTIN_OPERATORS| && BUILTIN_OPERATORS[i].1 >= 0
    ensures Level(BUILTIN_OPERATORS[i].0) == BUILTIN_OPERATORS[i].1
  {
    forall j | i < j < |BUILTIN_OPERATORS|
      ensures BUILTIN_OPERATORS[j].0 != BUILTIN_OPERATORS[i].0
    {
      EnteredOnce(i, j);
    }
    AddAllEnters(CALLS, BUILTIN_OPERATORS, i);
    hide AddAll;
  }

  lemma NotEntered(op: string)
    requires op in {"[]", "()", "."}
    ensures forall i | 0 <= i < |BUILTIN_OPERATORS| :: BUILTIN_OPERATORS[i].0 != op
  {
  }

  lemma BuiltinCall(op: string)
    requires op in {"[]", "()", "."}
    ensures Level(op) == 2
  {
    assert op in CALLS.prec && CALLS.prec[op] == 2;
    NotEntered(op);
    AddAllOthers(CALLS, BUILTIN_OPERATORS, op);
    hide AddAll;
  }

  lemma Arithmetic()
    ensures Level("**") == 3 && Level("*") == Level("/") == Level("%") == 5 && Level("+") == Level("-") == 6
  {
    hide Level;
    BuiltinEntry(0);
    BuiltinEntry(1);
    BuiltinEntry(2);
    BuiltinEntry(3);
    BuiltinEntry(4);
    BuiltinEntry(5);
  }

  lemma Comparisons()
    ensures Level("<") == Level("<=") == Level(">=") == Level(">") == 8 && Level("==") == Level("!=") == 9
  {
    hide Level;
    BuiltinEntry(8);
    BuiltinEntry(9);
    BuiltinEntry(10);
    BuiltinEntry(11);
    BuiltinEntry(12);
    BuiltinEntry(13);
  }

  lemma Others()
    ensures Level("<<") == Level(">>") == 7 && Level("&&") == 13 && Level("||") == 14 && Level("=") == Level(":") == 15
      && Level(",") == 16
  {
    hide Level;
    BuiltinEntry(6);
    BuiltinEntry(7);
    BuiltinEntry(14);
    BuiltinEntry(15);
    BuiltinEntry(16);
    BuiltinEntry(17);
    BuiltinEntry(18);
  }

  lemma Unaries()
    ensures Level("L+") == Level("L-") == 3 && Level("L!") == Level("!") == 4
  {
    hide Level;
    BuiltinEntry(19);
    BuiltinEntry(20);
    BuiltinEntry(21);
    BuiltinEntry(22);
  }

  lemma BuiltinAssociates()
    ensures BUILTIN.rtol == {"="}
  {
    AddAllAssociates(CALLS, BUILTIN_OPERATORS);
    hide AddAll;
  }

  /** The built-in operators from the tightest to the loosest, as in C++; only "=" goes from right to left. */
  lemma BuiltinOrder()
    ensures BUILTIN.rtol == {"="} && 0 <= Level("[]") == Level("()") == Level(".") < Level("**")
    ensures Level("**") == Level("L+") == Level("L-") < Level("L!") == Level("!") < Level("*")
    ensures Level("*") == Level("/") == Level("%") < Level("+") == Level("-") < Level("<<")
    ensures Level("<<") == Level(">>") < Level("<") == Level("<=") == Level(">=") == Level(">") < Level("==")
    ensures Level("==") == Level("!=") < Level("&&") < Level("||") < Level("=") == Level(":") < Level(",")
  {
    hide Level, AddAll;
    BuiltinAssociates();
    BuiltinCall("[]");
    BuiltinCall("()");
    BuiltinCall(".");
    Arithmetic();
    Comparisons();
    Others();
    Unaries();
  }

  /** Table u has an entry for the key at this level, which goes from right to left if the level was given negative. */
  ghost predicate Entered(t: Table, u: Table, key: string, precedence: int) {
    && key in u.prec && u.prec[key] == (if precedence < 0 then -precedence else precedence)
    && (key in u.rtol <==> precedence < 0 || key in t.rtol)
  }

  /** An entry for op exists: the old one, or else one at the same level; nothing else but the key has changed. */
  ghost predicate EnteredBeside(t: Table, u: Table, op: string, key: string, precedence: int) {
    && (op in t.prec ==> op in u.prec && u.prec[op] == t.prec[op] && (op in u.rtol <==> op in t.rtol))
    && (op !in t.prec ==> Entered(t, u, op, precedence))
    && forall o | o != key && o != op ::
         (o in u.prec <==> o in t.prec) && (o in t.prec ==> u.prec[o] == t.prec[o]) && (o in u.rtol <==> o in t.rtol)
  }

  class OppMap {
    var table: Table

    constructor ()
      ensures table.prec.Keys == {"[]", "()", "[", "(", "{"} && table.rtol == {"="}
      ensures table.prec["[]"] == table.prec["()"] == -1
      ensures table.prec["["] == table.prec["("] == table.prec["{"] == 0x7FFFFFFF
      ensures table == INITIAL
      ensures table.Sane()
    {
      table := INITIAL;
    }

    method Add(op: string, precedence: int)
      modifies this
      ensures table.prec == old(table.prec)[op := if precedence < 0 then -precedence else precedence]
      ensures table.rtol == old(table.rtol) + if precedence < 0 then {op} else {}
      ensures table == old(table).With(op, precedence)
    {
      var p := precedence;
      if p < 0 {
        table := table.(rtol := table.rtol + {op});
        p := -p;
      }
      table := table.(prec := table.prec[op := p]);
    }

    method AddUnary(op: string, precedence: int)
      modifies this
      ensures Entered(old(table), table, "L" + op, precedence)
        && EnteredBeside(old(table), table, op, "L" + op, precedence)
      ensures table == old(table).WithUnary("L", op, precedence)
    {
      Add("L" + op, precedence);
      if !table.Exists(op) {
        Add(op, precedence);
      }
    }

    method AddRightUnary(op: string, precedence: int)
      modifies this
      ensures Entered(old(table), table, "R" + op, precedence)
        && EnteredBeside(old(table), table, op, "R" + op, precedence)
      ensures table == old(table).WithUnary("R", op, precedence)
    {
      Add("R" + op, precedence);
      if !table.Exists(op) {
        Add(op, precedence);
      }
    }
  }
}
