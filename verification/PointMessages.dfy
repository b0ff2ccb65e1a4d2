/** Messages of comma-separated points, how they are split, and what a subscriber does with them. */
module PointMessages {
  import opened Sequences
  import opened Wrappers

  /** The position of the first delimiter, or the length when there is none. */
  function Find(s: string, delimiter: char): (i: nat)
    ensures i <= |s| && delimiter !in s[..i] && (i < |s| ==> s[i] == delimiter)
  {
    if s == [] || s[0] == delimiter then 0 else 1 + Find(s[1..], delimiter)
  }

  /** The parts between delimiters; there is always at least one. */
  function Split(s: string, delimiter: char): (parts: seq<string>)
    ensures |parts| > 0
    decreases |s|
  {
    var i := Find(s, delimiter);
    if i == |s| then [s] else [s[..i]] + Split(s[i + 1..], delimiter)
  }

  /** Every part followed by the delimiter. */
  function Text(parts: seq<string>, delimiter: char): string {
    if parts == [] then [] else parts[0] + [delimiter] + Text(parts[1..], delimiter)
  }

  lemma {:induction false} TextAppend(a: seq<string>, b: seq<string>, delimiter: char)
    ensures Text(a + b, delimiter) == Text(a, delimiter) + Text(b, delimiter)
    decreases |a|
  {
    if a == [] {
      assert a + b == b;
    } else {
      assert (a + b)[1..] == a[1..] + b;
      TextAppend(a[1..], b, delimiter);
    }
  }

  predicate Clean(parts: seq<string>, delimiter: char) {
    forall p | p in parts :: delimiter !in p
  }

  lemma CleanFirst(p: string, parts: seq<string>, delimiter: char)
    ensures Clean([p] + parts, delimiter) <==> delimiter !in p && Clean(parts, delimiter)
  {
    assert p in [p] + parts && forall q | q in parts :: q in [p] + parts;
  }

  lemma {:induction false} SplitIsClean(s: string, delimiter: char)
    ensures Clean(Split(s, delimiter), delimiter)
    decreases |s|
  {
    assert Clean([], delimiter);
    hide Clean;
    var i := Find(s, delimiter);
    if i == |s| {
      assert s[..i] == s && [s] + [] == [s];
      CleanFirst(s, [], delimiter);
    } else {
      SplitIsClean(s[i + 1..], delimiter);
      CleanFirst(s[..i], Split(s[i + 1..], delimiter), delimiter);
    }
  }

  lemma TextOfFirst(p: string, parts: seq<string>, delimiter: char)
    ensures Text([p] + parts, delimiter) == p + [delimiter] + Text(parts, delimiter)
  {
    assert ([p] + parts)[1..] == parts;
  }

  lemma Rejoin(s: string, i: nat, c: char)
    requires i < |s| && s[i] == c
    ensures s[..i] + [c] + (s[i + 1..] + [c]) == s + [c]
  {
  }

  /** Splitting keeps all of the text. */
  lemma {:induction false} TextOfSplit(s: string, delimiter: char)
    ensures Text(Split(s, delimiter), delimiter) == s + [delimiter]
    decreases |s|
  {
    assert Text([], delimiter) == [];
    hide Text;
    var i := Find(s, delimiter);
    if i == |s| {
      TextOfFirst(s, [], delimiter);
      assert [s] + [] == [s] && s + [delimiter] + [] == s + [delimiter];
    } else {
      TextOfSplit(s[i + 1..], delimiter);
      TextOfFirst(s[..i], Split(s[i + 1..], delimiter), delimiter);
      Rejoin(s, i, delimiter);
    }
  }

  lemma {:induction false} FindAfter(p: string, rest: string, delimiter: char)
    requires delimiter !in p
    ensures Find(p + [delimiter] + rest, delimiter) == |p|
    decreases |p|
  {
    if p != [] {
      FindAfter(p[1..], rest, delimiter);
      assert (p + [delimiter] + rest)[1..] == p[1..] + [delimiter] + rest;
    }
  }

  lemma SplitFirst(p: string, rest: string, delimiter: char)
    requires delimiter !in p
    ensures Split(p + [delimiter] + rest, delimiter) == [p] + Split(rest, delimiter)
  {
    var s := p + [delimiter] + rest;
    FindAfter(p, rest, delimiter);
    assert s[..|p|] == p && s[|p| + 1..] == rest;
  }

  /** Text of clean parts splits into those parts, and an empty last one. */
  lemma {:induction false} SplitOfText(parts: seq<string>, delimiter: char)
    requires Clean(parts, delimiter)
    ensures Split(Text(parts, delimiter), delimiter) == parts + [""]
    decreases |parts|
  {
    if parts == [] {
      assert Text([], delimiter) == "" && [] + [""] == [""];
    } else {
      var p, more := parts[0], parts[1..];
      assert parts == [p] + more;
      CleanFirst(p, more, delimiter);
      hide Clean, Text, Split;
      TextOfFirst(p, more, delimiter);
      SplitFirst(p, Text(more, delimiter), delimiter);
      SplitOfText(more, delimiter);
      Assoc([p], more, [""]);
    }
  }

  /** The source's split: it erases what it has taken from the phrase it was given. */
  method SplitInPlace(text: string, delimiter: char) returns (list: seq<string>, phrase: string)
    ensures list == Split(text, delimiter) && phrase == list[|list| - 1]
  {
    list, phrase := [], text;
    var pos := Find(phrase, delimiter);
    while pos != |phrase|
      invariant pos == Find(phrase, delimiter) && Split(text, delimiter) == list + Split(phrase, delimiter)
      decreases |phrase|
    {
      var rest := phrase[pos + 1..];
      Assoc(list, [phrase[..pos]], Split(rest, delimiter));
      list := list + [phrase[..pos]];
      phrase := rest;
      pos := Find(phrase, delimiter);
    }
    list := list + [phrase];
  }

  // The subscriber.

  datatype Value = Status(b: bool) | Number(x: real)

  type Store = map<string, Value>

  /** What a point asks for: its name and value, if it has both and the value can be read. */
  function Assignment(point: string, number: string -> Option<real>): Option<(string, Value)> {
    var parts := Split(point, ':');
    if |parts| < 2 then None
    else if parts[1] == "true" then Some((parts[0], Status(true)))
    else if parts[1] == "false" then Some((parts[0], Status(false)))
    else match number(parts[1])
      case Some(x) => Some((parts[0], Number(x)))
      case None => None
  }

  /** One point: stored if its name is known. */
  function HandlePoint(store: Store, point: string, number: string -> Option<real>): Store {
    match Assignment(point, number)
    case Some((name, value)) => if name in store then store[name := value] else store
    case None => store
  }

  /**
   A point without a colon asks for nothing; otherwise what stands before and after its first colon
   counts, up to a second one.
   */
  lemma PointIsRead(name: string, value: string, rest: string, number: string -> Option<real>)
    requires ':' !in name && ':' !in value
    ensures Assignment(name, number) == None
    ensures forall point | point in {name + ":" + value, name + ":" + (value + ":" + rest)} ::
      Assignment(point, number) ==
        if value in {"true", "false"} then Some((name, Status(value == "true")))
        else if number(value).Some? then Some((name, Number(number(value).value))) else None
  {
    SplitWhole(name, ':');
    SplitWhole(value, ':');
    SplitFirst(name, value, ':');
    SplitFirst(name, value + ":" + rest, ':');
    SplitFirst(value, rest, ':');
    hide Split;
  }

  lemma SplitWhole(s: string, delimiter: char)
    requires delimiter !in s
    ensures Split(s, delimiter) == [s]
  {
  }

  function HandlePoints(store: Store, points: seq<string>, number: string -> Option<real>): Store
    decreases |points|
  {
    if points == [] then store else HandlePoints(HandlePoint(store, points[0], number), points[1..], number)
  }

  function Handle(store: Store, message: string, number: string -> Option<real>): Store {
    HandlePoints(store, Split(message, ','), number)
  }

  function HandleAll(store: Store, messages: seq<string>, number: string -> Option<real>): Store
    decreases |messages|
  {
    if messages == [] then store else HandleAll(Handle(store, messages[0], number), messages[1..], number)
  }

  lemma {:induction false} HandlePointsAppend(store: Store, a: seq<string>, b: seq<string>,
                                              number: string -> Option<real>)
    ensures HandlePoints(store, a + b, number) == HandlePoints(HandlePoints(store, a, number), b, number)
    decreases |a|
  {
    if a == [] {
      assert a + b == b;
    } else {
      assert (a + b)[1..] == a[1..] + b;
      HandlePointsAppend(HandlePoint(store, a[0], number), a[1..], b, number);
    }
  }

  lemma EmptyPoint(store: Store, number: string -> Option<real>)
    ensures HandlePoints(store, [""], number) == store
  {
    assert Split("", ':') == [""] && [""][1..] == [];
  }

  /** A message made of whole points is handled like the list of points. */
  lemma HandleText(store: Store, points: seq<string>, number: string -> Option<real>)
    requires Clean(points, ',')
    ensures Handle(store, Text(points, ','), number) == HandlePoints(store, points, number)
  {
    SplitOfText(points, ',');
    HandlePointsAppend(store, points, [""], number);
    EmptyPoint(HandlePoints(store, points, number), number);
  }

  class InputModule {
    var store: Store

    constructor (points: Store)
      ensures store == points
    {
      store := points;
    }

    /** subscriptionHandler: point by point, into the points that exist. */
    method SubscriptionHandler(data: string, number: string -> Option<real>)
      modifies this
      ensures store == Handle(old(store), data, number)
    {
      var points, _ := SplitInPlace(data, ',');
      assert points[0..] == points;
      for i := 0 to |points|
        invariant HandlePoints(old(store), points, number) == HandlePoints(store, points[i..], number)
      {
        assert points[i..][0] == points[i] && points[i..][1..] == points[i + 1..];
        var parts, _ := SplitInPlace(points[i], ':');
        if |parts| < 2 {
          continue;
        }
        var name, value := parts[0], parts[1];
        if name in store {
          if value == "true" || value == "false" {
            store := store[name := Status(value == "true")];
          } else {
            var x := number(value);
            if x.Some? {
              store := store[name := Number(x.value)];
            }
          }
        }
      }
    }
  }
}
