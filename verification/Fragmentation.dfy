/** How publishers cut a message that exceeds the MTU, and why subscribers cannot tell. */
module Fragmentation {
  import opened PointMessages
  import opened Sequences
  import opened Wrappers

  /** The groups of parts that are sent, one message each, when group is what has been collected so far. */
  function Groups(parts: seq<string>, group: seq<string>, count: nat, size: nat, mtu: nat): seq<seq<string>>
    decreases |parts|
  {
    if parts == [] then []
    else
      var next := count + |parts[0]| + 1;
      if |Text(group, ',')| + |parts[0]| + 1 < mtu && next <= size
      then Groups(parts[1..], group + [parts[0]], next, size, mtu)
      else [group] + Groups(parts[1..], [parts[0]], next, size, mtu)
  }

  function Texts(groups: seq<seq<string>>): seq<string>
    decreases |groups|
  {
    if groups == [] then [] else [Text(groups[0], ',')] + Texts(groups[1..])
  }

  /** The messages that publishing msg puts on the wire. */
  function Published(msg: string, mtu: nat): seq<string> {
    if |msg| > mtu then Texts(Groups(Split(msg, ','), [], 0, |msg|, mtu)) else [msg]
  }

  function Concat(messages: seq<string>): string {
    if messages == [] then [] else messages[0] + Concat(messages[1..])
  }

  function Flat(groups: seq<seq<string>>): seq<string> {
    if groups == [] then [] else groups[0] + Flat(groups[1..])
  }

  class Publisher {
    const mtu: nat
    /** What has been sent, in order. */
    var sent: seq<string>

    constructor (limit: nat)
      ensures mtu == limit && sent == []
    {
      mtu, sent := limit, [];
    }

    /** publish: collect parts while they fit, send and start over when the next one does not. */
    method Publish(msg: string)
      modifies this`sent
      ensures sent == old(sent) + Published(msg, mtu)
    {
      if |msg| <= mtu {
        sent := sent + [msg];
        return;
      }
      hide Text, Groups, Texts;
      var parts, _ := SplitInPlace(msg, ',');
      var count: nat, message := 0, "";
      ghost var group: seq<string>, all := [], sent + Published(msg, mtu);
      NoText();
      AllUnsent(parts, |msg|, mtu);
      hide Published, Unsent, Find, Split;
      for i := 0 to |parts|
        invariant message == Text(group, ',')
        invariant sent + Unsent(parts, i, group, count, |msg|, mtu) == all
      {
        var part := parts[i] + [','];
        count := count + |part|;
        NextPart(parts, i, group, count - |part|, |msg|, mtu);
        PartText(group, parts[i]);
        if |message + part| < mtu && count <= |msg| {
          message := message + part;
          group := group + [parts[i]];
        } else {
          Assoc(sent, [message], Unsent(parts, i + 1, [parts[i]], count, |msg|, mtu));
          sent := sent + [message];
          message := part;
          group := [parts[i]];
        }
      }
      NoGroups(parts, group, count, |msg|, mtu);
    }
  }

  /** The messages still to be sent when the parts up to i have been collected or sent. */
  function Unsent(parts: seq<string>, i: nat, group: seq<string>, count: nat, size: nat, mtu: nat): seq<string>
    requires i <= |parts|
  {
    Texts(Groups(parts[i..], group, count, size, mtu))
  }

  lemma AllUnsent(parts: seq<string>, size: nat, mtu: nat)
    ensures Unsent(parts, 0, [], 0, size, mtu) == Texts(Groups(parts, [], 0, size, mtu))
  {
    assert parts[0..] == parts;
  }

  lemma NoText()
    ensures Text([], ',') == ""
  {
  }

  lemma NoGroups(parts: seq<string>, group: seq<string>, count: nat, size: nat, mtu: nat)
    ensures Unsent(parts, |parts|, group, count, size, mtu) == []
  {
  }

  /** One turn of the publishing loop. */
  lemma NextPart(parts: seq<string>, i: nat, group: seq<string>, count: nat, size: nat, mtu: nat)
    requires i < |parts|
    ensures var p, next := parts[i], count + |parts[i]| + 1;
      Unsent(parts, i, group, count, size, mtu) ==
      if |Text(group, ',')| + |p| + 1 < mtu && next <= size then Unsent(parts, i + 1, group + [p], next, size, mtu)
      else [Text(group, ',')] + Unsent(parts, i + 1, [p], next, size, mtu)
  {
    hide Text;
    var p, next := parts[i], count + |parts[i]| + 1;
    assert parts[i..][0] == p && parts[i..][1..] == parts[i + 1..];
    var rest := Groups(parts[i + 1..], [p], next, size, mtu);
    assert Groups(parts[i..], group, count, size, mtu) ==
      if |Text(group, ',')| + |p| + 1 < mtu && next <= size then Groups(parts[i + 1..], group + [p], next, size, mtu)
      else [group] + rest;
    hide Groups;
    assert ([group] + rest)[1..] == rest;
  }

  lemma PartText(group: seq<string>, p: string)
    ensures Text(group + [p], ',') == Text(group, ',') + (p + [',']) && Text([p], ',') == p + [',']
  {
    TextOfFirst(p, [], ',');
    assert [p] + [] == [p] && Text([], ',') == [] && p + [','] + [] == p + [','];
    hide Text;
    TextAppend(group, [p], ',');
  }

  // What is sent.

  /** All parts but the last are sent, in order and undivided; the last one never is. */
  lemma {:induction false} GroupsAreTheParts(body: seq<string>, last: string, group: seq<string>, count: nat,
                                             size: nat, mtu: nat)
    requires count + |Text(body, ',')| <= size < count + |Text(body, ',')| + |last| + 1
    ensures Flat(Groups(body + [last], group, count, size, mtu)) == group + body
    decreases |body|
  {
    var parts := body + [last];
    if body == [] {
      assert parts == [last] && [last][1..] == [];
      assert Groups(parts, group, count, size, mtu) == [group] + [];
      assert Flat([group]) == group + Flat([]);
    } else {
      var p, more := body[0], body[1..];
      assert parts[0] == p && parts[1..] == more + [last] && body == [p] + more;
      var next := count + |p| + 1;
      hide Text, Flat;
      TextOfFirst(p, more, ',');
      if |Text(group, ',')| + |p| + 1 < mtu && next <= size {
        GroupsAreTheParts(more, last, group + [p], next, size, mtu);
        Assoc(group, [p], more);
      } else {
        GroupsAreTheParts(more, last, [p], next, size, mtu);
        FlatFirst(group, Groups(more + [last], [p], next, size, mtu));
      }
    }
  }

  lemma FlatFirst(group: seq<string>, groups: seq<seq<string>>)
    ensures Flat([group] + groups) == group + Flat(groups)
  {
    assert ([group] + groups)[1..] == groups;
  }

  /** Fragments stay below the MTU when every point with its comma does. */
  lemma {:induction false} GroupsAreSmall(parts: seq<string>, group: seq<string>, count: nat, size: nat, mtu: nat)
    requires |Text(group, ',')| < mtu && forall p | p in parts :: |p| + 1 < mtu
    ensures forall g | g in Groups(parts, group, count, size, mtu) :: |Text(g, ',')| < mtu
    decreases |parts|
  {
    if parts != [] {
      var p, more := parts[0], parts[1..];
      var next := count + |p| + 1;
      assert p in parts && forall q | q in more :: q in parts;
      TextOfFirst(p, [], ',');
      assert [p] + [] == [p] && Text([], ',') == [];
      TextAppend(group, [p], ',');
      hide Text;
      if |Text(group, ',')| + |p| + 1 < mtu && next <= size {
        GroupsAreSmall(more, group + [p], next, size, mtu);
      } else {
        GroupsAreSmall(more, [p], next, size, mtu);
      }
    }
  }

  lemma {:induction false} ConcatOfTexts(groups: seq<seq<string>>)
    ensures Concat(Texts(groups)) == Text(Flat(groups), ',')
    decreases |groups|
  {
    if groups != [] {
      ConcatOfTexts(groups[1..]);
      TextAppend(groups[0], Flat(groups[1..]), ',');
      assert Texts(groups)[1..] == Texts(groups[1..]);
    }
  }

  lemma {:induction false} TextsElements(groups: seq<seq<string>>)
    ensures |Texts(groups)| == |groups| && forall i | 0 <= i < |groups| :: Texts(groups)[i] == Text(groups[i], ',')
    decreases |groups|
  {
    hide Text;
    if groups != [] {
      TextsElements(groups[1..]);
    }
  }

  /** The last part and the ones before it. */
  function Last(msg: string): string {
    var parts := Split(msg, ',');
    parts[|parts| - 1]
  }

  function Body(msg: string): seq<string> {
    var parts := Split(msg, ',');
    parts[..|parts| - 1]
  }

  lemma BodyAndLast(msg: string)
    ensures Split(msg, ',') == Body(msg) + [Last(msg)] && msg == Text(Body(msg), ',') + Last(msg)
    ensures Clean(Body(msg), ',') && ',' !in Last(msg)
  {
    var parts, body, last := Split(msg, ','), Body(msg), Last(msg);
    assert parts == body + [last];
    TextOfSplit(msg, ',');
    SplitIsClean(msg, ',');
    hide Split;
    TextAppend(body, [last], ',');
    TextOfFirst(last, [], ',');
    assert [last] + [] == [last] && Text([], ',') == [];
    assert msg + [','] == Text(body, ',') + last + [','];
    assert msg == (msg + [','])[..|msg|];
  }

  lemma SentGroups(msg: string, mtu: nat)
    requires |msg| > mtu
    ensures Flat(Groups(Split(msg, ','), [], 0, |msg|, mtu)) == Body(msg)
  {
    BodyAndLast(msg);
    hide Split, Text, Body, Last;
    GroupsAreTheParts(Body(msg), Last(msg), [], 0, |msg|, mtu);
    assert [] + Body(msg) == Body(msg);
  }

  /** The fragments put together are the message, if and only if it is not cut or ends with a comma. */
  lemma FragmentsAreTheMessage(msg: string, mtu: nat)
    ensures |msg| > mtu ==> Concat(Published(msg, mtu)) == Text(Body(msg), ',')
    ensures Concat(Published(msg, mtu)) == msg <==> |msg| <= mtu || (msg != "" && msg[|msg| - 1] == ',')
  {
    BodyAndLast(msg);
    hide Split, Body, Last, Groups, Text;
    if |msg| > mtu {
      SentGroups(msg, mtu);
      ConcatOfTexts(Groups(Split(msg, ','), [], 0, |msg|, mtu));
      EndsWithDelimiter(Body(msg), Last(msg), msg);
    } else {
      assert Concat([msg]) == msg + Concat([]);
    }
  }

  lemma EndsWithDelimiter(body: seq<string>, last: string, msg: string)
    requires msg == Text(body, ',') + last && ',' !in last && msg != ""
    ensures last == "" <==> msg[|msg| - 1] == ','
  {
    if last == "" {
      assert body != [];
      var front, p := body[..|body| - 1], body[|body| - 1];
      assert body == front + [p];
      TextAppend(front, [p], ',');
      TextOfFirst(p, [], ',');
      assert [p] + [] == [p] && Text([], ',') == [];
    } else {
      assert msg[|msg| - 1] == last[|last| - 1];
    }
  }

  /** Every fragment is below the MTU when every point of the message, with its comma, is. */
  lemma FragmentsAreSmall(msg: string, mtu: nat)
    requires |msg| > mtu && forall p | p in Split(msg, ',') :: |p| + 1 < mtu
    ensures forall m | m in Published(msg, mtu) :: |m| < mtu
  {
    var groups := Groups(Split(msg, ','), [], 0, |msg|, mtu);
    GroupsAreSmall(Split(msg, ','), [], 0, |msg|, mtu);
    TextsElements(groups);
  }

  /** Every group but the last was closed because the first part of the next one did not fit. */
  predicate Full(groups: seq<seq<string>>, mtu: nat) {
    forall i | 0 < i < |groups| ::
      groups[i] != [] && |Text(groups[i - 1], ',')| + |groups[i][0]| + 1 >= mtu
  }

  lemma FullFirst(group: seq<string>, groups: seq<seq<string>>, mtu: nat)
    requires Full(groups, mtu)
    requires groups != [] ==> groups[0] != [] && |Text(group, ',')| + |groups[0][0]| + 1 >= mtu
    ensures Full([group] + groups, mtu)
  {
    hide Text;
    var all := [group] + groups;
    forall i | 0 < i < |all|
      ensures all[i] != [] && |Text(all[i - 1], ',')| + |all[i][0]| + 1 >= mtu
    {
      assert all[i] == groups[i - 1];
      if i > 1 {
        assert all[i - 1] == groups[i - 2];
      }
    }
  }

  lemma {:induction false} GroupsAreFull(body: seq<string>, last: string, group: seq<string>, count: nat,
                                         size: nat, mtu: nat)
    requires count + |Text(body, ',')| <= size < count + |Text(body, ',')| + |last| + 1
    ensures var groups := Groups(body + [last], group, count, size, mtu);
      && groups != [] && group <= groups[0] && Full(groups, mtu)
      && (group == [] && body != [] ==> (groups[0] == [] <==> |body[0]| + 1 >= mtu))
    decreases |body|
  {
    var parts := body + [last];
    assert Text([], ',') == "";
    if body == [] {
      assert parts == [last] && [last][1..] == [];
      assert Groups(parts, group, count, size, mtu) == [group] + [];
    } else {
      var p, more := body[0], body[1..];
      assert parts[0] == p && parts[1..] == more + [last] && body == [p] + more;
      var next := count + |p| + 1;
      hide Text;
      TextOfFirst(p, more, ',');
      if |Text(group, ',')| + |p| + 1 < mtu && next <= size {
        GroupsAreFull(more, last, group + [p], next, size, mtu);
      } else {
        GroupsAreFull(more, last, [p], next, size, mtu);
        FullFirst(group, Groups(more + [last], [p], next, size, mtu), mtu);
      }
    }
  }

  /** The first comma of a text is behind its first part. */
  lemma FirstPart(parts: seq<string>)
    requires parts != [] && Clean(parts, ',')
    ensures Text(parts, ',') != "" && Find(Text(parts, ','), ',') == |parts[0]|
  {
    hide Text;
    TextOfFirst(parts[0], parts[1..], ',');
    assert parts == [parts[0]] + parts[1..];
    FindAfter(parts[0], Text(parts[1..], ','), ',');
  }

  lemma CleanGroup(groups: seq<seq<string>>, i: nat)
    requires Clean(Flat(groups), ',') && i < |groups|
    ensures Clean(groups[i], ',')
  {
    FlatMembers(groups);
    hide Flat;
  }

  /**
   No message is cut more often than it must be: each fragment was sent because the first point of the next one,
   which none of them lacks, did not fit any more. Only the first fragment can be empty, and is if the first point
   alone does not fit.
   */
  lemma FragmentsAreFull(msg: string, mtu: nat)
    requires |msg| > mtu
    ensures var sent := Published(msg, mtu);
      && sent != []
      && (forall i | 0 < i < |sent| ::
            sent[i] != "" && |sent[i - 1]| + Find(sent[i], ',') + 1 >= mtu)
      && (',' in msg ==> (sent[0] == "" <==> Find(msg, ',') + 1 >= mtu))
  {
    var groups := Groups(Split(msg, ','), [], 0, |msg|, mtu);
    var body, last := Body(msg), Last(msg);
    BodyAndLast(msg);
    SentGroups(msg, mtu);
    hide Groups, Split, Body, Last, Flat, Text, Clean;
    GroupsAreFull(body, last, [], 0, |msg|, mtu);
    TextsElements(groups);
    assert Text([], ',') == "" by {
      NoText();
    }
    forall i | 0 <= i < |groups| && groups[i] != []
      ensures Text(groups[i], ',') != "" && Find(Text(groups[i], ','), ',') == |groups[i][0]|
    {
      CleanGroup(groups, i);
      FirstPart(groups[i]);
    }
    if ',' in msg {
      FirstOfMessage(msg);
    }
  }

  lemma FirstOfMessage(msg: string)
    requires ',' in msg
    ensures Body(msg) != [] && Find(msg, ',') == |Body(msg)[0]|
  {
  }

  // What the subscriber sees.

  predicate AllClean(groups: seq<seq<string>>) {
    forall g | g in groups :: Clean(g, ',')
  }

  lemma {:induction false} HandleGroups(store: Store, groups: seq<seq<string>>, number: string -> Option<real>)
    requires AllClean(groups)
    ensures HandleAll(store, Texts(groups), number) == HandlePoints(store, Flat(groups), number)
    decreases |groups|
  {
    hide Text, Handle, HandlePoints, Clean;
    if groups == [] {
      NoPoints(store, number);
    } else {
      assert groups[0] in groups && forall g | g in groups[1..] :: g in groups;
      HandleText(store, groups[0], number);
      HandlePointsAppend(store, groups[0], Flat(groups[1..]), number);
      HandleGroups(HandlePoints(store, groups[0], number), groups[1..], number);
      assert Texts(groups)[1..] == Texts(groups[1..]);
    }
  }

  lemma NoPoints(store: Store, number: string -> Option<real>)
    ensures HandlePoints(store, [], number) == store
  {
  }

  lemma {:induction false} FlatMembers(groups: seq<seq<string>>)
    ensures forall g, p | g in groups && p in g :: p in Flat(groups)
    decreases |groups|
  {
    if groups != [] {
      FlatMembers(groups[1..]);
      assert groups == [groups[0]] + groups[1..];
    }
  }

  /** Handling the fragments of a long message in order is handling all its points but the last. */
  lemma FragmentsHandled(store: Store, msg: string, mtu: nat, number: string -> Option<real>)
    requires |msg| > mtu
    ensures HandleAll(store, Published(msg, mtu), number) == HandlePoints(store, Body(msg), number)
  {
    var groups := Groups(Split(msg, ','), [], 0, |msg|, mtu);
    SentGroups(msg, mtu);
    BodyAndLast(msg);
    FlatMembers(groups);
    hide Groups, Split, Body, Last, HandlePoints, HandleAll;
    HandleGroups(store, groups, number);
  }

  /** The value that the last point of the list that assigns to a name gives it. */
  function Latest(points: seq<string>, name: string, number: string -> Option<real>): Option<Value>
    decreases |points|
  {
    if points == [] then None
    else
      var later := Latest(points[1..], name, number);
      var a := Assignment(points[0], number);
      if later.Some? then later else if a.Some? && a.value.0 == name then Some(a.value.1) else None
  }

  /** The value a name has after the points: the latest one given, or else the one it had all along. */
  function ValueAfter(store: Store, points: seq<string>, name: string, number: string -> Option<real>): Value
    requires name in store
  {
    match Latest(points, name, number)
    case Some(v) => v
    case None => store[name]
  }

  /** Handling points keeps the names and leaves each with its latest value. */
  lemma {:induction false} HandledValue(store: Store, points: seq<string>, number: string -> Option<real>, name: string)
    ensures name in HandlePoints(store, points, number) <==> name in store
    ensures name in store ==> HandlePoints(store, points, number)[name] == ValueAfter(store, points, name, number)
    decreases |points|
  {
    hide Assignment;
    if points != [] {
      HandledValue(HandlePoint(store, points[0], number), points[1..], number, name);
    }
  }

  /**
   The last part of the message changes nothing: it is no readable point, or of an unknown name, or
   repeats the value that the points before it leave.
   */
  predicate LastIsIdle(store: Store, msg: string, number: string -> Option<real>) {
    match Assignment(Last(msg), number)
    case None => true
    case Some((name, value)) =>
      name in store ==> value == ValueAfter(store, Body(msg), name, number)
  }

  lemma IdlePoint(store: Store, msg: string, number: string -> Option<real>)
    ensures var before := HandlePoints(store, Body(msg), number);
      HandlePoint(before, Last(msg), number) == before <==> LastIsIdle(store, msg, number)
  {
    hide Assignment, Body, Last, HandlePoints, Latest;
    var a := Assignment(Last(msg), number);
    if a.Some? {
      var (name, value) := a.value;
      HandledValue(store, Body(msg), number, name);
      var before := HandlePoints(store, Body(msg), number);
      if name in before {
        assert before[name := value][name] == value;
        assert before[name] == value ==> before[name := value] == before;
      }
    }
  }

  lemma MessageHandled(store: Store, msg: string, number: string -> Option<real>)
    ensures Handle(store, msg, number) == HandlePoint(HandlePoints(store, Body(msg), number), Last(msg), number)
  {
    BodyAndLast(msg);
    HandlePointsAppend(store, Body(msg), [Last(msg)], number);
    hide Assignment, Split, Body, Last;
    assert [Last(msg)][1..] == [];
  }

  /**
   Transparency, and exactly where it fails: handling what was published leaves the same values as
   handling the message, unless the message is cut and its last point would have changed something.
   */
  lemma FragmentationIsTransparent(store: Store, msg: string, mtu: nat, number: string -> Option<real>)
    ensures HandleAll(store, Published(msg, mtu), number) == Handle(store, msg, number)
       <==> |msg| <= mtu || LastIsIdle(store, msg, number)
  {
    hide Groups, Split, HandlePoints, LastIsIdle, HandlePoint, Body, Last;
    if |msg| > mtu {
      FragmentsHandled(store, msg, mtu, number);
      MessageHandled(store, msg, number);
      IdlePoint(store, msg, number);
    }
  }

  /** So a message that ends with a comma is always handled as a whole, whatever it is cut into. */
  lemma TrailingCommaIsTransparent(store: Store, msg: string, mtu: nat, number: string -> Option<real>)
    requires msg != "" && msg[|msg| - 1] == ','
    ensures HandleAll(store, Published(msg, mtu), number) == Handle(store, msg, number)
  {
    FragmentationIsTransparent(store, msg, mtu, number);
    BodyAndLast(msg);
    EndsWithDelimiter(Body(msg), Last(msg), msg);
    hide Groups, Body, Last, HandlePoints, Text;
    assert Split("", ':') == [""];
  }

  /** And a lost last point is one that the subscriber never learns of. */
  lemma LastPointIsLost(store: Store, msg: string, mtu: nat, number: string -> Option<real>)
    requires |msg| > mtu && !LastIsIdle(store, msg, number)
    ensures var (name, value) := Assignment(Last(msg), number).value;
      var full, seen := Handle(store, msg, number), HandleAll(store, Published(msg, mtu), number);
      name in full && full[name] == value && name in seen && seen[name] != value
  {
    var (name, value) := Assignment(Last(msg), number).value;
    FragmentsHandled(store, msg, mtu, number);
    MessageHandled(store, msg, number);
    HandledValue(store, Body(msg), number, name);
    hide Assignment, Split, Body, Last, Published, HandleAll, HandlePoints, Latest;
  }
}
