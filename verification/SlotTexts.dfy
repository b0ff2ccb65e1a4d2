/** The text of a shared-memory slot, and the answers the provider builds from the slots it scans. */
module SlotTexts {
  import opened PointMessages
  import opened Sequences
  import opened SolverProtocol
  import opened SolverRuns
  import opened Wrappers

  const DEFAULT_FIELD := "processModelIO"

  datatype Dto = Dto(tag: string, field: string, kind: string, data: string)

  /** A text before and after its first delimiter, if it has one. */
  function Cut(s: string, c: char): Option<(string, string)> {
    var i := Find(s, c);
    if i == |s| then None else Some((s[..i], s[i + 1..]))
  }

  lemma CutAt(head: string, rest: string, c: char)
    requires c !in head
    ensures Cut(head + [c] + rest, c) == Some((head, rest))
  {
    var s := head + [c] + rest;
    FindAfter(head, rest, c);
    assert s[..|head|] == head && s[|head| + 1..] == rest;
  }

  lemma CutJoins(s: string, c: char)
    ensures Cut(s, c).Some? ==> s == Cut(s, c).value.0 + [c] + Cut(s, c).value.1
  {
  }

  /** The tag and the field of a name. */
  function TagAndField(name: string): (string, string) {
    match Cut(name, '.')
    case None => (name, DEFAULT_FIELD)
    case Some(parts) => parts
  }

  /** What a slot text means, if it has its two colons; otherwise the provider exits. */
  function Parse(text: string): Option<Dto> {
    match Cut(text, ':')
    case None => None
    case Some((head, rest)) =>
      match Cut(rest, ':')
      case None => None
      case Some((kind, data)) => Some(Dto(TagAndField(head).0, TagAndField(head).1, kind, data))
  }

  /** The name under which readers know the slot. */
  function NameOf(d: Dto): string {
    if d.field == DEFAULT_FIELD then d.tag else d.tag + "." + d.field
  }

  /** The Dto constructor: it erases what it has taken from the text. */
  method ReadDto(text: string) returns (r: Option<Dto>)
    ensures r == Parse(text)
  {
    var dto := text;
    var field := DEFAULT_FIELD;
    var pos := Find(dto, ':');
    if pos == |dto| {
      return None;
    }
    var tag := dto[..pos];
    dto := dto[pos + 1..];
    pos := Find(tag, '.');
    if pos != |tag| {
      field := tag[pos + 1..];
      tag := tag[..pos];
    }
    pos := Find(dto, ':');
    if pos == |dto| {
      return None;
    }
    var kind := dto[..pos];
    dto := dto[pos + 1..];
    r := Some(Dto(tag, field, kind, dto));
  }

  /** The solver's format: name, type and value, separated by colons. */
  function Format(name: string, kind: string, data: string): string {
    name + [':'] + (kind + [':'] + data)
  }

  /** A name without a colon whose field, if it has one, is not spelled out as the default. */
  predicate Nameable(name: string) {
    ':' !in name && !(Cut(name, '.').Some? && Cut(name, '.').value.1 == DEFAULT_FIELD)
  }

  /**
   What the solver publishes can always be parsed, and is read with the name, the type and the value it
   was published with, if and only if the name is a readable one.
   */
  lemma NameSurvives(name: string, kind: string, data: string)
    requires ':' !in kind
    ensures Parse(Format(name, kind, data)).Some?
    ensures var d := Parse(Format(name, kind, data)).value;
      NameOf(d) == name && d.kind == kind && d.data == data <==> Nameable(name)
  {
    if ':' in name {
      ColonCuts(name, kind, data);
    } else {
      hide Cut, DEFAULT_FIELD;
      CutAt(name, kind + [':'] + data, ':');
      CutAt(kind, data, ':');
      CutJoins(name, '.');
    }
  }

  /** A name with a colon is read as what stands before it, which has no colon. */
  lemma ColonCuts(name: string, kind: string, data: string)
    requires ':' in name
    ensures var d := Parse(Format(name, kind, data)); d.Some? && NameOf(d.value) != name
  {
    var i := Find(name, ':');
    var head, tail := name[..i], name[i + 1..];
    var rest := tail + [':'] + (kind + [':'] + data);
    assert name == head + [':'] + tail;
    assert Format(name, kind, data) == head + [':'] + rest;
    CutAt(head, rest, ':');
    assert ':' in rest;
    CutJoins(head, '.');
    hide DEFAULT_FIELD;
  }

  // Answers. show formats a value according to its type.

  /** The slots as the protocol's readers see them. */
  function SlotsOf(texts: seq<string>, show: (string, string) -> string): Option<Snapshot>
    decreases |texts|
  {
    if texts == [] then Some([])
    else match (Parse(texts[0]), SlotsOf(texts[1..], show)) {
      case (Some(d), Some(more)) => Some([Slot(NameOf(d), show(d.kind, d.data))] + more)
      case _ => None
    }
  }

  /** The slots before the first malformed one. */
  function Readable(texts: seq<string>, show: (string, string) -> string): Snapshot
    decreases |texts|
  {
    if texts == [] then []
    else match Parse(texts[0])
      case Some(d) => [Slot(NameOf(d), show(d.kind, d.data))] + Readable(texts[1..], show)
      case None => []
  }

  lemma {:induction false} ReadableSlots(texts: seq<string>, show: (string, string) -> string)
    ensures |Readable(texts, show)| <= |texts|
    ensures SlotsOf(texts, show) == if |Readable(texts, show)| == |texts| then Some(Readable(texts, show)) else None
    decreases |texts|
  {
    hide Parse;
    if texts != [] {
      ReadableSlots(texts[1..], show);
    }
  }

  /**
   The provider looks the tag up in the slots before the first malformed one, where it exits; only if
   there is none and no slot is malformed does it answer that there is no such tag.
   */
  function ReadAnswer(tag: string, texts: seq<string>, show: (string, string) -> string): Option<string> {
    match Lookup(tag, Readable(texts, show))
    case Some(value) => Some("ACK=" + value)
    case None => if SlotsOf(texts, show).Some? then Some("ERR=Tag not found") else None
  }

  lemma NextSlot(tag: string, texts: seq<string>, i: nat, show: (string, string) -> string)
    requires i < |texts|
    ensures Parse(texts[i]) == None ==> ReadAnswer(tag, texts[i..], show) == None
    ensures Parse(texts[i]).Some? ==>
      var d := Parse(texts[i]).value;
      ReadAnswer(tag, texts[i..], show) ==
        if NameOf(d) == tag then Some("ACK=" + show(d.kind, d.data)) else ReadAnswer(tag, texts[i + 1..], show)
  {
    hide Parse;
    assert texts[i..][0] == texts[i] && texts[i..][1..] == texts[i + 1..];
    if Parse(texts[i]).Some? {
      var d := Parse(texts[i]).value;
      var more := Readable(texts[i + 1..], show);
      assert ([Slot(NameOf(d), show(d.kind, d.data))] + more)[1..] == more;
    }
  }

  /** read: scans until the tag is found or a slot is malformed. */
  method Read(texts: seq<string>, tag: string, show: (string, string) -> string) returns (answer: Option<string>)
    ensures answer == ReadAnswer(tag, texts, show)
  {
    hide Parse;
    var i := 0;
    assert texts[0..] == texts;
    while i < |texts|
      invariant i <= |texts| && ReadAnswer(tag, texts, show) == ReadAnswer(tag, texts[i..], show)
    {
      NextSlot(tag, texts, i, show);
      var d := ReadDto(texts[i]);
      if d == None {
        return None;
      }
      if NameOf(d.value) == tag {
        return Some("ACK=" + show(d.value.kind, d.value.data));
      }
      i := i + 1;
    }
    answer := Some("ERR=Tag not found");
  }

  lemma FirstSlot(slot: Slot, texts: seq<string>, i: nat, show: (string, string) -> string)
    requires i < |texts| && Parse(texts[i]).Some?
    requires slot == Slot(NameOf(Parse(texts[i]).value), show(Parse(texts[i]).value.kind, Parse(texts[i]).value.data))
    ensures SlotsOf(texts[i..], show).Some? <==> SlotsOf(texts[i + 1..], show).Some?
    ensures SlotsOf(texts[i..], show).Some? ==>
      var all, more := SlotsOf(texts[i..], show).value, SlotsOf(texts[i + 1..], show).value;
      all != [] && all[0] == slot && all[1..] == more
  {
    hide Parse;
    assert texts[i..][0] == texts[i] && texts[i..][1..] == texts[i + 1..];
    if SlotsOf(texts[i + 1..], show).Some? {
      assert ([slot] + SlotsOf(texts[i + 1..], show).value)[1..] == SlotsOf(texts[i + 1..], show).value;
    }
  }

  /** All names, each followed by a comma; and all names with their values. */
  function Names(slots: Snapshot): string {
    if slots == [] then "" else slots[0].name + "," + Names(slots[1..])
  }

  function Points(slots: Snapshot): string {
    if slots == [] then "" else slots[0].name + ":" + slots[0].data + "," + Points(slots[1..])
  }

  /** query and the message of publishData: every slot of the snapshot, in order, unless one is malformed. */
  method QueryAndPublish(texts: seq<string>, show: (string, string) -> string) returns (r: Option<(string, string)>)
    ensures r == match SlotsOf(texts, show) {
      case Some(slots) => Some(("ACK=" + Names(slots), Points(slots)))
      case None => None
    }
  {
    hide Parse;
    var query, message := "ACK=", "";
    assert texts[0..] == texts;
    if SlotsOf(texts, show).Some? {
      assert "" + Points(SlotsOf(texts, show).value) == Points(SlotsOf(texts, show).value);
    }
    for i := 0 to |texts|
      invariant SlotsOf(texts, show).Some? <==> SlotsOf(texts[i..], show).Some?
      invariant SlotsOf(texts, show).Some? ==>
        && "ACK=" + Names(SlotsOf(texts, show).value) == query + Names(SlotsOf(texts[i..], show).value)
        && Points(SlotsOf(texts, show).value) == message + Points(SlotsOf(texts[i..], show).value)
    {
      assert texts[i..][0] == texts[i] && texts[i..][1..] == texts[i + 1..];
      var d := ReadDto(texts[i]);
      if d == None {
        return None;
      }
      var slot := Slot(NameOf(d.value), show(d.value.kind, d.value.data));
      FirstSlot(slot, texts, i, show);
      if SlotsOf(texts, show).Some? {
        ghost var more := SlotsOf(texts[i + 1..], show).value;
        Assoc(query, slot.name + ",", Names(more));
        Assoc(message, slot.name + ":" + slot.data + ",", Points(more));
      }
      query := query + (slot.name + ",");
      message := message + (slot.name + ":" + slot.data + ",");
    }
    assert query + "" == query && message + "" == message;
    r := Some((query, message));
  }

  // What the answers mean to those who get them.

  /** Names and shown values without the delimiters of a message. */
  predicate Unmarked(slots: Snapshot) {
    forall s | s in slots :: ':' !in s.name && ',' !in s.name && ':' !in s.data && ',' !in s.data
  }

  /** The value of a slot, if a subscriber can read it. */
  function SlotValue(data: string, number: string -> Option<real>): Option<Value> {
    if data == "true" then Some(Status(true))
    else if data == "false" then Some(Status(false))
    else match number(data)
      case Some(x) => Some(Number(x))
      case None => None
  }

  /** The value of the last slot of that name that can be read. */
  function LastValue(slots: Snapshot, name: string, number: string -> Option<real>): Option<Value>
    decreases |slots|
  {
    if slots == [] then None
    else
      var later := LastValue(slots[1..], name, number);
      if later.Some? then later else if slots[0].name == name then SlotValue(slots[0].data, number) else None
  }

  function NamesOf(slots: Snapshot): seq<string> {
    if slots == [] then [] else [slots[0].name] + NamesOf(slots[1..])
  }

  /** One point per slot. */
  function PointsOf(slots: Snapshot): (points: seq<string>)
    ensures |points| == |slots|
  {
    if slots == [] then [] else [slots[0].name + ":" + slots[0].data] + PointsOf(slots[1..])
  }

  lemma {:induction false} AnswersAreTexts(slots: Snapshot)
    ensures Names(slots) == Text(NamesOf(slots), ',') && Points(slots) == Text(PointsOf(slots), ',')
    decreases |slots|
  {
    if slots != [] {
      var s := slots[0];
      AnswersAreTexts(slots[1..]);
      TextOfFirst(s.name, NamesOf(slots[1..]), ',');
      TextOfFirst(s.name + ":" + s.data, PointsOf(slots[1..]), ',');
    }
  }

  lemma UnmarkedRest(slots: Snapshot)
    requires Unmarked(slots) && slots != []
    ensures Unmarked(slots[1..]) && slots[0] in slots
  {
    assert forall s | s in slots[1..] :: s in slots;
  }

  lemma {:induction false} AnswersAreClean(slots: Snapshot)
    requires Unmarked(slots)
    ensures Clean(NamesOf(slots), ',') && Clean(PointsOf(slots), ',')
    decreases |slots|
  {
    if slots != [] {
      var s := slots[0];
      UnmarkedRest(slots);
      AnswersAreClean(slots[1..]);
      hide Clean, Unmarked;
      CleanFirst(s.name, NamesOf(slots[1..]), ',');
      CleanFirst(s.name + ":" + s.data, PointsOf(slots[1..]), ',');
    }
  }

  /** The query answer splits at its commas into the names in order, and an empty last part. */
  lemma QueryIsSplit(slots: Snapshot)
    requires Unmarked(slots)
    ensures Split(Names(slots), ',') == NamesOf(slots) + [""]
  {
    AnswersAreTexts(slots);
    AnswersAreClean(slots);
    hide Split;
    SplitOfText(NamesOf(slots), ',');
  }

  lemma SlotIsHandled(store: Store, slot: Slot, number: string -> Option<real>)
    requires ':' !in slot.name && ':' !in slot.data
    ensures var v := SlotValue(slot.data, number);
      HandlePoint(store, slot.name + ":" + slot.data, number)
        == if slot.name in store && v.Some? then store[slot.name := v.value] else store
  {
    PointIsRead(slot.name, slot.data, "", number);
    hide Split, Assignment;
    assert slot.name + ":" + slot.data in {slot.name + ":" + slot.data, slot.name + ":" + (slot.data + ":" + "")};
  }

  lemma {:induction false} PointsAreHandled(store: Store, slots: Snapshot, number: string -> Option<real>, name: string)
    requires Unmarked(slots)
    ensures var after := HandlePoints(store, PointsOf(slots), number);
      && (name in after <==> name in store)
      && (name in store ==>
          after[name] == match LastValue(slots, name, number) { case Some(v) => v case None => store[name] })
    decreases |slots|
  {
    if slots != [] {
      UnmarkedRest(slots);
      SlotIsHandled(store, slots[0], number);
      hide HandlePoint, Unmarked, SlotValue;
      PointsAreHandled(HandlePoint(store, slots[0].name + ":" + slots[0].data, number), slots[1..], number, name);
    }
  }

  /**
   A subscriber that handles the published message has each name it knows at the value of the last slot
   of that name that can be read, and no other names.
   */
  lemma PublishedValuesArrive(store: Store, slots: Snapshot, number: string -> Option<real>, name: string)
    requires Unmarked(slots)
    ensures var after := Handle(store, Points(slots), number);
      && (name in after <==> name in store)
      && (name in store ==>
          after[name] == match LastValue(slots, name, number) { case Some(v) => v case None => store[name] })
  {
    AnswersAreTexts(slots);
    AnswersAreClean(slots);
    hide Handle, HandlePoints, LastValue;
    HandleText(store, PointsOf(slots), number);
    PointsAreHandled(store, slots, number, name);
  }

  /** read answers with the value of the first slot of that name, or that there is none. */
  lemma ReadFindsFirst(tag: string, texts: seq<string>, show: (string, string) -> string, i: nat)
    requires SlotsOf(texts, show).Some? && i <= |SlotsOf(texts, show).value|
    requires forall j | 0 <= j < i :: SlotsOf(texts, show).value[j].name != tag
    ensures var slots := SlotsOf(texts, show).value;
      && (i < |slots| && slots[i].name == tag ==> ReadAnswer(tag, texts, show) == Some("ACK=" + slots[i].data))
      && (i == |slots| ==> ReadAnswer(tag, texts, show) == Some("ERR=Tag not found"))
  {
    ReadableSlots(texts, show);
    FirstOfName(tag, SlotsOf(texts, show).value, i);
  }

  lemma {:induction false} FirstOfName(tag: string, slots: Snapshot, i: nat)
    requires i <= |slots| && forall j | 0 <= j < i :: slots[j].name != tag
    ensures i < |slots| && slots[i].name == tag ==> Lookup(tag, slots) == Some(slots[i].data)
    ensures i == |slots| ==> Lookup(tag, slots) == None
    decreases i
  {
    if i > 0 {
      FirstOfName(tag, slots[1..], i - 1);
    }
  }

  /** One point as the solver publishes it. */
  datatype Record = Record(name: string, kind: string, data: string)

  function Formatted(records: seq<Record>): (texts: seq<string>)
    ensures |texts| == |records|
  {
    if records == [] then []
    else [Format(records[0].name, records[0].kind, records[0].data)] + Formatted(records[1..])
  }

  lemma SlotOfRecord(r: Record, show: (string, string) -> string)
    requires Nameable(r.name) && ':' !in r.kind
    ensures var d := Parse(Format(r.name, r.kind, r.data));
      d.Some? && Slot(NameOf(d.value), show(d.value.kind, d.value.data)) == Slot(r.name, show(r.kind, r.data))
  {
    hide Nameable, Parse, Format, NameOf;
    NameSurvives(r.name, r.kind, r.data);
  }

  predicate AllNameable(records: seq<Record>) {
    forall i | 0 <= i < |records| :: Nameable(records[i].name) && ':' !in records[i].kind
  }

  /** What the solver publishes under readable names is what the provider's readers find, slot by slot. */
  lemma {:induction false} PublishedSlots(records: seq<Record>, show: (string, string) -> string)
    requires AllNameable(records)
    ensures SlotsOf(Formatted(records), show).Some?
    ensures var slots := SlotsOf(Formatted(records), show).value;
      |slots| == |records| && forall i | 0 <= i < |records| ::
        slots[i] == Slot(records[i].name, show(records[i].kind, records[i].data))
    decreases |records|
  {
    hide Nameable, Parse, Format, NameOf;
    if records != [] {
      SlotOfRecord(records[0], show);
      PublishedSlots(records[1..], show);
      assert Formatted(records)[1..] == Formatted(records[1..]);
    }
  }

  /** A name without a field has the default one, and may spell it out. */
  lemma DefaultField(tag: string, field: string, kind: string, data: string)
    requires '.' !in tag && ':' !in tag && ':' !in kind && field == "processModelIO"
    ensures Parse(Format(tag, kind, data)) == Some(Dto(tag, field, kind, data))
    ensures Parse(Format(tag + ['.'] + field, kind, data)) == Some(Dto(tag, field, kind, data))
    ensures NameOf(Dto(tag, field, kind, data)) == tag
  {
    assert field == DEFAULT_FIELD && ':' !in field;
    NotThere(tag, '.');
    hide Cut, DEFAULT_FIELD;
    CutAt(kind, data, ':');
    CutAt(tag, kind + [':'] + data, ':');
    CutAt(tag + ['.'] + field, kind + [':'] + data, ':');
    CutAt(tag, field, '.');
  }

  lemma NotThere(s: string, c: char)
    requires c !in s
    ensures Cut(s, c) == None
  {
  }
}
