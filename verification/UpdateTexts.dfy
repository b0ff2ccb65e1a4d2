/** The text of an update record: what the provider's write puts into the queue and what the solver takes out of it. */
module UpdateTexts {
  import opened PointMessages
  import opened SlotTexts
  import opened Wrappers

  /** A tag and the text of its value. */
  type Pair = (string, string)

  /** The record for a tag: truth values are written as digits, anything else is taken for a number. */
  function RecordOf(tag: string, value: string): string {
    if value == "true" then Format(tag, "BOOLEAN", "1")
    else if value == "false" then Format(tag, "BOOLEAN", "0")
    else Format(tag, "DOUBLE", value)
  }

  /** strtok: the text up to the next colon and what is left after it, skipping colons in front. */
  function NextToken(s: string): Option<(string, string)>
    decreases |s|
  {
    if s == "" then None
    else if s[0] == ':' then NextToken(s[1..])
    else
      var i := Find(s, ':');
      Some((s[..i], if i == |s| then "" else s[i + 1..]))
  }

  /** The first and the third token; with fewer the solver is handed a null pointer. */
  function ReadRecord(record: string): Option<Pair> {
    match NextToken(record)
    case None => None
    case Some((tag, rest)) =>
      match NextToken(rest)
      case None => None
      case Some((_, more)) =>
        match NextToken(more)
        case None => None
        case Some((value, _)) => Some((tag, value))
  }

  function Records(pairs: seq<Pair>): (r: seq<string>)
    ensures |r| == |pairs|
    decreases |pairs|
  {
    if pairs == [] then [] else [RecordOf(pairs[0].0, pairs[0].1)] + Records(pairs[1..])
  }

  lemma {:induction false} RecordsAppend(pairs: seq<Pair>, p: Pair)
    ensures Records(pairs + [p]) == Records(pairs) + [RecordOf(p.0, p.1)]
    decreases |pairs|
  {
    hide RecordOf;
    if pairs == [] {
      assert pairs + [p] == [p] && [p][1..] == [];
    } else {
      assert (pairs + [p])[1..] == pairs[1..] + [p];
      RecordsAppend(pairs[1..], p);
    }
  }

  /** The loop of write over the tags of a request, if no put fails. */
  method Write(pairs: seq<Pair>) returns (records: seq<string>)
    ensures records == Records(pairs)
  {
    records := [];
    for i := 0 to |pairs|
      invariant records == Records(pairs[..i])
    {
      var (tag, value) := pairs[i];
      var kind, data := "DOUBLE", value;
      if value == "true" || value == "false" {
        data := if value == "true" then "1" else "0";
        kind := "BOOLEAN";
      }
      RecordsAppend(pairs[..i], pairs[i]);
      assert pairs[..i + 1] == pairs[..i] + [pairs[i]];
      records := records + [Format(tag, kind, data)];
    }
    assert pairs[..|pairs|] == pairs;
  }

  /** applyUpdates: the updates of the records, up to one without three tokens. */
  function Updates(records: seq<string>): Option<seq<Pair>>
    decreases |records|
  {
    if records == [] then Some([])
    else match (ReadRecord(records[0]), Updates(records[1..])) {
      case (Some(p), Some(more)) => Some([p] + more)
      case _ => None
    }
  }

  function Both(a: Option<seq<Pair>>, b: Option<seq<Pair>>): Option<seq<Pair>> {
    if a.Some? && b.Some? then Some(a.value + b.value) else None
  }

  lemma {:induction false} UpdatesAppend(a: seq<string>, b: seq<string>)
    ensures Updates(a + b) == Both(Updates(a), Updates(b))
    decreases |a|
  {
    hide ReadRecord;
    if a == [] {
      assert a + b == b;
      assert Updates(b).Some? ==> [] + Updates(b).value == Updates(b).value;
    } else {
      assert (a + b)[1..] == a[1..] + b;
      UpdatesAppend(a[1..], b);
      if Updates(a).Some? && Updates(b).Some? {
        var first := [ReadRecord(a[0]).value];
        assert first + (Updates(a[1..]).value + Updates(b).value) == first + Updates(a[1..]).value + Updates(b).value;
      }
    }
  }

  lemma UpdatesNext(records: seq<string>, i: nat)
    requires i < |records| && Updates(records[..i]).Some?
    ensures var r := ReadRecord(records[i]);
      if r.Some? then Updates(records[..i + 1]) == Some(Updates(records[..i]).value + [r.value])
      else Updates(records) == None
  {
    hide ReadRecord;
    var x := [records[i]];
    assert x[1..] == [] && records[..i + 1] == records[..i] + x && records == records[..i + 1] + records[i + 1..];
    assert Updates([]) == Some([]);
    UpdatesAppend(records[..i], x);
    UpdatesAppend(records[..i + 1], records[i + 1..]);
    if ReadRecord(records[i]).Some? {
      assert [ReadRecord(records[i]).value] + [] == [ReadRecord(records[i]).value];
    }
  }

  /** The loop of applyUpdates. */
  method ApplyUpdates(records: seq<string>) returns (r: Option<seq<Pair>>)
    ensures r == Updates(records)
  {
    var updates: seq<Pair> := [];
    for i := 0 to |records|
      invariant Updates(records[..i]) == Some(updates)
    {
      UpdatesNext(records, i);
      var tag := NextToken(records[i]);
      if tag == None {
        return None;
      }
      var kind := NextToken(tag.value.1);
      if kind == None {
        return None;
      }
      var value := NextToken(kind.value.1);
      if value == None {
        return None;
      }
      updates := updates + [(tag.value.0, value.value.0)];
    }
    assert records[..|records|] == records;
    r := Some(updates);
  }

  lemma TokenBefore(p: string, rest: string)
    requires p != "" && ':' !in p
    ensures NextToken(p + [':'] + rest) == Some((p, rest)) && NextToken(p) == Some((p, ""))
  {
    FindAfter(p, rest, ':');
    var s := p + [':'] + rest;
    assert s[..|p|] == p && s[|p| + 1..] == rest && s[0] == p[0] && p[..|p|] == p;
    NoColon(p);
  }

  lemma NoColon(p: string)
    requires ':' !in p
    ensures Find(p, ':') == |p|
  {
  }

  /** A token has no colon, is not empty and is no longer than the text it comes from. */
  lemma {:induction false} TokenIsClean(s: string)
    ensures NextToken(s).Some? ==> NextToken(s).value.0 != "" && ':' !in NextToken(s).value.0
    decreases |s|
  {
    if s != "" && s[0] == ':' {
      TokenIsClean(s[1..]);
    }
  }

  /** A record with a clean tag is read as that tag and the first token of the value written. */
  lemma RecordTokens(tag: string, kind: string, data: string)
    requires tag != "" && ':' !in tag && kind != "" && ':' !in kind
    ensures ReadRecord(Format(tag, kind, data)) ==
      if NextToken(data).Some? then Some((tag, NextToken(data).value.0)) else None
  {
    TokenBefore(tag, kind + [':'] + data);
    TokenBefore(kind, data);
    assert Format(tag, kind, data) == tag + [':'] + (kind + [':'] + data);
    hide NextToken;
  }

  /**
   The solver updates the tag that was written with the value that was written, truth values as digits, if and
   only if the tag and the value are not empty and have no colon.
   */
  lemma UpdateSurvives(tag: string, value: string)
    ensures ReadRecord(RecordOf(tag, value)) ==
          Some((tag, if value == "true" then "1" else if value == "false" then "0" else value))
      <==> tag != "" && ':' !in tag && value != "" && ':' !in value
  {
    var kind, data := if value == "true" || value == "false" then "BOOLEAN" else "DOUBLE",
      if value == "true" then "1" else if value == "false" then "0" else value;
    assert RecordOf(tag, value) == Format(tag, kind, data) && kind != "" && ':' !in kind;
    assert data != "" && ':' !in data <==> value != "" && ':' !in value;
    hide RecordOf, ReadRecord, Format, NextToken;
    ReadIsClean(Format(tag, kind, data));
    if tag != "" && ':' !in tag && data != "" && ':' !in data {
      RecordTokens(tag, kind, data);
      TokenBefore(data, "");
    }
  }

  lemma ReadIsClean(record: string)
    ensures var r := ReadRecord(record);
      r.Some? ==> r.value.0 != "" && ':' !in r.value.0 && r.value.1 != "" && ':' !in r.value.1
  {
    TokenIsClean(record);
    if NextToken(record).Some? {
      var rest := NextToken(record).value.1;
      if NextToken(rest).Some? {
        TokenIsClean(NextToken(rest).value.1);
      }
    }
    hide NextToken;
  }

  /** The pair as the solver gets it. */
  function Digits(p: Pair): Pair {
    (p.0, if p.1 == "true" then "1" else if p.1 == "false" then "0" else p.1)
  }

  /** A whole request: the solver gets every pair, in order, if and only if all tags and values are clean. */
  lemma {:induction false} RequestSurvives(pairs: seq<Pair>)
    ensures Updates(Records(pairs)).Some? && |Updates(Records(pairs)).value| == |pairs|
        && (forall i | 0 <= i < |pairs| :: Updates(Records(pairs)).value[i] == Digits(pairs[i]))
      <==> forall p | p in pairs :: p.0 != "" && ':' !in p.0 && p.1 != "" && ':' !in p.1
    decreases |pairs|
  {
    hide ReadRecord, RecordOf;
    if pairs != [] {
      var first, more := pairs[0], pairs[1..];
      UpdateSurvives(first.0, first.1);
      RequestSurvives(more);
      assert pairs == [first] + more;
      assert Records(pairs)[0] == RecordOf(first.0, first.1) && Records(pairs)[1..] == Records(more);
    }
  }
}
