/**
 Runs of a field device in which internal tags take over their updates: what a line finds stored in
 one scan is what the scans before it have written, so a delayed update happens once.
 */
module InternalTags {
  import opened DelayedLogic
  import opened Wrappers

  /** What a line meets from outside: the value of the external point its tag is mapped to, if it is, and its result. */
  datatype Sample = Sample(point: Option<Value>, result: Option<Value>)

  /**
   What one scan meets: the samples, and the tags that other threads update meanwhile, by the moment:
   before the lines are scanned, after that but before the outputs are sent, between sending and the
   internal tags, and between those and clearing.
   */
  datatype Input = Input(samples: seq<Sample>, pending: map<Tag, Value>, late: map<Tag, Value>, unsent: map<Tag, Value>,
                         lost: map<Tag, Value>)

  /** getDataByTag: the external point, else the internal tag, else the default value of the type asked for. */
  function Stored(internal: map<Tag, Value>, tag: Tag, s: Sample): Value {
    if s.point.Some? then s.point.value
    else if tag in internal then internal[tag]
    else if s.result.Some? && s.result.value.Analog? then Analog(0.0) else Binary(false)
  }

  function Readings(internal: map<Tag, Value>, lines: seq<Line>, samples: seq<Sample>): (r: seq<Reading>)
    requires |samples| == |lines|
    ensures |r| == |lines|
    ensures forall i | 0 <= i < |lines| ::
      r[i] == Reading(Stored(internal, lines[i].lhs, samples[i]), samples[i].result)
    decreases |lines|
  {
    if lines == [] then []
    else
      [Reading(Stored(internal, lines[0].lhs, samples[0]), samples[0].result)]
      + Readings(internal, lines[1..], samples[1..])
  }

  /** updateInternalData: updates of tags that are not internal are left to the output modules. */
  function TakeOver(internal: map<Tag, Value>, updated: map<Tag, Value>): map<Tag, Value> {
    map t | t in internal :: if t in updated then updated[t] else internal[t]
  }

  /** What the output modules are given in scan n. */
  function Sent(lines: seq<Line>, cycle: int, inputs: seq<Input>, scans: seq<Scan>, n: nat): map<Tag, Value>
    requires Fits(lines, scans) && n < |scans| == |inputs|
  {
    AfterScan(lines, cycle, scans, n).updated + inputs[n].late
  }

  /** Scan n reads the internal tags before it, and they take over what was sent and what came right after. */
  predicate Round(lines: seq<Line>, cycle: int, inputs: seq<Input>, scans: seq<Scan>,
                  internals: seq<map<Tag, Value>>, n: nat)
    requires Fits(lines, scans) && n < |scans| == |inputs| && |internals| == |inputs| + 1
  {
    && |inputs[n].samples| == |lines|
    && scans[n] == Scan(inputs[n].pending, Readings(internals[n], lines, inputs[n].samples))
    && internals[n + 1] == TakeOver(internals[n], Sent(lines, cycle, inputs, scans, n) + inputs[n].unsent)
  }

  /** The scans that the inputs lead to, with the internal tags before each of them and after the last. */
  ghost predicate IsRun(lines: seq<Line>, cycle: int, tags: map<Tag, Value>, inputs: seq<Input>,
                        scans: seq<Scan>, internals: seq<map<Tag, Value>>)
  {
    && |scans| == |inputs| && |internals| == |inputs| + 1 && internals[0] == tags && Fits(lines, scans)
    && forall n | 0 <= n < |inputs| :: Round(lines, cycle, inputs, scans, internals, n)
  }

  /** Later scans do not change earlier ones. */
  lemma {:induction false} PrefixAgrees(lines: seq<Line>, cycle: int, scans: seq<Scan>, more: seq<Scan>, n: nat)
    requires Fits(lines, scans) && Fits(lines, scans + more) && n <= |scans|
    ensures Before(lines, cycle, scans + more, n) == Before(lines, cycle, scans, n)
    ensures n < |scans| ==> AfterScan(lines, cycle, scans + more, n) == AfterScan(lines, cycle, scans, n)
    decreases n
  {
    hide ScanLines, Fits;
    if n > 0 {
      PrefixAgrees(lines, cycle, scans, more, n - 1);
    }
    if n < |scans| {
      assert (scans + more)[n] == scans[n];
    }
  }

  lemma NoRun(lines: seq<Line>, cycle: int, tags: map<Tag, Value>)
    ensures IsRun(lines, cycle, tags, [], [], [tags])
  {
  }

  lemma RoundStays(lines: seq<Line>, cycle: int, inputs: seq<Input>, scans: seq<Scan>, internals: seq<map<Tag, Value>>,
                   input: Input, scan: Scan, next: map<Tag, Value>, n: nat)
    requires Fits(lines, scans) && Fits(lines, scans + [scan]) && n < |scans| == |inputs| && |internals| == |inputs| + 1
    requires Round(lines, cycle, inputs, scans, internals, n)
    ensures AfterScan(lines, cycle, scans + [scan], n) == AfterScan(lines, cycle, scans, n)
    ensures Round(lines, cycle, inputs + [input], scans + [scan], internals + [next], n)
  {
    PrefixAgrees(lines, cycle, scans, [scan], n);
    assert (inputs + [input])[n] == inputs[n] && (scans + [scan])[n] == scans[n];
    assert (internals + [next])[n] == internals[n] && (internals + [next])[n + 1] == internals[n + 1];
    hide AfterScan, Readings, TakeOver, Fits;
  }

  /** One more scan of a run. */
  lemma RunExtends(lines: seq<Line>, cycle: int, tags: map<Tag, Value>, inputs: seq<Input>,
                   scans: seq<Scan>, internals: seq<map<Tag, Value>>, input: Input)
    requires IsRun(lines, cycle, tags, inputs, scans, internals) && |input.samples| == |lines|
    ensures var internal := internals[|inputs|];
      var readings := Readings(internal, lines, input.samples);
      var after := ScanLines(State(Before(lines, cycle, scans, |scans|), input.pending), lines, readings, cycle);
      var scans' := scans + [Scan(input.pending, readings)];
      && Fits(lines, scans') && AfterScan(lines, cycle, scans', |scans|) == after
      && (forall n | 0 <= n < |scans| :: AfterScan(lines, cycle, scans', n) == AfterScan(lines, cycle, scans, n))
      && IsRun(lines, cycle, tags, inputs + [input], scans',
               internals + [TakeOver(internal, after.updated + input.late + input.unsent)])
  {
    var internal := internals[|inputs|];
    var readings := Readings(internal, lines, input.samples);
    var after := ScanLines(State(Before(lines, cycle, scans, |scans|), input.pending), lines, readings, cycle);
    var next := TakeOver(internal, after.updated + input.late + input.unsent);
    var scan := Scan(input.pending, readings);
    assert Fits(lines, scans + [scan]);
    PrefixAgrees(lines, cycle, scans, [scan], |scans|);
    assert (scans + [scan])[|scans|] == scan;
    assert AfterScan(lines, cycle, scans + [scan], |scans|) == after;
    hide AfterScan, Before, ScanLines, Readings, TakeOver, Fits;
    assert Round(lines, cycle, inputs + [input], scans + [scan], internals + [next], |scans|);
    hide Round;
    forall n | 0 <= n < |scans|
      ensures AfterScan(lines, cycle, scans + [scan], n) == AfterScan(lines, cycle, scans, n)
      ensures Round(lines, cycle, inputs + [input], scans + [scan], internals + [next], n)
    {
      RoundStays(lines, cycle, inputs, scans, internals, input, scan, next, n);
    }
  }

  // What becomes of the updates of other threads.

  lemma {:induction false} ScanKeepsUpdates(s: State, lines: seq<Line>, readings: seq<Reading>, cycle: int, tag: Tag)
    requires |readings| == |lines|
    ensures var s' := ScanLines(s, lines, readings, cycle);
      && (tag in s.updated ==> tag in s'.updated && s'.updated[tag] == s.updated[tag])
      && ((forall l | l in lines :: l.lhs != tag) ==> (tag in s'.updated <==> tag in s.updated))
    decreases |lines|
  {
    if lines != [] {
      assert lines[0] in lines && forall l | l in lines[1..] :: l in lines;
      ScanKeepsUpdates(ScanLine(s, lines[0], readings[0], cycle), lines[1..], readings[1..], cycle, tag);
    }
  }

  /** What an internal tag with value old_ holds after a scan that sent the update sent, and met unsent after that. */
  function NextValue(old_: Value, sent: Option<Value>, unsent: Option<Value>): Value {
    match (sent, unsent)
    case (_, Some(v)) => v
    case (Some(v), None) => v
    case (None, None) => old_
  }

  /**
   An update by another thread is sent in the scan in which it arrives if it arrives before the outputs
   are, whatever the lines say, and the latest one wins; a tag that no line writes is sent in no other
   case. What arrives between sending and the internal tags is taken over by an internal tag without
   ever being sent, and what arrives after that has no effect at all.
   */
  lemma ArrivalsAreSent(lines: seq<Line>, cycle: int, tags: map<Tag, Value>, inputs: seq<Input>, scans: seq<Scan>,
                        internals: seq<map<Tag, Value>>, n: nat, tag: Tag)
    requires IsRun(lines, cycle, tags, inputs, scans, internals) && n < |inputs|
    ensures var early := inputs[n].pending + inputs[n].late;
      var sent := Sent(lines, cycle, inputs, scans, n);
      && (tag in early ==> tag in sent && sent[tag] == early[tag])
      && ((forall l | l in lines :: l.lhs != tag) ==> (tag in sent <==> tag in early))
      && (tag in internals[n] <==> tag in internals[n + 1])
      && (tag in internals[n] ==>
          internals[n + 1][tag] == NextValue(internals[n][tag], Lookup(sent, tag), Lookup(inputs[n].unsent, tag)))
  {
    assert Round(lines, cycle, inputs, scans, internals, n);
    var readings := scans[n].readings;
    ScanKeepsUpdates(State(Before(lines, cycle, scans, n), inputs[n].pending), lines, readings, cycle, tag);
    hide ScanLines, Readings, Before;
  }

  /**
   In particular, runs do not depend on the updates that are lost, nor on unsent ones of tags that
   are not internal.
   */
  lemma LostUpdates(lines: seq<Line>, cycle: int, tags: map<Tag, Value>, inputs: seq<Input>, others: seq<Input>,
                    scans: seq<Scan>, internals: seq<map<Tag, Value>>)
    requires IsRun(lines, cycle, tags, inputs, scans, internals) && |others| == |inputs|
    requires forall n | 0 <= n < |inputs| ::
      others[n].samples == inputs[n].samples && others[n].pending == inputs[n].pending
    requires forall n | 0 <= n < |inputs| :: others[n].late == inputs[n].late
    requires forall n, t | 0 <= n < |inputs| && t in internals[n] ::
      Lookup(others[n].unsent, t) == Lookup(inputs[n].unsent, t)
    ensures IsRun(lines, cycle, tags, others, scans, internals)
    ensures forall n | 0 <= n < |inputs| :: Sent(lines, cycle, others, scans, n) == Sent(lines, cycle, inputs, scans, n)
  {
    hide Readings, AfterScan, Fits;
    forall n | 0 <= n < |inputs|
      ensures Round(lines, cycle, others, scans, internals, n)
    {
      assert Round(lines, cycle, inputs, scans, internals, n);
      forall t | t in internals[n]
        ensures t in others[n].unsent <==> t in inputs[n].unsent
        ensures t in inputs[n].unsent ==> others[n].unsent[t] == inputs[n].unsent[t]
      {
        assert Lookup(others[n].unsent, t) == Lookup(inputs[n].unsent, t);
      }
    }
  }

  // What a result is compared with.

  /**
   Scan n compares the result of line i with found: a different result is sent at once, or starts the delay if
   none is over, and anything else ends the delay; without a result nothing happens.
   */
  predicate ComparesWith(lines: seq<Line>, cycle: int, inputs: seq<Input>, scans: seq<Scan>, n: nat, i: nat,
                         found: Value)
    requires Fits(lines, scans) && n < |scans| == |inputs| && i < |lines| == |inputs[n].samples|
  {
    var line, result := lines[i], inputs[n].samples[i].result;
    var before := Lookup(Before(lines, cycle, scans, n), line.lhs);
    var sent, after := Lookup(Sent(lines, cycle, inputs, scans, n), line.lhs),
      Lookup(AfterScan(lines, cycle, scans, n).delayed, line.lhs);
    if !line.known || result == None then sent == None && after == before
    else if result == Some(found) then sent == None && after == None
    else if line.delay == 0 || before.Some? then sent == result && after == None
    else sent == None && after == Some(line.delay * cycle)
  }

  /**
   The only line of a tag that nobody else updates, in a scan in which no countdown keeps it from being evaluated:
   its result is compared with the external point of the tag if there is one, else with the internal tag if there
   is one, and else with false or zero.
   */
  lemma ResultIsCompared(lines: seq<Line>, cycle: int, tags: map<Tag, Value>, inputs: seq<Input>, scans: seq<Scan>,
                         internals: seq<map<Tag, Value>>, n: nat, i: nat)
    requires IsRun(lines, cycle, tags, inputs, scans, internals) && n < |inputs| && OnlyLine(lines, i)
    requires lines[i].lhs !in inputs[n].pending && lines[i].lhs !in inputs[n].late
    requires lines[i].lhs in Before(lines, cycle, scans, n) ==>
      Before(lines, cycle, scans, n)[lines[i].lhs] <= cycle
    ensures |inputs[n].samples| == |lines|
    ensures var tag, s := lines[i].lhs, inputs[n].samples[i];
      && (s.point.Some? ==> ComparesWith(lines, cycle, inputs, scans, n, i, s.point.value))
      && (s.point == None && tag in internals[n] ==>
          ComparesWith(lines, cycle, inputs, scans, n, i, internals[n][tag]))
      && (s.point == None && tag !in internals[n] && s.result.Some? && s.result.value.Binary? ==>
          ComparesWith(lines, cycle, inputs, scans, n, i, Binary(false)))
      && (s.point == None && tag !in internals[n] && s.result.Some? && s.result.value.Analog? ==>
          ComparesWith(lines, cycle, inputs, scans, n, i, Analog(0.0)))
  {
    assert Round(lines, cycle, inputs, scans, internals, n);
    hide IsRun, AfterScan, Before, Fits, OnlyLine;
    ScanView(lines, cycle, scans, n, i);
  }

  // An internal tag with one line, nobody else to update it and a constant result.

  /** From scan k on, line i is the only writer of its internal tag and always evaluates to v. */
  ghost predicate Steady(lines: seq<Line>, inputs: seq<Input>, i: nat, k: nat, v: Value) {
    && OnlyLine(lines, i) && lines[i].known
    && forall n | k <= n < |inputs| ::
         |inputs[n].samples| == |lines| && inputs[n].samples[i] == Sample(None, Some(v))
         && lines[i].lhs !in inputs[n].pending && lines[i].lhs !in inputs[n].late && lines[i].lhs !in inputs[n].unsent
  }

  /** What the tag's scan starts from: the countdown and the stored value, n scans after the result first differed. */
  ghost predicate StartsAt(line: Line, cycle: int, n: nat, old_: Value, v: Value, countdown: Option<int>,
                           stored: Value)
  {
    if n == 0 then countdown == None && stored == old_
    else if n <= line.delay then countdown == Some((line.delay - (n - 1)) * cycle) && stored == old_
    else countdown == None && stored == v
  }

  /** One scan of the tag: its update, and what the next one starts from. */
  lemma SteadyStep(line: Line, cycle: int, n: nat, old_: Value, v: Value, countdown: Option<int>, stored: Value)
    requires cycle > 0 && line.known && old_ != v && StartsAt(line, cycle, n, old_, v, countdown, stored)
    ensures var next := TagStep(View(countdown, None), line, Reading(stored, Some(v)), cycle);
      && next.update == (if n == line.delay then Some(v) else None)
      && StartsAt(line, cycle, n + 1, old_, v, next.countdown, if next.update.Some? then next.update.value else stored)
  {
    var d := line.delay;
    if 0 < n < d {
      assert (d - (n - 1)) * cycle - cycle == (d - n) * cycle;
      assert (d - n) * cycle > 0;
    } else if 0 < n == d {
      assert (d - (n - 1)) * cycle == cycle;
    } else if n == 0 {
      assert (d - 0) * cycle == d * cycle;
    }
  }

  lemma StoredNext(lines: seq<Line>, cycle: int, tags: map<Tag, Value>, inputs: seq<Input>, scans: seq<Scan>,
                   internals: seq<map<Tag, Value>>, m: nat, tag: Tag)
    requires IsRun(lines, cycle, tags, inputs, scans, internals) && m < |inputs| && tag in internals[m]
    ensures var update := Lookup(Sent(lines, cycle, inputs, scans, m) + inputs[m].unsent, tag);
      tag in internals[m + 1] && internals[m + 1][tag] == if update.Some? then update.value else internals[m][tag]
  {
    assert Round(lines, cycle, inputs, scans, internals, m);
    hide AfterScan, Readings, Fits;
  }

  lemma StartsFresh(line: Line, cycle: int, old_: Value, v: Value)
    ensures StartsAt(line, cycle, 0, old_, v, None, old_)
  {
  }

  lemma BeforeNext(lines: seq<Line>, cycle: int, scans: seq<Scan>, m: nat)
    requires Fits(lines, scans) && m < |scans|
    ensures Before(lines, cycle, scans, m + 1) == AfterScan(lines, cycle, scans, m).delayed
  {
  }

  /** In scan m, the tag's step is decided by its countdown and its stored value. */
  lemma SteadyView(lines: seq<Line>, cycle: int, tags: map<Tag, Value>, inputs: seq<Input>, scans: seq<Scan>,
                   internals: seq<map<Tag, Value>>, i: nat, k: nat, m: nat, v: Value)
    requires IsRun(lines, cycle, tags, inputs, scans, internals) && Steady(lines, inputs, i, k, v) && k <= m < |inputs|
    requires lines[i].lhs in internals[m]
    ensures ViewOf(AfterScan(lines, cycle, scans, m), lines[i].lhs) ==
      TagStep(View(Lookup(Before(lines, cycle, scans, m), lines[i].lhs), None), lines[i],
              Reading(internals[m][lines[i].lhs], Some(v)), cycle)
  {
    assert Round(lines, cycle, inputs, scans, internals, m);
    ScanView(lines, cycle, scans, m, i);
    hide AfterScan, Before, TagStep;
  }

  /** Where the tag of line i stands before scan m, n scans after its result first differed. */
  ghost predicate Phase(lines: seq<Line>, cycle: int, scans: seq<Scan>, internals: seq<map<Tag, Value>>, i: nat,
                        m: nat, n: nat, old_: Value, v: Value)
    requires Fits(lines, scans) && m <= |scans| < |internals| && i < |lines|
  {
    var tag := lines[i].lhs;
    tag in internals[m]
      && StartsAt(lines[i], cycle, n, old_, v, Lookup(Before(lines, cycle, scans, m), tag), internals[m][tag])
  }

  lemma PhaseStep(lines: seq<Line>, cycle: int, tags: map<Tag, Value>, inputs: seq<Input>, scans: seq<Scan>,
                  internals: seq<map<Tag, Value>>, i: nat, k: nat, m: nat, old_: Value, v: Value)
    requires cycle > 0 && IsRun(lines, cycle, tags, inputs, scans, internals) && Steady(lines, inputs, i, k, v)
      && k <= m < |inputs|
    requires old_ != v && Phase(lines, cycle, scans, internals, i, m, m - k, old_, v)
    ensures Lookup(Sent(lines, cycle, inputs, scans, m), lines[i].lhs)
      == if m - k == lines[i].delay then Some(v) else None
    ensures Phase(lines, cycle, scans, internals, i, m + 1, m + 1 - k, old_, v)
  {
    var tag := lines[i].lhs;
    SteadyView(lines, cycle, tags, inputs, scans, internals, i, k, m, v);
    StoredNext(lines, cycle, tags, inputs, scans, internals, m, tag);
    BeforeNext(lines, cycle, scans, m);
    hide AfterScan, Before, TakeOver, StartsAt, IsRun, Fits, OnlyLine, TagStep;
    SteadyStep(lines[i], cycle, m - k, old_, v, Lookup(Before(lines, cycle, scans, m), tag), internals[m][tag]);
  }

  lemma PhaseStarts(lines: seq<Line>, cycle: int, scans: seq<Scan>, internals: seq<map<Tag, Value>>, i: nat,
                    k: nat, v: Value)
    requires Fits(lines, scans) && k <= |scans| < |internals| && i < |lines|
    requires lines[i].lhs !in Before(lines, cycle, scans, k) && lines[i].lhs in internals[k]
    ensures Phase(lines, cycle, scans, internals, i, k, 0, internals[k][lines[i].lhs], v)
  {
    hide Before, StartsAt;
    StartsFresh(lines[i], cycle, internals[k][lines[i].lhs], v);
  }

  lemma {:induction false} PhaseAt(lines: seq<Line>, cycle: int, tags: map<Tag, Value>, inputs: seq<Input>,
                                   scans: seq<Scan>, internals: seq<map<Tag, Value>>, i: nat, k: nat, m: nat, v: Value)
    requires cycle > 0 && IsRun(lines, cycle, tags, inputs, scans, internals) && Steady(lines, inputs, i, k, v)
      && k <= m < |inputs|
    requires lines[i].lhs !in Before(lines, cycle, scans, k) && lines[i].lhs in internals[k]
      && internals[k][lines[i].lhs] != v
    ensures Phase(lines, cycle, scans, internals, i, m, m - k, internals[k][lines[i].lhs], v)
    decreases m
  {
    assert i < |lines| && |internals| == |inputs| + 1 && |scans| == |inputs| && Fits(lines, scans);
    hide AfterScan, Before, Steady, IsRun, Fits, Phase;
    if m == k {
      PhaseStarts(lines, cycle, scans, internals, i, k, v);
    } else {
      PhaseAt(lines, cycle, tags, inputs, scans, internals, i, k, m - 1, v);
      PhaseStep(lines, cycle, tags, inputs, scans, internals, i, k, m - 1, internals[k][lines[i].lhs], v);
    }
  }

  /**
   A constant result fires once: when the only line of an internal tag, with nobody else updating the
   tag, evaluates from scan k on to one value that differs from the stored one, the tag is updated
   with it in scan k + delay and in no other scan from k on.
   */
  lemma FiresOnce(lines: seq<Line>, cycle: int, tags: map<Tag, Value>, inputs: seq<Input>, scans: seq<Scan>,
                  internals: seq<map<Tag, Value>>, i: nat, k: nat, v: Value)
    requires cycle > 0 && IsRun(lines, cycle, tags, inputs, scans, internals) && Steady(lines, inputs, i, k, v)
      && k < |inputs|
    requires lines[i].lhs !in Before(lines, cycle, scans, k) && lines[i].lhs in internals[k]
      && internals[k][lines[i].lhs] != v
    ensures forall n | k <= n < |inputs| ::
      Lookup(Sent(lines, cycle, inputs, scans, n), lines[i].lhs) == if n == k + lines[i].delay then Some(v) else None
  {
    forall n | k <= n < |inputs|
      ensures Lookup(Sent(lines, cycle, inputs, scans, n), lines[i].lhs)
        == if n == k + lines[i].delay then Some(v) else None
    {
      hide AfterScan, Before, Steady, TakeOver, Phase, IsRun, Fits;
      PhaseAt(lines, cycle, tags, inputs, scans, internals, i, k, n, v);
      PhaseStep(lines, cycle, tags, inputs, scans, internals, i, k, n, internals[k][lines[i].lhs], v);
    }
  }
}
