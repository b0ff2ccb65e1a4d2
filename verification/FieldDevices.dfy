/** The objects that run the scan cycle: the data manager, the logic module and the field device. */
module FieldDevices {
  import opened DelayedLogic
  import opened InternalTags
  import opened Wrappers

  /** Internal tags and the tags updated since the last scan. */
  class DataManager {
    var internal: map<Tag, Value>
    var updated: map<Tag, Value>

    constructor (tags: map<Tag, Value>)
      ensures internal == tags && updated == map[]
    {
      internal, updated := tags, map[];
    }

    method AddUpdatedTag(tag: Tag, value: Value)
      modifies this`updated
      ensures updated == old(updated)[tag := value]
    {
      updated := updated[tag := value];
    }

    /** Internal tags take over their updates; updates of other tags are left to the output modules. */
    method UpdateInternalData()
      modifies this`internal
      ensures internal == TakeOver(old(internal), updated)
    {
      var left := updated.Keys;
      while left != {}
        invariant left <= updated.Keys && internal.Keys == old(internal).Keys
        invariant forall t | t in internal ::
          internal[t] == if t in updated && t !in left then updated[t] else old(internal)[t]
        decreases |left|
      {
        var t :| t in left;
        if t in internal {
          internal := internal[t := updated[t]];
        }
        left := left - {t};
      }
    }

    method ClearUpdatedTags()
      modifies this`updated
      ensures updated == map[]
    {
      updated := map[];
    }
  }

  class LogicModule {
    const lines: seq<Line>
    var delayed: map<Tag, int>

    constructor (logic: seq<Line>)
      ensures lines == logic && delayed == map[]
    {
      lines, delayed := logic, map[];
    }

    /** scanLogic: the lines in order, each against the countdowns and updates the earlier ones left. */
    method ScanLogic(dm: DataManager, samples: seq<Sample>, cycle: int)
      requires |samples| == |lines|
      modifies this`delayed, dm`updated
      ensures State(delayed, dm.updated)
        == ScanLines(State(old(delayed), old(dm.updated)), lines, Readings(dm.internal, lines, samples), cycle)
    {
      ghost var readings := Readings(dm.internal, lines, samples);
      assert lines[0..] == lines && readings[0..] == readings;
      for i := 0 to |lines|
        invariant ScanLines(State(old(delayed), old(dm.updated)), lines, readings, cycle)
          == ScanLines(State(delayed, dm.updated), lines[i..], readings[i..], cycle)
      {
        assert lines[i..][0] == lines[i] && lines[i..][1..] == lines[i + 1..];
        assert readings[i..][0] == readings[i] && readings[i..][1..] == readings[i + 1..];
        ghost var next := ScanLine(State(delayed, dm.updated), lines[i], readings[i], cycle);
        var tag, result := lines[i].lhs, samples[i].result;
        if tag in delayed {
          var newDelay := delayed[tag] - cycle;
          if newDelay > 0 {
            delayed := delayed[tag := newDelay];
            assert State(delayed, dm.updated) == next;
            continue;
          }
        }
        if !lines[i].known || result == None {
          continue;
        }
        if result.value != Stored(dm.internal, tag, samples[i]) && tag !in dm.updated {
          if lines[i].delay > 0 && tag !in delayed {
            delayed := delayed[tag := lines[i].delay * cycle];
          } else {
            dm.AddUpdatedTag(tag, result.value);
            delayed := delayed - {tag};
          }
        } else if tag in delayed {
          delayed := delayed - {tag};
        }
        assert State(delayed, dm.updated) == next;
      }
    }
  }

  class FieldDevice {
    const dm: DataManager
    const logic: LogicModule
    const cycle: int
    /** What the output modules were given in each scan. */
    var sent: seq<map<Tag, Value>>

    constructor (tags: map<Tag, Value>, lines: seq<Line>, cycleTime: int)
      ensures fresh(dm) && fresh(logic) && logic.lines == lines && cycle == cycleTime
      ensures logic.delayed == map[] && dm.updated == map[] && dm.internal == tags && sent == []
    {
      dm := new DataManager(tags);
      logic := new LogicModule(lines);
      cycle := cycleTime;
      sent := [];
    }

    /** processOutputs: send, update the internal tags, clear; other threads update tags in between. */
    method ProcessOutputs(unsent: map<Tag, Value>, lost: map<Tag, Value>)
      modifies this`sent, dm
      ensures sent == old(sent) + [old(dm.updated)] && dm.updated == map[]
      ensures dm.internal == TakeOver(old(dm.internal), old(dm.updated) + unsent)
    {
      sent := sent + [dm.updated];
      dm.updated := dm.updated + unsent;
      dm.UpdateInternalData();
      dm.updated := dm.updated + lost;
      dm.ClearUpdatedTags();
    }

    /** One round of scanCycle. */
    method ScanOnce(input: Input)
      requires |input.samples| == |logic.lines|
      modifies this`sent, dm, logic
      ensures var s := ScanLines(State(old(logic.delayed), input.pending), logic.lines,
                                 Readings(old(dm.internal), logic.lines, input.samples), cycle);
        && logic.delayed == s.delayed && dm.updated == map[] && sent == old(sent) + [s.updated + input.late]
        && dm.internal == TakeOver(old(dm.internal), s.updated + input.late + input.unsent)
    {
      hide ScanLines, Readings, TakeOver;
      dm.updated := input.pending;
      logic.ScanLogic(dm, input.samples, cycle);
      dm.updated := dm.updated + input.late;
      ProcessOutputs(input.unsent, input.lost);
    }

    /**
     scanCycle for any number of scans: the device goes through a run, and what is sent in scan n, the
     countdowns and the internal tags are those of that run. So DelaySafety and FiresOnce speak about
     this device.
     */
    method ScanCycle(inputs: seq<Input>) returns (ghost scans: seq<Scan>, ghost internals: seq<map<Tag, Value>>)
      requires (forall n | 0 <= n < |inputs| :: |inputs[n].samples| == |logic.lines|)
      requires logic.delayed == map[] && dm.updated == map[] && sent == []
      modifies this`sent, dm, logic
      ensures IsRun(logic.lines, cycle, old(dm.internal), inputs, scans, internals)
      ensures logic.delayed == Before(logic.lines, cycle, scans, |scans|) && dm.internal == internals[|inputs|]
      ensures |sent| == |inputs| && forall n | 0 <= n < |inputs| ::
        sent[n] == Sent(logic.lines, cycle, inputs, scans, n)
    {
      scans, internals := [], [dm.internal];
      NothingReached(logic.lines, cycle, dm.internal);
      hide ScanLines, Readings, TakeOver, Reached;
      for n := 0 to |inputs|
        invariant Reached(logic.lines, cycle, old(dm.internal), inputs[..n], scans, internals, logic.delayed,
                          dm.internal, sent)
        invariant dm.updated == map[]
      {
        ghost var delayed, internal, before := logic.delayed, dm.internal, sent;
        ScanOnce(inputs[n]);
        ReachedNext(logic.lines, cycle, old(dm.internal), inputs[..n], scans, internals, delayed, internal,
                    before, inputs[n]);
        assert inputs[..n] + [inputs[n]] == inputs[..n + 1];
        scans := scans + [Scan(inputs[n].pending, Readings(internal, logic.lines, inputs[n].samples))];
        internals := internals + [dm.internal];
      }
      assert inputs[..|inputs|] == inputs;
      AllReached(logic.lines, cycle, old(dm.internal), inputs, scans, internals, logic.delayed, dm.internal, sent);
    }
  }

  /** After a run: the countdowns, the internal tags and everything that was sent. */
  ghost predicate Reached(lines: seq<Line>, cycle: int, tags: map<Tag, Value>, inputs: seq<Input>, scans: seq<Scan>,
                          internals: seq<map<Tag, Value>>, delayed: map<Tag, int>, internal: map<Tag, Value>,
                          sent: seq<map<Tag, Value>>)
  {
    && IsRun(lines, cycle, tags, inputs, scans, internals)
    && delayed == Before(lines, cycle, scans, |scans|) && internal == internals[|inputs|]
    && |sent| == |inputs| && forall n | 0 <= n < |inputs| :: sent[n] == Sent(lines, cycle, inputs, scans, n)
  }

  lemma NothingReached(lines: seq<Line>, cycle: int, tags: map<Tag, Value>)
    ensures Reached(lines, cycle, tags, [], [], [tags], map[], tags, [])
  {
    NoRun(lines, cycle, tags);
  }

  lemma AllReached(lines: seq<Line>, cycle: int, tags: map<Tag, Value>, inputs: seq<Input>, scans: seq<Scan>,
                   internals: seq<map<Tag, Value>>, delayed: map<Tag, int>, internal: map<Tag, Value>,
                   sent: seq<map<Tag, Value>>)
    requires Reached(lines, cycle, tags, inputs, scans, internals, delayed, internal, sent)
    ensures IsRun(lines, cycle, tags, inputs, scans, internals) && internal == internals[|inputs|]
    ensures delayed == Before(lines, cycle, scans, |scans|)
    ensures |sent| == |inputs| && forall n | 0 <= n < |inputs| :: sent[n] == Sent(lines, cycle, inputs, scans, n)
  {
    hide AfterScan, Before;
  }

  lemma ReachedNext(lines: seq<Line>, cycle: int, tags: map<Tag, Value>, inputs: seq<Input>, scans: seq<Scan>,
                    internals: seq<map<Tag, Value>>, delayed: map<Tag, int>, internal: map<Tag, Value>,
                    sent: seq<map<Tag, Value>>, input: Input)
    requires Reached(lines, cycle, tags, inputs, scans, internals, delayed, internal, sent)
      && |input.samples| == |lines|
    ensures var readings := Readings(internal, lines, input.samples);
      var s := ScanLines(State(delayed, input.pending), lines, readings, cycle);
      var next := TakeOver(internal, s.updated + input.late + input.unsent);
      Reached(lines, cycle, tags, inputs + [input], scans + [Scan(input.pending, readings)], internals + [next],
              s.delayed, next, sent + [s.updated + input.late])
  {
    RunExtends(lines, cycle, tags, inputs, scans, internals, input);
    BeforeNext(lines, cycle, scans + [Scan(input.pending, Readings(internal, lines, input.samples))], |scans|);
    hide ScanLines, Readings, TakeOver, AfterScan, Before, IsRun;
  }
}
