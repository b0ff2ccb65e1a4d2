/** The memory object, the output module's batch and the cycle of a field device. */
module DeviceCycle {
  import opened DeviceMemory
  import opened Wrappers

  /** The loop over the pending tags, in whatever order the map yields them. */
  method UpdateDevices<V(==)>(b: Bank<V>, accepts: (Name, V) -> bool) returns (o: Outcome<V>, ghost order: seq<Name>)
    ensures Enumerates(order, b.updated) && o == Process(Outcome(b, []), order, accepts)
    ensures o.bank.devices == Replay(b.devices, o.batch)
    ensures Agree(b) ==> Done(b, o, [], accepts)
  {
    hide ProcessTag, SameFrame, Agree, Done;
    o, order := Outcome(b, []), [];
    var left := b.updated.Keys;
    while left != {}
      invariant left <= b.updated.Keys && NoRepeat(order) && (forall t :: t in order <==> t in b.updated && t !in left)
      invariant o == Process(Outcome(b, []), order, accepts)
      decreases |left|
    {
      var tag :| tag in left;
      ProcessFrame(Outcome(b, []), order, accepts);
      assert NoRepeat(order + [tag]);
      ProcessAppend(Outcome(b, []), order, tag, accepts);
      o := ProcessTag(o, tag, accepts);
      order := order + [tag];
      left := left - {tag};
    }
    StoreAgreesWithBatch(b.devices, Outcome(b, []), order, accepts);
    if Agree(b) {
      AnyOrder(b, order, accepts);
    }
  }

  /** A range loop that copies one map over another. */
  method CopyOver<V>(target: map<Name, V>, source: map<Name, V>) returns (r: map<Name, V>)
    ensures r == target + source
  {
    r := target;
    var left := source.Keys;
    while left != {}
      invariant left <= source.Keys && r.Keys == target.Keys + (source.Keys - left)
      invariant forall t | t in r :: r[t] == if t in source && t !in left then source[t] else target[t]
      decreases |left|
    {
      var t :| t in left;
      r := r[t := source[t]];
      left := left - {t};
    }
  }

  class Memory {
    var binary: Bank<bool>
    var analog: Bank<real>
    var text: Bank<string>
    var frozen: bool
    var binaryOverlay: Overlay<bool>
    var analogOverlay: Overlay<real>
    var textOverlay: Overlay<string>

    /** String tags are internal only. */
    predicate Valid()
      reads this
    {
      text.tags == map[]
    }

    constructor (b: Bank<bool>, a: Bank<real>, s: map<Name, string>)
      ensures Valid() && !frozen && binary == b && analog == a && text.internal == s
    {
      binary, analog, text := b, a, Bank(map[], map[], map[], map[], s);
      frozen := false;
      binaryOverlay, analogOverlay, textOverlay := NoOverlay(), NoOverlay(), NoOverlay();
    }

    method UpdateBinaryTag(tag: Name, status: bool) returns (ok: bool)
      modifies this`binary, this`binaryOverlay
      ensures ok == Knows(old(binary), tag)
      ensures frozen ==> binary == old(binary) && binaryOverlay == OverlayTag(binary, old(binaryOverlay), tag, status)
      ensures !frozen ==> binaryOverlay == old(binaryOverlay) && binary == UpdateTag(old(binary), tag, status)
    {
      ok := true;
      if tag in binary.tags {
        if frozen {
          binaryOverlay := binaryOverlay.(updated := binaryOverlay.updated[tag := status]);
        } else {
          binary := binary.(updated := binary.updated[tag := status]);
        }
      } else if tag in binary.internal {
        if frozen {
          binaryOverlay := binaryOverlay.(internal := binaryOverlay.internal[tag := status]);
        } else {
          binary := binary.(internal := binary.internal[tag := status]);
        }
      } else {
        ok := false;
      }
    }

    method UpdateAnalogTag(tag: Name, value: real) returns (ok: bool)
      modifies this`analog, this`analogOverlay
      ensures ok == Knows(old(analog), tag)
      ensures frozen ==> analog == old(analog) && analogOverlay == OverlayTag(analog, old(analogOverlay), tag, value)
      ensures !frozen ==> analogOverlay == old(analogOverlay) && analog == UpdateTag(old(analog), tag, value)
    {
      ok := true;
      if tag in analog.tags {
        if frozen {
          analogOverlay := analogOverlay.(updated := analogOverlay.updated[tag := value]);
        } else {
          analog := analog.(updated := analog.updated[tag := value]);
        }
      } else if tag in analog.internal {
        if frozen {
          analogOverlay := analogOverlay.(internal := analogOverlay.internal[tag := value]);
        } else {
          analog := analog.(internal := analog.internal[tag := value]);
        }
      } else {
        ok := false;
      }
    }

    method UpdateStringTag(tag: Name, value: string) returns (ok: bool)
      requires Valid()
      modifies this`text, this`textOverlay
      ensures Valid() && ok == (tag in old(text).internal)
      ensures frozen ==> text == old(text) && textOverlay == OverlayTag(text, old(textOverlay), tag, value)
      ensures !frozen ==> textOverlay == old(textOverlay) && text == UpdateTag(old(text), tag, value)
    {
      ok := tag in text.internal;
      if ok {
        if frozen {
          textOverlay := textOverlay.(internal := textOverlay.internal[tag := value]);
        } else {
          text := text.(internal := text.internal[tag := value]);
        }
      }
    }

    method Freeze()
      modifies this`frozen, this`binaryOverlay, this`analogOverlay, this`textOverlay
      ensures frozen && binaryOverlay == NoOverlay() && analogOverlay == NoOverlay() && textOverlay == NoOverlay()
    {
      frozen := true;
      binaryOverlay, analogOverlay, textOverlay := NoOverlay(), NoOverlay(), NoOverlay();
    }

    method Unfreeze()
      modifies this`frozen, this`binary, this`analog, this`text
      ensures !frozen && binary == Merge(old(binary), binaryOverlay) && analog == Merge(old(analog), analogOverlay)
      ensures text == Merge(old(text), textOverlay)
    {
      var bu := CopyOver(binary.updated, binaryOverlay.updated);
      var bi := CopyOver(binary.internal, binaryOverlay.internal);
      var au := CopyOver(analog.updated, analogOverlay.updated);
      var ai := CopyOver(analog.internal, analogOverlay.internal);
      var tu := CopyOver(text.updated, textOverlay.updated);
      var ti := CopyOver(text.internal, textOverlay.internal);
      binary := binary.(updated := bu, internal := bi);
      analog := analog.(updated := au, internal := ai);
      text := text.(updated := tu, internal := ti);
      frozen := false;
    }
  }

  /** One batch as the output module commits it. */
  datatype Batch = Batch(binary: seq<(Name, bool)>, analog: seq<(Name, real)>)

  /** OutputModule.Update: its callbacks take every change. */
  method Update(memory: Memory) returns (batch: Batch, ghost p: seq<Name>, ghost q: seq<Name>)
    modifies memory`binary, memory`analog
    ensures Enumerates(p, old(memory.binary).updated) && Enumerates(q, old(memory.analog).updated)
    ensures Outcome(memory.binary, batch.binary) == Process(Outcome(old(memory.binary), []), p, Always())
    ensures Outcome(memory.analog, batch.analog) == Process(Outcome(old(memory.analog), []), q, Always())
  {
    var b, order := UpdateDevices(memory.binary, Always());
    p := order;
    var a, order' := UpdateDevices(memory.analog, Always());
    q := order';
    memory.binary, memory.analog := b.bank, a.bank;
    batch := Batch(b.batch, a.batch);
  }

  /** One tick: freeze, logic, outputs, unfreeze. */
  method Tick(memory: Memory, binary: seq<(Name, bool)>, analog: seq<(Name, real)>)
    returns (batch: Batch, ghost p: seq<Name>, ghost q: seq<Name>)
    modifies memory
    ensures Enumerates(p, old(memory.binary).updated) && Enumerates(q, old(memory.analog).updated) && !memory.frozen
    ensures Outcome(memory.binary, batch.binary) == Cycle(old(memory.binary), binary, p, Always())
    ensures Outcome(memory.analog, batch.analog) == Cycle(old(memory.analog), analog, q, Always())
  {
    hide Process, OverlayTag, UpdateTag, Enumerates, Merge;
    memory.Freeze();
    ghost var b, a := memory.binary, memory.analog;
    assert binary[0..] == binary && analog[0..] == analog;
    for i := 0 to |binary|
      invariant memory.frozen && memory.binary == b && memory.analog == a && memory.analogOverlay == NoOverlay()
      invariant OverlayTags(b, NoOverlay(), binary) == OverlayTags(b, memory.binaryOverlay, binary[i..])
    {
      assert binary[i..][0] == binary[i] && binary[i..][1..] == binary[i + 1..];
      var _ := memory.UpdateBinaryTag(binary[i].0, binary[i].1);
    }
    for i := 0 to |analog|
      invariant memory.frozen && memory.binary == b && memory.analog == a
      invariant memory.binaryOverlay == OverlayTags(b, NoOverlay(), binary)
      invariant OverlayTags(a, NoOverlay(), analog) == OverlayTags(a, memory.analogOverlay, analog[i..])
    {
      assert analog[i..][0] == analog[i] && analog[i..][1..] == analog[i + 1..];
      var _ := memory.UpdateAnalogTag(analog[i].0, analog[i].1);
    }
    batch, p, q := Update(memory);
    memory.Unfreeze();
  }
}
