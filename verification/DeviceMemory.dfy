/** The device memory: tags, the devices behind them, pending updates, and the overlay that a freeze puts over both. */
module DeviceMemory {
  import opened Wrappers

  type Name = string

  /**
   The maps for one kind of value. Tags lead over IO modules to devices; internal tags hold their
   value themselves.
   */
  datatype Bank<V> = Bank(tags: map<Name, Name>, modules: map<Name, Name>, devices: map<Name, V>, updated: map<Name, V>,
                          internal: map<Name, V>)

  /** What arrives during a freeze. */
  datatype Overlay<V> = Overlay(updated: map<Name, V>, internal: map<Name, V>)

  // Updating tags.

  predicate Knows<V>(b: Bank<V>, tag: Name) {
    tag in b.tags || tag in b.internal
  }

  /** A tag update outside a freeze; unknown tags are refused. */
  function UpdateTag<V>(b: Bank<V>, tag: Name, value: V): Bank<V> {
    if tag in b.tags then b.(updated := b.updated[tag := value])
    else if tag in b.internal then b.(internal := b.internal[tag := value])
    else b
  }

  /** A tag update during a freeze goes to the overlay alone. */
  function OverlayTag<V>(b: Bank<V>, o: Overlay<V>, tag: Name, value: V): Overlay<V> {
    if tag in b.tags then o.(updated := o.updated[tag := value])
    else if tag in b.internal then o.(internal := o.internal[tag := value])
    else o
  }

  function UpdateTags<V>(b: Bank<V>, updates: seq<(Name, V)>): Bank<V>
    decreases |updates|
  {
    if updates == [] then b else UpdateTags(UpdateTag(b, updates[0].0, updates[0].1), updates[1..])
  }

  function OverlayTags<V>(b: Bank<V>, o: Overlay<V>, updates: seq<(Name, V)>): Overlay<V>
    decreases |updates|
  {
    if updates == [] then o else OverlayTags(b, OverlayTag(b, o, updates[0].0, updates[0].1), updates[1..])
  }

  /** Unfreezing: the overlay wins. */
  function Merge<V>(b: Bank<V>, o: Overlay<V>): Bank<V> {
    b.(updated := b.updated + o.updated, internal := b.internal + o.internal)
  }

  function NoOverlay<V>(): Overlay<V> {
    Overlay(map[], map[])
  }

  /** Unfreezing gives what the updates would have given outside the freeze: the last writer of each tag wins. */
  lemma {:induction false} MergeReplays<V>(b: Bank<V>, o: Overlay<V>, updates: seq<(Name, V)>)
    requires o.internal.Keys <= b.internal.Keys
    ensures Merge(b, OverlayTags(b, o, updates)) == UpdateTags(Merge(b, o), updates)
    decreases |updates|
  {
    if updates != [] {
      var tag, value := updates[0].0, updates[0].1;
      assert b.updated + o.updated[tag := value] == (b.updated + o.updated)[tag := value];
      assert b.internal + o.internal[tag := value] == (b.internal + o.internal)[tag := value];
      MergeReplays(b, OverlayTag(b, o, tag, value), updates[1..]);
    }
  }

  /** The overlay depends only on which tags there are. */
  lemma {:induction false} OverlayIgnoresValues<V>(b: Bank<V>, c: Bank<V>, o: Overlay<V>, updates: seq<(Name, V)>)
    requires b.tags == c.tags && b.internal.Keys == c.internal.Keys
    ensures OverlayTags(b, o, updates) == OverlayTags(c, o, updates)
    decreases |updates|
  {
    if updates != [] {
      OverlayIgnoresValues(b, c, OverlayTag(b, o, updates[0].0, updates[0].1), updates[1..]);
    }
  }

  // Updating devices from the pending tags.

  /** The device behind a tag, if all of the way to it exists. */
  function Target<V>(b: Bank<V>, tag: Name): Option<Name> {
    if tag in b.tags && b.tags[tag] in b.modules && b.modules[b.tags[tag]] in b.devices
    then Some(b.modules[b.tags[tag]]) else None
  }

  datatype Outcome<V> = Outcome(bank: Bank<V>, batch: seq<(Name, V)>)

  /** One turn of the loop over the pending tags. accepts tells whether the callback takes the update. */
  function ProcessTag<V(==)>(o: Outcome<V>, tag: Name, accepts: (Name, V) -> bool): Outcome<V>
    requires tag in o.bank.updated
  {
    var b, v := o.bank, o.bank.updated[tag];
    match Target(b, tag)
    case None => o
    case Some(d) =>
      if v == b.devices[d] then o.(bank := b.(updated := b.updated - {tag}))
      else if !accepts(d, v) then o
      else Outcome(b.(updated := b.updated - {tag}, devices := b.devices[d := v]), o.batch + [(d, v)])
  }

  predicate NoRepeat(order: seq<Name>) {
    forall i, j | 0 <= i < j < |order| :: order[i] != order[j]
  }

  /** All pending tags, each once, in some order. */
  predicate Enumerates<V>(order: seq<Name>, m: map<Name, V>) {
    NoRepeat(order) && (forall t | t in order :: t in m) && (forall t | t in m :: t in order)
  }

  lemma NoRepeatRest(order: seq<Name>)
    requires NoRepeat(order) && order != []
    ensures NoRepeat(order[1..]) && order[0] !in order[1..] && forall t | t in order[1..] :: t in order
  {
  }

  function Process<V(==)>(o: Outcome<V>, order: seq<Name>, accepts: (Name, V) -> bool): Outcome<V>
    requires NoRepeat(order) && forall t | t in order :: t in o.bank.updated
    decreases |order|
  {
    if order == [] then o
    else
      NoRepeatRest(order);
      Process(ProcessTag(o, order[0], accepts), order[1..], accepts)
  }

  /** Replaying a batch on the device store. */
  function Replay<V>(devices: map<Name, V>, batch: seq<(Name, V)>): map<Name, V>
    decreases |batch|
  {
    if batch == [] then devices else Replay(devices[batch[0].0 := batch[0].1], batch[1..])
  }

  lemma {:induction false} ReplayAppend<V>(devices: map<Name, V>, batch: seq<(Name, V)>, d: Name, v: V)
    ensures Replay(devices, batch + [(d, v)]) == Replay(devices, batch)[d := v]
    decreases |batch|
  {
    if batch == [] {
      assert batch + [(d, v)] == [(d, v)] && [(d, v)][1..] == [];
    } else {
      assert (batch + [(d, v)])[1..] == batch[1..] + [(d, v)];
      ReplayAppend(devices[batch[0].0 := batch[0].1], batch[1..], d, v);
    }
  }

  /** In every order, and whatever the tags: the device store agrees with the batch that was sent. */
  lemma {:induction false} StoreAgreesWithBatch<V>(devices: map<Name, V>, o: Outcome<V>, order: seq<Name>,
                                                   accepts: (Name, V) -> bool)
    requires NoRepeat(order) && (forall t | t in order :: t in o.bank.updated)
      && o.bank.devices == Replay(devices, o.batch)
    ensures var r := Process(o, order, accepts); r.bank.devices == Replay(devices, r.batch)
    decreases |order|
  {
    if order != [] {
      NoRepeatRest(order);
      var v := o.bank.updated[order[0]];
      match Target(o.bank, order[0]) {
        case Some(d) => ReplayAppend(devices, o.batch, d, v);
        case None =>
      }
      StoreAgreesWithBatch(devices, ProcessTag(o, order[0], accepts), order[1..], accepts);
    }
  }

  // When the order does not matter.

  /** Pending tags of the same device ask for the same value; in particular when they belong to distinct devices. */
  ghost predicate Agree<V>(b: Bank<V>) {
    forall s, t | s in b.updated && t in b.updated && Target(b, s).Some? && Target(b, s) == Target(b, t) ::
      b.updated[s] == b.updated[t]
  }

  /** Tag t, pending in b, asks for a change of device d and the callback takes it. */
  predicate Changes<V(==)>(b: Bank<V>, t: Name, d: Name, accepts: (Name, V) -> bool) {
    t in b.updated && Target(b, t) == Some(d) && b.updated[t] != b.devices[d] && accepts(d, b.updated[t])
  }

  /** Tag t is still pending afterwards: it has no device, or the callback refused its change. */
  predicate Remains<V(==)>(b: Bank<V>, t: Name, accepts: (Name, V) -> bool) {
    && t in b.updated
    && match Target(b, t) {
      case None => true
      case Some(d) => b.updated[t] != b.devices[d] && !accepts(d, b.updated[t])
    }
  }

  /** Everything but devices and pending tags is as in b, and so are the pending values. */
  ghost predicate SameFrame<V>(b: Bank<V>, c: Bank<V>) {
    && b.tags == c.tags && b.modules == c.modules && b.internal == c.internal && b.devices.Keys == c.devices.Keys
    && forall t | t in c.updated :: t in b.updated && c.updated[t] == b.updated[t]
  }

  /** A device has changed exactly if a tag that has been looked at changes it, and then to that tag's value. */
  ghost predicate DevicesOk<V>(b: Bank<V>, devices: map<Name, V>, rest: seq<Name>, accepts: (Name, V) -> bool)
    requires devices.Keys == b.devices.Keys
  {
    && (forall t, d | t !in rest && Changes(b, t, d, accepts) :: devices[d] == b.updated[t])
    && (forall d | d in devices && devices[d] != b.devices[d] :: exists t | t !in rest :: Changes(b, t, d, accepts))
  }

  /** The batch lists the changed devices with their new values, each once. */
  ghost predicate BatchOk<V>(b: Bank<V>, devices: map<Name, V>, batch: seq<(Name, V)>)
    requires devices.Keys == b.devices.Keys
  {
    && (forall p | p in batch :: p.0 in devices && p.1 == devices[p.0] && p.1 != b.devices[p.0])
    && (forall d | d in devices && devices[d] != b.devices[d] :: (d, devices[d]) in batch)
    && (forall i, j | 0 <= i < j < |batch| :: batch[i].0 != batch[j].0)
  }

  ghost predicate PendingOk<V>(b: Bank<V>, updated: map<Name, V>, rest: seq<Name>, accepts: (Name, V) -> bool) {
    forall t | t in b.updated :: t in updated <==> t in rest || Remains(b, t, accepts)
  }

  ghost predicate Done<V>(b: Bank<V>, o: Outcome<V>, rest: seq<Name>, accepts: (Name, V) -> bool) {
    && SameFrame(b, o.bank) && DevicesOk(b, o.bank.devices, rest, accepts) && BatchOk(b, o.bank.devices, o.batch)
    && PendingOk(b, o.bank.updated, rest, accepts)
  }

  /** If two pending tags agree, an earlier change of the device was to the same value. */
  lemma EarlierChange<V>(b: Bank<V>, o: Outcome<V>, t: Name, d: Name, rest: seq<Name>, accepts: (Name, V) -> bool)
    requires Agree(b) && Done(b, o, rest, accepts) && t in b.updated && Target(b, t) == Some(d)
    ensures o.bank.devices[d] != b.devices[d] ==> o.bank.devices[d] == b.updated[t] && Changes(b, t, d, accepts)
  {
    if o.bank.devices[d] != b.devices[d] {
      var s :| s !in rest && Changes(b, s, d, accepts);
    }
  }

  lemma BatchGrows<V>(b: Bank<V>, devices: map<Name, V>, batch: seq<(Name, V)>, d: Name, v: V)
    requires devices.Keys == b.devices.Keys && BatchOk(b, devices, batch)
    requires d in devices && devices[d] == b.devices[d] && v != b.devices[d]
    ensures BatchOk(b, devices[d := v], batch + [(d, v)])
  {
    forall i | 0 <= i < |batch| ensures batch[i].0 != d {
      assert batch[i] in batch;
    }
  }

  lemma StepKeepsDone<V>(b: Bank<V>, o: Outcome<V>, order: seq<Name>, accepts: (Name, V) -> bool)
    requires Agree(b) && NoRepeat(order) && order != [] && order[0] in o.bank.updated && Done(b, o, order, accepts)
    ensures Done(b, ProcessTag(o, order[0], accepts), order[1..], accepts)
  {
    NoRepeatRest(order);
    var t, rest := order[0], order[1..];
    assert forall x | x in order :: x == t || x in rest;
    var v := b.updated[t];
    match Target(b, t)
    case None =>
    case Some(d) =>
      EarlierChange(b, o, t, d, order, accepts);
      if v != o.bank.devices[d] && accepts(d, v) {
        BatchGrows(b, o.bank.devices, o.batch, d, v);
      }
  }

  lemma {:induction false} ProcessKeepsDone<V>(b: Bank<V>, o: Outcome<V>, order: seq<Name>, accepts: (Name, V) -> bool)
    requires Agree(b) && NoRepeat(order) && (forall t | t in order :: t in o.bank.updated) && Done(b, o, order, accepts)
    ensures Done(b, Process(o, order, accepts), [], accepts)
    decreases |order|
  {
    if order != [] {
      NoRepeatRest(order);
      StepKeepsDone(b, o, order, accepts);
      hide Done, Agree;
      ProcessKeepsDone(b, ProcessTag(o, order[0], accepts), order[1..], accepts);
    }
  }

  /**
   When pending tags of the same device agree, as they do when they map to distinct devices, then in
   every order the batch is exactly the changed devices with their new values, and the tags that
   remain pending are those without a device or refused by the callback.
   */
  lemma AnyOrder<V>(b: Bank<V>, order: seq<Name>, accepts: (Name, V) -> bool)
    requires Agree(b) && Enumerates(order, b.updated)
    ensures Done(b, Process(Outcome(b, []), order, accepts), [], accepts)
  {
    ProcessKeepsDone(b, Outcome(b, []), order, accepts);
  }

  /**
   The same on the maps themselves. A device and a value are sent exactly when some pending tag leads over its
   module to the device, asks for that value, the device holds another one and the callback takes it; each device
   once. The devices sent hold what was sent, the others what they held, and a tag stays pending exactly when it
   does not lead to a device or is refused.
   */
  lemma BatchFollowsMaps<V>(b: Bank<V>, order: seq<Name>, accepts: (Name, V) -> bool)
    requires Enumerates(order, b.updated)
    requires forall s, t | s in b.updated && t in b.updated && s in b.tags && t in b.tags
      && b.tags[s] in b.modules && b.tags[t] in b.modules && b.modules[b.tags[s]] == b.modules[b.tags[t]]
      && b.modules[b.tags[s]] in b.devices ::
      b.updated[s] == b.updated[t]
    ensures var o := Process(Outcome(b, []), order, accepts);
      && (forall d, v :: (d, v) in o.batch <==>
            && d in b.devices && v != b.devices[d] && accepts(d, v)
            && exists t :: t in b.updated && t in b.tags && b.tags[t] in b.modules && b.modules[b.tags[t]] == d
                           && b.updated[t] == v)
      && (forall i, j | 0 <= i < j < |o.batch| :: o.batch[i].0 != o.batch[j].0)
      && o.bank.devices.Keys == b.devices.Keys
      && (forall d, v | (d, v) in o.batch :: o.bank.devices[d] == v)
      && (forall d | d in b.devices :: o.bank.devices[d] == b.devices[d] || (d, o.bank.devices[d]) in o.batch)
      && (forall t | t in o.bank.updated :: t in b.updated && o.bank.updated[t] == b.updated[t])
      && (forall t | t in b.updated :: t in o.bank.updated <==>
            t !in b.tags || b.tags[t] !in b.modules || b.modules[b.tags[t]] !in b.devices
            || (var d := b.modules[b.tags[t]]; b.updated[t] != b.devices[d] && !accepts(d, b.updated[t])))
      && o.bank.tags == b.tags && o.bank.modules == b.modules && o.bank.internal == b.internal
  {
    AnyOrder(b, order, accepts);
    var o := Process(Outcome(b, []), order, accepts);
    hide Process;
    forall d, v
      ensures (d, v) in o.batch <==>
        && d in b.devices && v != b.devices[d] && accepts(d, v)
        && exists t :: t in b.updated && t in b.tags && b.tags[t] in b.modules && b.modules[b.tags[t]] == d
                       && b.updated[t] == v
    {
      if (d, v) in o.batch {
        var t :| t !in [] && Changes(b, t, d, accepts);
      }
      if d in b.devices && v != b.devices[d] && accepts(d, v)
        && exists t :: t in b.updated && t in b.tags && b.tags[t] in b.modules && b.modules[b.tags[t]] == d
                       && b.updated[t] == v {
        var t :| t in b.updated && t in b.tags && b.tags[t] in b.modules && b.modules[b.tags[t]] == d
          && b.updated[t] == v;
        assert t !in [] && Changes(b, t, d, accepts);
      }
    }
  }

  // When it does.

  lemma {:induction false} SomeOrder(names: set<Name>) returns (order: seq<Name>)
    ensures NoRepeat(order) && forall t :: t in order <==> t in names
    decreases |names|
  {
    if names == {} {
      order := [];
    } else {
      var t :| t in names;
      var rest := SomeOrder(names - {t});
      order := rest + [t];
    }
  }

  lemma ProcessTagFrame<V>(o: Outcome<V>, t: Name, accepts: (Name, V) -> bool)
    requires t in o.bank.updated
    ensures var c := ProcessTag(o, t, accepts).bank;
      SameFrame(o.bank, c) && forall s | s in o.bank.updated && s != t :: s in c.updated
  {
  }

  /** Tags that are not visited stay pending. */
  lemma {:induction false} ProcessFrame<V>(o: Outcome<V>, order: seq<Name>, accepts: (Name, V) -> bool)
    requires NoRepeat(order) && forall t | t in order :: t in o.bank.updated
    ensures var c := Process(o, order, accepts).bank;
      SameFrame(o.bank, c) && forall s | s in o.bank.updated && s !in order :: s in c.updated
    decreases |order|
  {
    if order != [] {
      NoRepeatRest(order);
      ProcessTagFrame(o, order[0], accepts);
      ProcessFrame(ProcessTag(o, order[0], accepts), order[1..], accepts);
    }
  }

  lemma {:induction false} ProcessAppend<V>(o: Outcome<V>, order: seq<Name>, t: Name, accepts: (Name, V) -> bool)
    requires NoRepeat(order + [t]) && NoRepeat(order) && t !in order
    requires (forall s | s in order + [t] :: s in o.bank.updated) && (forall s | s in order :: s in o.bank.updated)
    ensures t in Process(o, order, accepts).bank.updated
    ensures Process(o, order + [t], accepts) == ProcessTag(Process(o, order, accepts), t, accepts)
    decreases |order|
  {
    assert t in order + [t];
    ProcessFrame(o, order, accepts);
    if order == [] {
      assert order + [t] == [t] && [t][1..] == [];
      NoRepeatRest([t]);
    } else {
      assert (order + [t])[1..] == order[1..] + [t];
      NoRepeatRest(order);
      NoRepeatRest(order + [t]);
      ProcessTagFrame(o, order[0], accepts);
      ProcessAppend(ProcessTag(o, order[0], accepts), order[1..], t, accepts);
    }
  }

  function Always<V>(): (Name, V) -> bool {
    (d, v) => true
  }

  /** The tag visited last decides its device. */
  lemma LastWins<V>(b: Bank<V>, order: seq<Name>, t: Name, d: Name)
    requires Enumerates(order + [t], b.updated) && Target(b, t) == Some(d)
    ensures var c := Process(Outcome(b, []), order + [t], Always()).bank; d in c.devices && c.devices[d] == b.updated[t]
  {
    assert NoRepeat(order) && t !in order by {
      forall i, j | 0 <= i < j < |order| ensures order[i] != order[j] {
        assert (order + [t])[i] != (order + [t])[j];
      }
      forall i | 0 <= i < |order| ensures order[i] != t {
        assert (order + [t])[i] != (order + [t])[|order|];
      }
    }
    assert forall s | s in order :: s in order + [t];
    ProcessAppend(Outcome(b, []), order, t, Always());
    ProcessFrame(Outcome(b, []), order, Always());
  }

  /** If two pending tags of one device disagree, the iteration order decides what the device is set to. */
  lemma OrderMatters<V>(b: Bank<V>, s: Name, t: Name) returns (p: seq<Name>, q: seq<Name>)
    requires s in b.updated && t in b.updated && Target(b, s).Some? && Target(b, s) == Target(b, t)
      && b.updated[s] != b.updated[t]
    ensures Enumerates(p, b.updated) && Enumerates(q, b.updated)
    ensures Process(Outcome(b, []), p, Always()).bank.devices != Process(Outcome(b, []), q, Always()).bank.devices
  {
    var d := Target(b, s).value;
    var p' := SomeOrder(b.updated.Keys - {s});
    var q' := SomeOrder(b.updated.Keys - {t});
    p, q := p' + [s], q' + [t];
    LastWins(b, p', s, d);
    LastWins(b, q', t, d);
  }

  ghost predicate SameDevices<V>(b: Bank<V>, p: seq<Name>, q: seq<Name>)
    requires Enumerates(p, b.updated) && Enumerates(q, b.updated)
  {
    Process(Outcome(b, []), p, Always()).bank.devices == Process(Outcome(b, []), q, Always()).bank.devices
  }

  lemma ChangedAlike<V>(b: Bank<V>, x: map<Name, V>, y: map<Name, V>, d: Name)
    requires x.Keys == y.Keys == b.devices.Keys && d in x
    requires DevicesOk(b, x, [], Always()) && DevicesOk(b, y, [], Always())
    ensures x[d] != b.devices[d] ==> y[d] == x[d]
  {
    if x[d] != b.devices[d] {
      var t :| t !in [] && Changes(b, t, d, Always());
      hide Changes;
    }
  }

  lemma AgreeingOrders<V>(b: Bank<V>, p: seq<Name>, q: seq<Name>)
    requires Agree(b) && Enumerates(p, b.updated) && Enumerates(q, b.updated)
    ensures SameDevices(b, p, q)
  {
    AnyOrder(b, p, Always());
    AnyOrder(b, q, Always());
    var x, y := Process(Outcome(b, []), p, Always()).bank.devices, Process(Outcome(b, []), q, Always()).bank.devices;
    hide Process, Agree, BatchOk, PendingOk;
    assert DevicesOk(b, x, [], Always()) && DevicesOk(b, y, [], Always());
    forall d | d in b.devices
      ensures x[d] == y[d]
    {
      ChangedAlike(b, x, y, d);
      ChangedAlike(b, y, x, d);
    }
  }

  /** The iteration order is irrelevant for the devices exactly when pending tags of the same device agree. */
  lemma OrderIsIrrelevant<V(!new)>(b: Bank<V>)
    ensures (forall p, q | Enumerates(p, b.updated) && Enumerates(q, b.updated) :: SameDevices(b, p, q)) <==> Agree(b)
  {
    if Agree(b) {
      forall p, q | Enumerates(p, b.updated) && Enumerates(q, b.updated)
        ensures SameDevices(b, p, q)
      {
        AgreeingOrders(b, p, q);
      }
    } else {
      var s, t :| s in b.updated && t in b.updated && Target(b, s).Some? && Target(b, s) == Target(b, t)
        && b.updated[s] != b.updated[t];
      var p, q := OrderMatters(b, s, t);
      assert !SameDevices(b, p, q);
    }
  }

  // A whole cycle.

  /** Freeze, logic, outputs, unfreeze: updates is what logic and others write during the freeze. */
  function Cycle<V(==)>(b: Bank<V>, updates: seq<(Name, V)>, order: seq<Name>, accepts: (Name, V) -> bool): Outcome<V>
    requires Enumerates(order, b.updated)
  {
    var o := Process(Outcome(b, []), order, accepts);
    Outcome(Merge(o.bank, OverlayTags(b, NoOverlay(), updates)), o.batch)
  }

  /**
   Freezing defers by one cycle: the cycle sends what was pending before it and nothing of what logic
   writes in it, and leaves the memory as if logic had run after the outputs.
   */
  lemma FreezeDefers<V>(b: Bank<V>, updates: seq<(Name, V)>, order: seq<Name>, accepts: (Name, V) -> bool)
    requires Enumerates(order, b.updated)
    ensures Cycle(b, updates, order, accepts).batch == Cycle(b, [], order, accepts).batch
    ensures Cycle(b, updates, order, accepts).bank == UpdateTags(Process(Outcome(b, []), order, accepts).bank, updates)
  {
    var o := Process(Outcome(b, []), order, accepts);
    ProcessFrame(Outcome(b, []), order, accepts);
    OverlayIgnoresValues(b, o.bank, NoOverlay(), updates);
    MergeReplays(o.bank, NoOverlay(), updates);
    assert o.bank.updated + map[] == o.bank.updated && o.bank.internal + map[] == o.bank.internal;
  }

  /** The last value written to a tag, if any. */
  function LastValue<V>(updates: seq<(Name, V)>, tag: Name): Option<V>
    decreases |updates|
  {
    if updates == [] then None
    else if updates[|updates| - 1].0 == tag then Some(updates[|updates| - 1].1)
    else LastValue(updates[..|updates| - 1], tag)
  }

  lemma {:induction false} UpdateTagsAppend<V>(b: Bank<V>, updates: seq<(Name, V)>, tag: Name, value: V)
    ensures UpdateTags(b, updates + [(tag, value)]) == UpdateTag(UpdateTags(b, updates), tag, value)
    decreases |updates|
  {
    if updates == [] {
      assert updates + [(tag, value)] == [(tag, value)] && [(tag, value)][1..] == [];
    } else {
      assert (updates + [(tag, value)])[1..] == updates[1..] + [(tag, value)];
      UpdateTagsAppend(UpdateTag(b, updates[0].0, updates[0].1), updates[1..], tag, value);
    }
  }

  /** The last writer of a tag wins, and internal tags never become pending. */
  lemma {:induction false} LastWriterWins<V>(b: Bank<V>, updates: seq<(Name, V)>, tag: Name)
    ensures var c := UpdateTags(b, updates);
      && c.tags == b.tags && c.modules == b.modules && c.devices == b.devices && c.internal.Keys == b.internal.Keys
      && (LastValue(updates, tag) == None ==>
          (tag in c.updated <==> tag in b.updated) && (tag in c.updated ==> c.updated[tag] == b.updated[tag]))
      && (LastValue(updates, tag).Some? && tag in b.tags ==>
          tag in c.updated && c.updated[tag] == LastValue(updates, tag).value)
      && (LastValue(updates, tag).Some? && tag !in b.tags && tag in b.internal ==>
          c.internal[tag] == LastValue(updates, tag).value)
    decreases |updates|
  {
    if updates != [] {
      var n := |updates| - 1;
      var front, last := updates[..n], updates[n];
      assert updates == front + [(last.0, last.1)];
      LastWriterWins(b, front, tag);
      UpdateTagsAppend(b, front, last.0, last.1);
    }
  }

  // Between two cycles.

  /** A tag is written while nothing is frozen, or the input module sets a device to a published value. */
  datatype Event<V> = TagWritten(tag: Name, value: V) | DeviceSet(device: Name, state: V)

  function Happens<V>(b: Bank<V>, e: Event<V>): Bank<V> {
    match e
    case TagWritten(tag, value) => UpdateTag(b, tag, value)
    case DeviceSet(d, v) => if d in b.devices then b.(devices := b.devices[d := v]) else b
  }

  function Happen<V>(b: Bank<V>, events: seq<Event<V>>): Bank<V>
    decreases |events|
  {
    if events == [] then b else Happens(Happen(b, events[..|events| - 1]), events[|events| - 1])
  }

  /** The tags written, in order. */
  function Writes<V>(events: seq<Event<V>>): seq<(Name, V)>
    decreases |events|
  {
    if events == [] then []
    else
      var e := events[|events| - 1];
      Writes(events[..|events| - 1]) + if e.TagWritten? then [(e.tag, e.value)] else []
  }

  /** The devices set, in order. */
  function Sets<V>(events: seq<Event<V>>): seq<(Name, V)>
    decreases |events|
  {
    if events == [] then []
    else
      var e := events[|events| - 1];
      Sets(events[..|events| - 1]) + if e.DeviceSet? then [(e.device, e.state)] else []
  }

  lemma LastValueAppend<V>(updates: seq<(Name, V)>, tag: Name, value: V, t: Name)
    ensures LastValue(updates + [(tag, value)], t) == if t == tag then Some(value) else LastValue(updates, t)
  {
    assert (updates + [(tag, value)])[..|updates|] == updates;
  }

  /** The tags end as if the writes had come right after the earlier updates. */
  lemma {:induction false} EventsReplay<V>(b: Bank<V>, updates: seq<(Name, V)>, events: seq<Event<V>>)
    ensures var m := Happen(UpdateTags(b, updates), events);
      m == UpdateTags(b, updates + Writes(events)).(devices := m.devices)
    decreases |events|
  {
    if events == [] {
      assert updates + Writes(events) == updates;
    } else {
      var front, e := events[..|events| - 1], events[|events| - 1];
      EventsReplay(b, updates, front);
      if e.TagWritten? {
        UpdateTagsAppend(b, updates + Writes(front), e.tag, e.value);
        assert updates + Writes(events) == updates + Writes(front) + [(e.tag, e.value)];
      } else {
        assert updates + Writes(events) == updates + Writes(front);
      }
    }
  }

  /** Each device holds what it was last set to, if it was set. */
  lemma {:induction false} DevicesAfter<V>(c: Bank<V>, events: seq<Event<V>>, d: Name)
    ensures var m := Happen(c, events);
      && (d in m.devices <==> d in c.devices)
      && (d in c.devices ==>
          m.devices[d] == match LastValue(Sets(events), d) { case Some(v) => v case None => c.devices[d] })
    decreases |events|
  {
    if events != [] {
      var front, e := events[..|events| - 1], events[|events| - 1];
      DevicesAfter(c, front, d);
      if e.DeviceSet? {
        LastValueAppend(Sets(front), e.device, e.state, d);
      } else {
        assert Sets(events) == Sets(front);
      }
      hide LastValue;
    }
  }

  // Two cycles.

  /** A visited tag stays pending only if it has no device. */
  lemma {:induction false} VisitedTags<V>(o: Outcome<V>, order: seq<Name>)
    requires NoRepeat(order) && forall t | t in order :: t in o.bank.updated
    ensures forall t | t in order && t in Process(o, order, Always()).bank.updated :: Target(o.bank, t) == None
    decreases |order|
  {
    if order != [] {
      var t, o' := order[0], ProcessTag(o, order[0], Always());
      NoRepeatRest(order);
      ProcessTagFrame(o, t, Always());
      ProcessFrame(o', order[1..], Always());
      assert forall s :: Target(o'.bank, s) == Target(o.bank, s);
      assert t in o'.bank.updated ==> Target(o.bank, t) == None;
      VisitedTags(o', order[1..]);
      assert forall s | s in order :: s == t || s in order[1..];
    }
  }

  /** Tags of the same device were last written with the same value. */
  ghost predicate WritersAgree<V>(b: Bank<V>, updates: seq<(Name, V)>) {
    forall s, t | LastValue(updates, s).Some? && LastValue(updates, t).Some? && Target(b, s).Some?
      && Target(b, s) == Target(b, t) ::
      LastValue(updates, s) == LastValue(updates, t)
  }

  /** The updates asked for value v of device d. */
  ghost predicate Asks<V>(b: Bank<V>, updates: seq<(Name, V)>, d: Name, v: V) {
    exists t :: Target(b, t) == Some(d) && LastValue(updates, t) == Some(v)
  }

  /** What was written during a cycle or after it. */
  function Written<V>(updates: seq<(Name, V)>, events: seq<Event<V>>): seq<(Name, V)> {
    updates + Writes(events)
  }

  /** The memory when the next cycle starts. */
  function NextStart<V(==)>(b: Bank<V>, updates: seq<(Name, V)>, order: seq<Name>, events: seq<Event<V>>): Bank<V>
    requires Enumerates(order, b.updated)
  {
    Happen(Cycle(b, updates, order, Always()).bank, events)
  }

  /** Then the pending tags that have a device are those written since the cycle began, with their last values. */
  lemma PendingAfterCycle<V>(b: Bank<V>, updates: seq<(Name, V)>, order: seq<Name>, events: seq<Event<V>>, t: Name)
    requires Enumerates(order, b.updated)
    ensures var m, all := NextStart(b, updates, order, events), Written(updates, events);
      && m.devices.Keys == b.devices.Keys && Target(m, t) == Target(b, t)
      && (Target(b, t).Some? ==>
            (t in m.updated <==> LastValue(all, t).Some?)
              && (t in m.updated ==> Some(m.updated[t]) == LastValue(all, t)))
  {
    var sent := Process(Outcome(b, []), order, Always()).bank;
    FreezeDefers(b, updates, order, Always());
    ProcessFrame(Outcome(b, []), order, Always());
    VisitedTags(Outcome(b, []), order);
    EventsReplay(sent, updates, events);
    forall d ensures d in Happen(UpdateTags(sent, updates), events).devices <==> d in sent.devices {
      DevicesAfter(UpdateTags(sent, updates), events, d);
    }
    LastWriterWins(sent, updates, t);
    LastWriterWins(sent, Written(updates, events), t);
    hide Process, Cycle, LastValue, UpdateTags, Happen, Writes, Sets;
  }

  lemma PendingTags<V>(b: Bank<V>, updates: seq<(Name, V)>, order: seq<Name>, events: seq<Event<V>>)
    requires Enumerates(order, b.updated)
    ensures var m, all := NextStart(b, updates, order, events), Written(updates, events);
      && m.devices.Keys == b.devices.Keys && (forall t :: Target(m, t) == Target(b, t))
      && (forall t | Target(b, t).Some? :: t in m.updated <==> LastValue(all, t).Some?)
      && (forall t | Target(b, t).Some? && t in m.updated :: Some(m.updated[t]) == LastValue(all, t))
  {
    hide *;
    var m, all := NextStart(b, updates, order, events), Written(updates, events);
    PendingAfterCycle(b, updates, order, events, "");
    forall t
      ensures Target(m, t) == Target(b, t)
      ensures Target(b, t).Some? ==> (t in m.updated <==> LastValue(all, t).Some?)
      ensures Target(b, t).Some? && t in m.updated ==> Some(m.updated[t]) == LastValue(all, t)
    {
      PendingAfterCycle(b, updates, order, events, t);
    }
  }

  /**
   What is written during one cycle or before the next one is what the next one sends: its batch holds
   exactly the values last written to tags of a device that differ from what the device holds by then,
   each device once.
   */
  lemma NextCycleSends<V>(b: Bank<V>, updates: seq<(Name, V)>, order: seq<Name>, events: seq<Event<V>>, next: seq<Name>)
    requires Enumerates(order, b.updated) && WritersAgree(b, Written(updates, events))
    requires Enumerates(next, NextStart(b, updates, order, events).updated)
    ensures var m := NextStart(b, updates, order, events);
      var batch := Process(Outcome(m, []), next, Always()).batch;
      && m.devices.Keys == b.devices.Keys
      && (forall d, v ::
          (d, v) in batch <==> d in b.devices && v != m.devices[d] && Asks(b, Written(updates, events), d, v))
      && (forall i, j | 0 <= i < j < |batch| :: batch[i].0 != batch[j].0)
  {
    var m := NextStart(b, updates, order, events);
    PendingTags(b, updates, order, events);
    hide Process, NextStart, Written, LastValue;
    assert Agree(m);
    AnyOrder(m, next, Always());
    SentAsAsked(b, Written(updates, events), m, Process(Outcome(m, []), next, Always()));
  }

  lemma SentAsAsked<V>(b: Bank<V>, updates: seq<(Name, V)>, c: Bank<V>, o: Outcome<V>)
    requires c.devices.Keys == b.devices.Keys && Done(c, o, [], Always())
    requires forall t :: Target(c, t) == Target(b, t)
    requires forall t | Target(b, t).Some? :: t in c.updated <==> LastValue(updates, t).Some?
    requires forall t | Target(b, t).Some? && t in c.updated :: Some(c.updated[t]) == LastValue(updates, t)
    ensures forall d, v :: (d, v) in o.batch <==> d in b.devices && v != c.devices[d] && Asks(b, updates, d, v)
  {
    assert o.bank.devices.Keys == c.devices.Keys;
    hide LastValue, SameFrame, PendingOk;
    forall d, v | (d, v) in o.batch
      ensures d in b.devices && v != c.devices[d] && Asks(b, updates, d, v)
    {
      var t :| t !in [] && Changes(c, t, d, Always());
      assert Target(b, t) == Some(d) && LastValue(updates, t) == Some(v);
    }
    forall d, v | d in b.devices && v != c.devices[d] && Asks(b, updates, d, v)
      ensures (d, v) in o.batch
    {
      var t :| Target(b, t) == Some(d) && LastValue(updates, t) == Some(v);
      assert t !in [] && Changes(c, t, d, Always());
      assert o.bank.devices[d] == v;
    }
  }

  // And whether the writers agree or not:

  /** Some tag in the list has device d and pending value x. */
  ghost predicate Offers<V>(b: Bank<V>, tags: seq<Name>, d: Name, x: V) {
    exists t :: t in tags && t in b.updated && Target(b, t) == Some(d) && b.updated[t] == x
  }

  /** A device with a visited tag ends with the value of one of them, any other keeps its value. */
  lemma {:induction false} VisitedDevice<V>(o: Outcome<V>, order: seq<Name>, d: Name)
    requires NoRepeat(order) && (forall t | t in order :: t in o.bank.updated) && d in o.bank.devices
    ensures var r := Process(o, order, Always()).bank.devices;
      d in r && if exists t :: t in order && Target(o.bank, t) == Some(d) then Offers(o.bank, order, d, r[d])
        else r[d] == o.bank.devices[d]
    decreases |order|
  {
    if order != [] {
      var t, o' := order[0], ProcessTag(o, order[0], Always());
      NoRepeatRest(order);
      ProcessTagFrame(o, t, Always());
      assert forall s :: Target(o'.bank, s) == Target(o.bank, s);
      assert o'.bank.devices[d] == if Target(o.bank, t) == Some(d) then o.bank.updated[t] else o.bank.devices[d];
      hide Target;
      VisitedDevice(o', order[1..], d);
      var x := Process(o', order[1..], Always()).bank.devices[d];
      if exists s :: s in order[1..] && Target(o.bank, s) == Some(d) {
        var s :| s in order[1..] && s in o'.bank.updated && Target(o'.bank, s) == Some(d) && o'.bank.updated[s] == x;
        assert s in order;
      } else {
        assert forall s | s in order :: s == t || s in order[1..];
      }
    }
  }

  /**
   A device with a tag that was written to since the cycle began holds after the next one a value it
   was asked for; any other is as it was by then.
   */
  lemma NextCycleSets<V>(b: Bank<V>, updates: seq<(Name, V)>, order: seq<Name>, events: seq<Event<V>>,
                         next: seq<Name>, d: Name)
    requires Enumerates(order, b.updated) && d in b.devices
    requires Enumerates(next, NextStart(b, updates, order, events).updated)
    ensures var m, all := NextStart(b, updates, order, events), Written(updates, events);
      var after := Process(Outcome(m, []), next, Always()).bank.devices;
      && d in m.devices && d in after
      && if exists v :: Asks(b, all, d, v) then Asks(b, all, d, after[d]) else after[d] == m.devices[d]
  {
    var m, all := NextStart(b, updates, order, events), Written(updates, events);
    PendingTags(b, updates, order, events);
    hide Process, NextStart, Written, LastValue, Target;
    VisitedDevice(Outcome(m, []), next, d);
    forall t | t in next && Target(m, t) == Some(d)
      ensures exists v :: Asks(b, all, d, v)
    {
      assert Asks(b, all, d, m.updated[t]);
    }
    if v :| Asks(b, all, d, v) {
      var t :| Target(b, t) == Some(d) && LastValue(all, t) == Some(v);
      assert t in next;
    }
  }
}
