/** What every interleaving of the solver and the provider keeps, and what follows for readers and writers. */
module SolverSafety {
  import opened Wrappers
  import opened SolverProtocol
  import opened Sequences

  // Who holds what. Until init posts them, the solver counts as holding both semaphores.

  predicate SolverHoldsPublish(pc: SolverPc) {
    pc.InitPublishing? || pc.Publishing?
  }

  predicate SolverHoldsUpdates(pc: SolverPc) {
    pc.InitPublishing? || pc.InitPostUpdates? || pc.Draining? || pc.PostUpdates?
  }

  predicate ReaderHoldsPublish(r: Option<ReaderPc>) {
    r.Some? && r.value.Scanning?
  }

  predicate ReaderHoldsMutex(r: Option<ReaderPc>) {
    r.Some? && !r.value.WantLock?
  }

  predicate WriterHoldsMutex(pc: ServerPc) {
    pc.Writing? && (pc.w.Putting? || pc.w.Releasing?)
  }

  function Count(b: bool): nat {
    if b then 1 else 0
  }

  /** How many threads of the provider hold the publish semaphore. */
  function ProviderHolders(server: ServerPc, publisher: PublisherPc): nat {
    Count(server == BootAttach) + Count(ReaderHoldsPublish(ServerReader(server)))
    + Count(ReaderHoldsPublish(PublisherReader(publisher)))
  }

  /** The mutex names its holder, and the publisher runs only once the server has booted. */
  predicate MutexOk(mutex: Option<Thread>, server: ServerPc, publisher: PublisherPc) {
    && (server == BootWait || server == BootAttach ==> publisher == NotStarted)
    && (ReaderHoldsMutex(ServerReader(server)) || WriterHoldsMutex(server) <==> mutex == Some(Server))
    && (ReaderHoldsMutex(PublisherReader(publisher)) <==> mutex == Some(Publisher))
  }

  /** Each semaphore's value plus its holders is 1, and the mutex names its holder. */
  predicate Locked(l: Locks, ts: Threads) {
    && l.publish + Count(SolverHoldsPublish(ts.solver)) + ProviderHolders(ts.server, ts.publisher) == 1
    && l.updates + Count(SolverHoldsUpdates(ts.solver)) + Count(ts.server.Writing?) == 1
    && MutexOk(l.mutex, ts.server, ts.publisher)
  }

  /** The slots are the latest publication, except that the one being written is complete up to i only. */
  predicate SlotsOk(m: Memory, pc: SolverPc)
    requires Shaped(m)
  {
    match pc
    case InitPublishing(i) => i <= |m.slots| && |m.publications| == 1 && m.slots[..i] == Latest(m)[..i]
    case Publishing(i) =>
      && i <= |m.slots| && |m.publications| > 1
      && m.slots == Latest(m)[..i] + m.publications[|m.publications| - 2][i..]
    case _ => m.slots == Latest(m)
  }

  /** What a complete scan of a snapshot sees. */
  function ScanOf(scan: Scan, snapshot: Snapshot): Snapshot {
    if snapshot == [] then []
    else if scan == UntilTag(snapshot[0].name) then [snapshot[0]]
    else [snapshot[0]] + ScanOf(scan, snapshot[1..])
  }

  /** seen is an unfinished or just finished scan of the snapshot. */
  predicate ScanPrefix(scan: Scan, seen: Snapshot, snapshot: Snapshot) {
    && seen <= snapshot
    && forall j | 0 <= j < |seen| - 1 :: scan != UntilTag(seen[j].name)
  }

  predicate ReaderOk(m: Memory, r: Option<ReaderPc>)
    requires Shaped(m)
  {
    match r
    case Some(Scanning(scan, seen, k)) => k == |m.publications| - 1 && ScanPrefix(scan, seen, Latest(m))
    case Some(Unlocking(scan, seen, k)) => k < |m.publications| && seen == ScanOf(scan, m.publications[k])
    case _ => true
  }

  predicate ObservationsOk(os: seq<Observation>, publications: seq<Snapshot>) {
    forall o | o in os :: o.k < |publications| && o.seen == ScanOf(o.scan, publications[o.k])
  }

  /** The records of one write request that are in the queue so far stand together from start on. */
  predicate Together(accepted: seq<Update>, batch: seq<Update>, start: nat, done: nat) {
    && done <= |batch| && start + done <= |accepted|
    && accepted[start..start + done] == batch[..done]
  }

  predicate ServerOk(q: Queue, pc: ServerPc) {
    pc.Writing? ==>
      && Together(q.accepted, pc.batch, pc.start, pc.done)
      && pc.start + pc.done == |q.accepted| && |q.consumed| <= pc.start
      && (pc.w.Putting? ==> pc.done < |pc.batch|)
  }

  predicate QueueOk(q: Queue, pc: SolverPc) {
    && q.accepted == q.consumed + q.fifo
    && (forall c | c in q.cuts :: c <= |q.consumed|)
    && (pc.PostUpdates? ==> q.fifo == [])
  }

  /** No step of the solver ended between two records of the same request. */
  predicate BatchesOk(q: Queue) {
    forall b | b in q.batches ::
      && Together(q.accepted, b.records, b.start, b.done)
      && (b.acked ==> b.done == |b.records|)
      && forall c | c in q.cuts :: !(b.start < c < b.start + b.done)
  }

  /** What readers and the solver keep about the slots. */
  predicate MemoryOk(m: Memory, ts: Threads, os: seq<Observation>) {
    && Shaped(m) && SlotsOk(m, ts.solver)
    && ReaderOk(m, ServerReader(ts.server)) && ReaderOk(m, PublisherReader(ts.publisher))
    && ObservationsOk(os, m.publications)
  }

  /** What the writer and the solver keep about the queue. */
  predicate RecordsOk(q: Queue, ts: Threads) {
    ServerOk(q, ts.server) && QueueOk(q, ts.solver) && BatchesOk(q)
  }

  /** Everything the threads keep between them. */
  predicate Inv(s: State) {
    && Locked(s.locks, s.threads)
    && MemoryOk(s.memory, s.threads, s.observations)
    && RecordsOk(s.queue, s.threads)
  }

  lemma InitialInv(s: State)
    requires Initial(s)
    ensures Inv(s)
  {
  }

  lemma SlotWritten<T>(last: seq<T>, prev: seq<T>, slots: seq<T>, i: nat)
    requires |last| == |prev| == |slots| && i < |slots|
    ensures slots == last[..i] + prev[i..] ==> slots[i := last[i]] == last[..i + 1] + prev[i + 1..]
    ensures slots[..i] == last[..i] ==> slots[i := last[i]][..i + 1] == last[..i + 1]
  {
    if slots[..i] == last[..i] {
      forall j | 0 <= j < i ensures slots[j] == last[j] {
        assert slots[..i][j] == last[..i][j];
      }
    }
  }

  /** The solver's writes to the slots, one at a time, and its publications. */
  lemma SlotsStep(s: State, a: SolverAction)
    requires Shaped(s.memory) && SlotsOk(s.memory, s.threads.solver) && SolverEnabled(s, a)
    ensures var s' := SolverApply(s, a); Shaped(s'.memory) && SlotsOk(s'.memory, s'.threads.solver)
  {
    var m, pc := s.memory, s.threads.solver;
    match a
    case PublishSlot => SlotWritten(Latest(m), m.publications[|m.publications| - 2], m.slots, pc.i);
    case InitSlot => SlotWritten(Latest(m), m.slots, m.slots, pc.i);
    case InitPublishDone => assert m.slots[..|m.slots|] == m.slots && Latest(m)[..|m.slots|] == Latest(m);
    case PublishDone => assert Latest(m)[..|m.slots|] == Latest(m);
    case TakePublish(snapshot) =>
      var n := |m.publications|;
      assert (m.publications + [snapshot])[n - 1] == Latest(m);
      assert m.slots == snapshot[..0] + Latest(m)[0..];
    case _ =>
  }

  /** A reader that is not scanning does not depend on which publication is the latest. */
  lemma ReaderKeeps(m: Memory, m': Memory, r: Option<ReaderPc>)
    requires Shaped(m) && Shaped(m') && ReaderOk(m, r)
    requires m'.publications == m.publications || (!ReaderHoldsPublish(r) && m.publications <= m'.publications)
    ensures ReaderOk(m', r)
  {
    hide ScanOf, ScanPrefix;
  }

  lemma ObservationsKeep(os: seq<Observation>, before: seq<Snapshot>, after: seq<Snapshot>)
    requires ObservationsOk(os, before) && before <= after
    ensures ObservationsOk(os, after)
  {
    hide ScanOf;
  }

  lemma PublicationsGrow(s: State, a: SolverAction)
    requires Shaped(s.memory) && SolverEnabled(s, a)
    ensures var s' := SolverApply(s, a);
      && s.memory.publications <= s'.memory.publications && s'.observations == s.observations
      && s'.threads.server == s.threads.server && s'.threads.publisher == s.threads.publisher
    ensures !a.TakePublish? ==> SolverApply(s, a).memory.publications == s.memory.publications
    ensures a.TakePublish? ==> s.locks.publish > 0
  {
  }

  lemma SolverMemory(s: State, a: SolverAction)
    requires Inv(s) && SolverEnabled(s, a)
    ensures MemoryOk(SolverApply(s, a).memory, SolverApply(s, a).threads, SolverApply(s, a).observations)
  {
    var m, m' := s.memory, SolverApply(s, a).memory;
    SlotsStep(s, a);
    PublicationsGrow(s, a);
    if a.TakePublish? {
      NoReaders(s);
    }
    ReaderKeeps(m, m', ServerReader(s.threads.server));
    ReaderKeeps(m, m', PublisherReader(s.threads.publisher));
    ObservationsKeep(s.observations, m.publications, m'.publications);
    hide SlotsOk, Shaped, ReaderOk, ObservationsOk, SolverApply, SolverEnabled, Locked, RecordsOk;
  }

  lemma SolverStep(s: State, a: SolverAction)
    requires Inv(s) && SolverEnabled(s, a)
    ensures Inv(SolverApply(s, a))
  {
    SolverMemory(s, a);
    SolverLocked(s, a);
    SolverQueue(s, a);
    hide MemoryOk, RecordsOk, Locked, SolverApply, SolverEnabled;
  }

  lemma SolverLocked(s: State, a: SolverAction)
    requires Shaped(s.memory) && Locked(s.locks, s.threads) && SolverEnabled(s, a)
    ensures Locked(SolverApply(s, a).locks, SolverApply(s, a).threads)
  {
    hide MutexOk, ProviderHolders;
  }

  /** Nobody reads the slots when the solver takes the publish semaphore. */
  lemma NoReaders(s: State)
    requires Locked(s.locks, s.threads) && s.locks.publish > 0
    ensures !ReaderHoldsPublish(ServerReader(s.threads.server))
      && !ReaderHoldsPublish(PublisherReader(s.threads.publisher))
  {
  }

  lemma SolverQueue(s: State, a: SolverAction)
    requires Shaped(s.memory) && Locked(s.locks, s.threads) && RecordsOk(s.queue, s.threads) && SolverEnabled(s, a)
    ensures RecordsOk(SolverApply(s, a).queue, SolverApply(s, a).threads)
  {
    hide Together, MutexOk, ProviderHolders;
    match a
    case Consume =>
      var q := s.queue;
      assert q.consumed + q.fifo == q.consumed + [q.fifo[0]] + q.fifo[1..];
    case Drained =>
      assert |s.queue.consumed| == |s.queue.accepted|;
      BatchesEnd(s.queue);
    case _ =>
  }

  lemma BatchesEnd(q: Queue)
    requires BatchesOk(q)
    ensures forall b | b in q.batches :: b.start + b.done <= |q.accepted|
  {
  }

  /** One more record of the batch at the end of the queue. */
  lemma PutKeeps(q: Queue, x: Update)
    requires BatchesOk(q)
    ensures BatchesOk(q.(fifo := q.fifo + [x], accepted := q.accepted + [x]))
    ensures forall batch: seq<Update>, start: nat, done: nat ::
      Together(q.accepted, batch, start, done) && start + done == |q.accepted| && done < |batch| && batch[done] == x
      ==> Together(q.accepted + [x], batch, start, done + 1)
  {
    forall b | b in q.batches ensures Together(q.accepted + [x], b.records, b.start, b.done) {
      assert (q.accepted + [x])[b.start..b.start + b.done] == q.accepted[b.start..b.start + b.done];
    }
    forall batch: seq<Update>, start: nat, done: nat |
      Together(q.accepted, batch, start, done) && start + done == |q.accepted| && done < |batch| && batch[done] == x
      ensures Together(q.accepted + [x], batch, start, done + 1)
    {
      assert (q.accepted + [x])[start..start + done + 1] == q.accepted[start..start + done] + [x];
      assert batch[..done + 1] == batch[..done] + [x];
    }
  }

  lemma ServerStep(s: State, a: ServerAction)
    requires Inv(s) && ServerEnabled(s, a)
    ensures Inv(ServerApply(s, a))
  {
    ServerLocked(s, a);
    hide SlotsOk, QueueOk, BatchesOk, ObservationsOk, Locked, Shaped;
  }

  lemma ServerLocked(s: State, a: ServerAction)
    requires Locked(s.locks, s.threads) && ServerEnabled(s, a)
    ensures Locked(ServerApply(s, a).locks, ServerApply(s, a).threads)
  {
    hide SolverHoldsPublish, SolverHoldsUpdates;
  }

  lemma {:induction false} ScanFinishes(scan: Scan, seen: Snapshot, snapshot: Snapshot)
    requires ScanPrefix(scan, seen, snapshot) && ScanDone(scan, seen, |snapshot|)
    ensures seen == ScanOf(scan, snapshot)
    decreases |seen|
  {
    if |seen| > 1 {
      assert scan != UntilTag(seen[0].name);
      ScanFinishes(scan, seen[1..], snapshot[1..]);
    } else if |seen| == 1 && scan != UntilTag(seen[0].name) {
      assert snapshot[1..] == [];
    }
  }

  /** While a reader scans, the solver is not writing, so the slots are the latest publication. */
  lemma ScanSeesLatest(s: State, t: Thread)
    requires Locked(s.locks, s.threads) && Shaped(s.memory) && SlotsOk(s.memory, s.threads.solver)
    requires ReaderHoldsPublish(ReaderOf(s.threads, t))
    ensures s.memory.slots == Latest(s.memory)
  {
  }

  /** The reader that moves keeps its own part. */
  lemma ReaderMoves(s: State, t: Thread, a: ReaderAction)
    requires Shaped(s.memory) && ReaderEnabled(s, t, a) && ReaderOk(s.memory, ReaderOf(s.threads, t))
    requires ReaderHoldsPublish(ReaderOf(s.threads, t)) ==> s.memory.slots == Latest(s.memory)
    ensures ReaderOk(s.memory, ReaderOf(ReaderApply(s, t, a).threads, t))
  {
    var r := ReaderOf(s.threads, t).value;
    if a.ScanFinished? {
      ScanFinishes(r.scan, r.seen, Latest(s.memory));
    }
    hide ScanOf;
  }

  lemma ReaderObserves(s: State, t: Thread, a: ReaderAction)
    requires Shaped(s.memory) && ReaderEnabled(s, t, a) && ReaderOk(s.memory, ReaderOf(s.threads, t))
    requires ObservationsOk(s.observations, s.memory.publications)
    ensures ObservationsOk(ReaderApply(s, t, a).observations, s.memory.publications)
  {
    hide ScanOf, ScanPrefix, Shaped;
  }

  /** What a reader's step leaves alone. */
  lemma ReaderFrame(s: State, t: Thread, a: ReaderAction)
    requires Shaped(s.memory) && ReaderEnabled(s, t, a)
    ensures var s' := ReaderApply(s, t, a);
      && s'.memory == s.memory && s'.queue == s.queue && s'.threads.solver == s.threads.solver
      && (t == Server ==> s'.threads.publisher == s.threads.publisher && !s'.threads.server.Writing?)
      && (t == Publisher ==> s'.threads.server == s.threads.server)
  {
    hide Shaped, ScanDone;
  }

  lemma ReaderStep(s: State, t: Thread, a: ReaderAction)
    requires Inv(s) && ReaderEnabled(s, t, a)
    ensures Inv(ReaderApply(s, t, a))
  {
    if ReaderHoldsPublish(ReaderOf(s.threads, t)) {
      ScanSeesLatest(s, t);
    }
    ReaderMoves(s, t, a);
    ReaderObserves(s, t, a);
    ReaderFrame(s, t, a);
    ReaderLocked(s, t, a);
    hide Shaped, SlotsOk, QueueOk, BatchesOk, Locked, ReaderOk, ObservationsOk, ReaderApply, ReaderEnabled;
  }

  lemma ReaderLocked(s: State, t: Thread, a: ReaderAction)
    requires Shaped(s.memory) && Locked(s.locks, s.threads) && ReaderEnabled(s, t, a)
    ensures Locked(ReaderApply(s, t, a).locks, ReaderApply(s, t, a).threads)
  {
    hide SolverHoldsPublish, SolverHoldsUpdates, Shaped, ScanDone;
  }

  lemma WriterLocked(s: State, a: WriterAction)
    requires Locked(s.locks, s.threads) && WriterEnabled(s, a)
    ensures Locked(WriterApply(s, a).locks, WriterApply(s, a).threads)
  {
    hide SolverHoldsPublish, SolverHoldsUpdates;
  }

  lemma WriterRecords(s: State, a: WriterAction)
    requires Locked(s.locks, s.threads) && RecordsOk(s.queue, s.threads) && WriterEnabled(s, a)
    ensures RecordsOk(WriterApply(s, a).queue, WriterApply(s, a).threads)
  {
    if a == Put(true) {
      var v := s.threads.server;
      PutKeeps(s.queue, v.batch[v.done]);
      Assoc(s.queue.consumed, s.queue.fifo, [v.batch[v.done]]);
    }
    assert s.threads.server.Writing? ==> !SolverHoldsUpdates(s.threads.solver);
    assert a.TakeBatch? ==> Together(s.queue.accepted, s.threads.server.batch, |s.queue.accepted|, 0);
    hide Locked, Together;
  }

  lemma WriterMemory(s: State, a: WriterAction)
    requires MemoryOk(s.memory, s.threads, s.observations) && WriterEnabled(s, a)
    ensures MemoryOk(WriterApply(s, a).memory, WriterApply(s, a).threads, WriterApply(s, a).observations)
  {
    hide Shaped, SlotsOk, ObservationsOk;
  }

  lemma WriterStep(s: State, a: WriterAction)
    requires Inv(s) && WriterEnabled(s, a)
    ensures Inv(WriterApply(s, a))
  {
    WriterMemory(s, a);
    WriterRecords(s, a);
    WriterLocked(s, a);
    hide MemoryOk, RecordsOk, Locked, WriterApply, WriterEnabled;
  }

  lemma InvStep(s: State, a: Action)
    requires Inv(s) && Enabled(s, a)
    ensures Inv(Apply(s, a))
  {
    match a
    case BySolver(x) => SolverStep(s, x);
    case ByServer(x) => ServerStep(s, x);
    case ByReader(t, x) => ReaderStep(s, t, x);
    case ByWriter(x) => WriterStep(s, x);
  }
}
