/**
 The shared-memory protocol between the Simulink solver process and its provider: a solver thread
 (modelHooks.c), the provider's server thread and its publisher thread (the provider's main.cpp),
 two semaphores, one mutex, the slot array and the record queue. Each action below is one atomic
 step; a run is any interleaving of them, before the solver's term hook.
 */
module SolverProtocol {
  import opened Wrappers

  /** One published point: the name a reader sees and its data. */
  datatype Slot = Slot(name: string, data: string)

  type Snapshot = seq<Slot>

  /** One update record of the queue. */
  datatype Update = Update(tag: string, data: string)

  /** What a reader scans for: query and publishData take all slots, read stops at its tag. */
  datatype Scan = AllSlots | UntilTag(tag: string)

  datatype SolverPc =
    | InitPublishing(i: nat)
    | InitPostUpdates
    | Computing
    | WantPublish
    | Publishing(i: nat)
    | WantUpdates
    | Draining
    | PostUpdates

  /** A thread inside query, read or publishData. seen is what it has copied, of publication number k. */
  datatype ReaderPc =
    | WantLock(scan: Scan)
    | WantSlots(scan: Scan)
    | Scanning(scan: Scan, seen: Snapshot, k: nat)
    | Unlocking(scan: Scan, seen: Snapshot, k: nat)

  /** The server inside write, after done records that start at number start of all records accepted. */
  datatype WriterPc = Next | Putting | Releasing(failed: bool) | Ending

  datatype ServerPc =
    | BootWait
    | BootAttach
    | Waiting
    | Reading(r: ReaderPc)
    | WantBatch(batch: seq<Update>)
    | Writing(w: WriterPc, batch: seq<Update>, done: nat, start: nat)

  datatype PublisherPc = NotStarted | Sleeping | Sending(r: ReaderPc)

  datatype Thread = Server | Publisher

  /** A finished scan, and a finished write request: the records it put are accepted[start..start + done]. */
  datatype Observation = Observation(scan: Scan, seen: Snapshot, k: nat)
  datatype Batch = Batch(records: seq<Update>, start: nat, done: nat, acked: bool)

  datatype Locks = Locks(publish: nat, updates: nat, mutex: Option<Thread>)

  datatype Threads = Threads(solver: SolverPc, server: ServerPc, publisher: PublisherPc)

  /** publications lists every snapshot publishState was asked to write; the last one is the newest. */
  datatype Memory = Memory(slots: Snapshot, publications: seq<Snapshot>)

  /**
   All records put into and taken out of the queue so far; cuts are the values of |consumed| at the
   end of each step.
   */
  datatype Queue = Queue(fifo: seq<Update>, accepted: seq<Update>, consumed: seq<Update>, cuts: seq<nat>,
                         batches: seq<Batch>)

  datatype State = State(locks: Locks, threads: Threads, memory: Memory, queue: Queue, observations: seq<Observation>)

  datatype SolverAction =
    | InitSlot
    | InitPublishDone
    | InitDone
    | BeginStep
    | TakePublish(snapshot: Snapshot)
    | PublishSlot
    | PublishDone
    | TakeUpdates
    | Consume
    | Drained
    | StepDone

  datatype ServerAction = TakeBoot | BootDone | StartRead(scan: Scan) | StartWrite(batch: seq<Update>) | WakePublisher

  datatype ReaderAction = TakeLock | TakeSlots | ScanSlot | ScanFinished | ReleaseLock

  datatype WriterAction = TakeBatch | TakeLockToPut | Put(ok: bool) | ReleaseAfterPut | BatchDone

  datatype Action =
    | BySolver(a: SolverAction)
    | ByServer(b: ServerAction)
    | ByReader(who: Thread, r: ReaderAction)
    | ByWriter(w: WriterAction)

  /** Every snapshot has one entry per slot. */
  predicate Shaped(m: Memory) {
    |m.publications| > 0 && forall k | 0 <= k < |m.publications| :: |m.publications[k]| == |m.slots|
  }

  function Latest(m: Memory): Snapshot
    requires Shaped(m)
  {
    m.publications[|m.publications| - 1]
  }

  // The solver: init, then step over and over.

  predicate SolverEnabled(s: State, a: SolverAction) {
    var pc := s.threads.solver;
    match a
    case InitSlot => pc.InitPublishing? && pc.i < |s.memory.slots|
    case InitPublishDone => pc == InitPublishing(|s.memory.slots|)
    case InitDone => pc == InitPostUpdates
    case BeginStep => pc == Computing
    case TakePublish(snapshot) => pc == WantPublish && s.locks.publish > 0 && |snapshot| == |s.memory.slots|
    case PublishSlot => pc.Publishing? && pc.i < |s.memory.slots|
    case PublishDone => pc == Publishing(|s.memory.slots|)
    case TakeUpdates => pc == WantUpdates && s.locks.updates > 0
    case Consume => pc == Draining && s.queue.fifo != []
    case Drained => pc == Draining && s.queue.fifo == []
    case StepDone => pc == PostUpdates
  }

  function SolverPcAfter(pc: SolverPc, a: SolverAction): SolverPc {
    match a
    case InitSlot => if pc.InitPublishing? then InitPublishing(pc.i + 1) else pc
    case InitPublishDone => InitPostUpdates
    case InitDone => Computing
    case BeginStep => WantPublish
    case TakePublish(_) => Publishing(0)
    case PublishSlot => if pc.Publishing? then Publishing(pc.i + 1) else pc
    case PublishDone => WantUpdates
    case TakeUpdates => Draining
    case Consume => Draining
    case Drained => PostUpdates
    case StepDone => Computing
  }

  function SolverApply(s: State, a: SolverAction): State
    requires Shaped(s.memory) && SolverEnabled(s, a)
  {
    var pc := s.threads.solver;
    var t := s.(threads := s.threads.(solver := SolverPcAfter(pc, a)));
    match a
    case InitSlot => t.(memory := s.memory.(slots := s.memory.slots[pc.i := Latest(s.memory)[pc.i]]))
    case PublishSlot => t.(memory := s.memory.(slots := s.memory.slots[pc.i := Latest(s.memory)[pc.i]]))
    case InitPublishDone => t.(locks := s.locks.(publish := s.locks.publish + 1))
    case PublishDone => t.(locks := s.locks.(publish := s.locks.publish + 1))
    case InitDone => t.(locks := s.locks.(updates := s.locks.updates + 1))
    case StepDone => t.(locks := s.locks.(updates := s.locks.updates + 1))
    case BeginStep => t
    case TakePublish(snapshot) =>
      t.(locks := s.locks.(publish := s.locks.publish - 1),
         memory := s.memory.(publications := s.memory.publications + [snapshot]))
    case TakeUpdates => t.(locks := s.locks.(updates := s.locks.updates - 1))
    case Consume => t.(queue := s.queue.(fifo := s.queue.fifo[1..], consumed := s.queue.consumed + [s.queue.fifo[0]]))
    case Drained => t.(queue := s.queue.(cuts := s.queue.cuts + [|s.queue.consumed|]))
  }

  // The provider's threads outside their critical sections.

  predicate ServerEnabled(s: State, a: ServerAction) {
    match a
    case TakeBoot => s.threads.server == BootWait && s.locks.publish > 0
    case BootDone => s.threads.server == BootAttach
    case StartRead(_) => s.threads.server == Waiting
    case StartWrite(_) => s.threads.server == Waiting
    case WakePublisher => s.threads.publisher == Sleeping
  }

  function ServerApply(s: State, a: ServerAction): State
    requires ServerEnabled(s, a)
  {
    match a
    case TakeBoot =>
      s.(locks := s.locks.(publish := s.locks.publish - 1), threads := s.threads.(server := BootAttach))
    case BootDone =>
      s.(locks := s.locks.(publish := s.locks.publish + 1),
         threads := s.threads.(server := Waiting, publisher := Sending(WantLock(AllSlots))))
    case StartRead(scan) => s.(threads := s.threads.(server := Reading(WantLock(scan))))
    case StartWrite(batch) => s.(threads := s.threads.(server := WantBatch(batch)))
    case WakePublisher => s.(threads := s.threads.(publisher := Sending(WantLock(AllSlots))))
  }

  // query, read and publishData: mutex, publish semaphore, slots, release in reverse order.

  function ServerReader(pc: ServerPc): Option<ReaderPc> {
    if pc.Reading? then Some(pc.r) else None
  }

  function PublisherReader(pc: PublisherPc): Option<ReaderPc> {
    if pc.Sending? then Some(pc.r) else None
  }

  function ReaderOf(ts: Threads, t: Thread): Option<ReaderPc> {
    match t
    case Server => ServerReader(ts.server)
    case Publisher => PublisherReader(ts.publisher)
  }

  function WithReader(s: State, t: Thread, r: ReaderPc): State {
    match t
    case Server => s.(threads := s.threads.(server := Reading(r)))
    case Publisher => s.(threads := s.threads.(publisher := Sending(r)))
  }

  function AfterReader(s: State, t: Thread): State {
    match t
    case Server => s.(threads := s.threads.(server := Waiting))
    case Publisher => s.(threads := s.threads.(publisher := Sleeping))
  }

  /** A scan stops at the end of the slots or once its tag has been seen. */
  predicate ScanDone(scan: Scan, seen: Snapshot, n: nat) {
    |seen| >= n || (seen != [] && scan == UntilTag(seen[|seen| - 1].name))
  }

  predicate ReaderEnabled(s: State, t: Thread, a: ReaderAction) {
    match ReaderOf(s.threads, t)
    case None => false
    case Some(r) =>
      match a
      case TakeLock => r.WantLock? && s.locks.mutex == None
      case TakeSlots => r.WantSlots? && s.locks.publish > 0
      case ScanSlot => r.Scanning? && !ScanDone(r.scan, r.seen, |s.memory.slots|)
      case ScanFinished => r.Scanning? && ScanDone(r.scan, r.seen, |s.memory.slots|)
      case ReleaseLock => r.Unlocking?
  }

  function ReaderApply(s: State, t: Thread, a: ReaderAction): State
    requires Shaped(s.memory) && ReaderEnabled(s, t, a)
  {
    var r := ReaderOf(s.threads, t).value;
    match a
    case TakeLock => WithReader(s.(locks := s.locks.(mutex := Some(t))), t, WantSlots(r.scan))
    case TakeSlots =>
      WithReader(s.(locks := s.locks.(publish := s.locks.publish - 1)), t,
                 Scanning(r.scan, [], |s.memory.publications| - 1))
    case ScanSlot => WithReader(s, t, Scanning(r.scan, r.seen + [s.memory.slots[|r.seen|]], r.k))
    case ScanFinished =>
      WithReader(s.(locks := s.locks.(publish := s.locks.publish + 1)), t, Unlocking(r.scan, r.seen, r.k))
    case ReleaseLock =>
      AfterReader(s.(locks := s.locks.(mutex := None), observations := s.observations
                     + [Observation(r.scan, r.seen, r.k)]), t)
  }

  // write: updates semaphore around the batch, mutex around each record.

  predicate WriterEnabled(s: State, a: WriterAction) {
    var v := s.threads.server;
    match a
    case TakeBatch => v.WantBatch? && s.locks.updates > 0
    case TakeLockToPut => v.Writing? && v.w == Next && v.done < |v.batch| && s.locks.mutex == None
    case Put(_) => v.Writing? && v.w == Putting && v.done < |v.batch|
    case ReleaseAfterPut => v.Writing? && v.w.Releasing?
    case BatchDone => v.Writing? && (v.w == Ending || (v.w == Next && v.done >= |v.batch|))
  }

  function WriterApply(s: State, a: WriterAction): State
    requires WriterEnabled(s, a)
  {
    var v, q := s.threads.server, s.queue;
    match a
    case TakeBatch =>
      s.(locks := s.locks.(updates := s.locks.updates - 1),
         threads := s.threads.(server := Writing(Next, v.batch, 0, |q.accepted|)))
    case TakeLockToPut =>
      s.(locks := s.locks.(mutex := Some(Server)), threads := s.threads.(server := v.(w := Putting)))
    case Put(ok) =>
      if ok then
        s.(queue := q.(fifo := q.fifo + [v.batch[v.done]], accepted := q.accepted + [v.batch[v.done]]),
           threads := s.threads.(server := v.(w := Releasing(false), done := v.done + 1)))
      else
        s.(threads := s.threads.(server := v.(w := Releasing(true))))
    case ReleaseAfterPut =>
      s.(locks := s.locks.(mutex := None),
         threads := s.threads.(server := v.(w := if v.w.failed then Ending else Next)))
    case BatchDone =>
      s.(locks := s.locks.(updates := s.locks.updates + 1), threads := s.threads.(server := Waiting),
         queue := q.(batches := q.batches + [Batch(v.batch, v.start, v.done, v.w == Next)]))
  }

  predicate Enabled(s: State, a: Action) {
    match a
    case BySolver(x) => SolverEnabled(s, x)
    case ByServer(x) => ServerEnabled(s, x)
    case ByReader(t, x) => ReaderEnabled(s, t, x)
    case ByWriter(x) => WriterEnabled(s, x)
  }

  function Apply(s: State, a: Action): State
    requires Shaped(s.memory) && Enabled(s, a)
  {
    match a
    case BySolver(x) => SolverApply(s, x)
    case ByServer(x) => ServerApply(s, x)
    case ByReader(t, x) => ReaderApply(s, t, x)
    case ByWriter(x) => WriterApply(s, x)
  }

  /** The solver has opened the semaphores, created the queue and is about to write the first snapshot. */
  predicate Initial(s: State) {
    && s.locks == Locks(0, 0, None)
    && s.threads == Threads(InitPublishing(0), BootWait, NotStarted)
    && |s.memory.publications| == 1 && Shaped(s.memory)
    && s.queue == Queue([], [], [], [], [])
    && s.observations == []
  }
}
