/** Whole runs of the solver and the provider: every reachable state, under every interleaving. */
module SolverRuns {
  import opened Wrappers
  import opened SolverProtocol
  import opened SolverSafety

  /** The state after a sequence of steps, if each of them can be taken. */
  function Run(s: State, actions: seq<Action>): Option<State>
    decreases |actions|
  {
    if actions == [] then Some(s)
    else if Shaped(s.memory) && Enabled(s, actions[0]) then Run(Apply(s, actions[0]), actions[1..])
    else None
  }

  ghost predicate Reachable(s: State) {
    exists first: State, actions: seq<Action> :: Initial(first) && Run(first, actions) == Some(s)
  }

  // Two more invariants: nothing is read before init has published, and readers never go back in time.

  /** The provider stays outside until init has posted the publish semaphore. */
  predicate Booted(ts: Threads, os: seq<Observation>) {
    && (ts.solver.InitPublishing? ==> ts.server == BootWait)
    && (ts.server == BootWait || ts.server == BootAttach ==> os == [])
  }

  /** The number of the publication a reader has taken, once it has. */
  function Taken(r: Option<ReaderPc>): Option<nat> {
    match r
    case Some(Scanning(_, _, k)) => Some(k)
    case Some(Unlocking(_, _, k)) => Some(k)
    case _ => None
  }

  predicate NotBefore(os: seq<Observation>, taken: Option<nat>) {
    taken.Some? ==> forall o | o in os :: o.k <= taken.value
  }

  predicate Sorted(os: seq<Observation>) {
    forall i, j | 0 <= i < j < |os| :: os[i].k <= os[j].k
  }

  predicate InOrder(ts: Threads, os: seq<Observation>) {
    Sorted(os) && NotBefore(os, Taken(ServerReader(ts.server))) && NotBefore(os, Taken(PublisherReader(ts.publisher)))
  }

  predicate FullInv(s: State) {
    Inv(s) && Booted(s.threads, s.observations) && InOrder(s.threads, s.observations)
  }

  lemma BootedStep(s: State, a: Action)
    requires Shaped(s.memory) && Booted(s.threads, s.observations) && Enabled(s, a)
    requires s.threads.solver.InitPublishing? ==> s.locks.publish == 0
    requires s.threads.server == BootWait || s.threads.server == BootAttach ==> s.threads.publisher == NotStarted
    ensures Booted(Apply(s, a).threads, Apply(s, a).observations)
  {
    hide Shaped, ScanDone;
  }

  lemma BootLocks(s: State)
    requires Locked(s.locks, s.threads)
    ensures s.threads.solver.InitPublishing? ==> s.locks.publish == 0
    ensures s.threads.server == BootWait || s.threads.server == BootAttach ==> s.threads.publisher == NotStarted
  {
  }

  /** Only taking the slots and releasing the mutex change what has been taken and observed. */
  lemma OthersKeep(s: State, a: Action)
    requires Shaped(s.memory) && Enabled(s, a) && !(a.ByReader? && (a.r.TakeSlots? || a.r.ReleaseLock?))
    ensures var s' := Apply(s, a);
      && s'.observations == s.observations
      && Taken(ServerReader(s'.threads.server)) in {None, Taken(ServerReader(s.threads.server))}
      && Taken(PublisherReader(s'.threads.publisher)) in {None, Taken(PublisherReader(s.threads.publisher))}
  {
    hide Shaped, ScanDone;
  }

  lemma InOrderStep(s: State, a: Action)
    requires Inv(s) && InOrder(s.threads, s.observations) && Enabled(s, a)
    ensures InOrder(Apply(s, a).threads, Apply(s, a).observations)
  {
    if a.ByReader? && a.r.ReleaseLock? {
      Releases(s, a.who);
    } else if a.ByReader? && a.r.TakeSlots? {
      Takes(s, a.who);
    } else {
      OthersKeep(s, a);
      hide Inv, Sorted, Enabled, Apply, Taken;
    }
  }

  /** The mutex keeps the other reader from having taken its snapshot while this one finishes. */
  lemma Releases(s: State, t: Thread)
    requires Inv(s) && InOrder(s.threads, s.observations) && ReaderEnabled(s, t, ReleaseLock)
    ensures InOrder(ReaderApply(s, t, ReleaseLock).threads, ReaderApply(s, t, ReleaseLock).observations)
  {
    assert s.locks.mutex == Some(t);
    hide MemoryOk, RecordsOk;
  }

  lemma Takes(s: State, t: Thread)
    requires Inv(s) && InOrder(s.threads, s.observations) && ReaderEnabled(s, t, TakeSlots)
    ensures InOrder(ReaderApply(s, t, TakeSlots).threads, ReaderApply(s, t, TakeSlots).observations)
  {
    hide Locked, RecordsOk, SlotsOk, ScanOf, ReaderOk, Sorted;
  }

  lemma {:induction false} RunInv(s: State, actions: seq<Action>, t: State)
    requires FullInv(s) && Run(s, actions) == Some(t)
    ensures FullInv(t)
    decreases |actions|
  {
    if actions != [] {
      InvStep(s, actions[0]);
      BootLocks(s);
      BootedStep(s, actions[0]);
      InOrderStep(s, actions[0]);
      hide Inv, Booted, InOrder, Apply, Enabled, Shaped;
      RunInv(Apply(s, actions[0]), actions[1..], t);
    }
  }

  lemma ReachableInv(s: State)
    requires Reachable(s)
    ensures FullInv(s)
  {
    var first: State, actions: seq<Action> :| Initial(first) && Run(first, actions) == Some(s);
    InitialInv(first);
    RunInv(first, actions, s);
  }

  // What readers see.

  /** The data of the first slot of that name. */
  function Lookup(tag: string, snapshot: Snapshot): Option<string> {
    if snapshot == [] then None
    else if snapshot[0].name == tag then Some(snapshot[0].data)
    else Lookup(tag, snapshot[1..])
  }

  /** What read answers from the slots it has gone through. */
  function Answer(tag: string, seen: Snapshot): Option<string> {
    if seen != [] && seen[|seen| - 1].name == tag then Some(seen[|seen| - 1].data) else None
  }

  lemma {:induction false} ScanOfAll(snapshot: Snapshot)
    ensures ScanOf(AllSlots, snapshot) == snapshot
    decreases |snapshot|
  {
    if snapshot != [] {
      ScanOfAll(snapshot[1..]);
    }
  }

  lemma {:induction false} ScanOfTag(tag: string, snapshot: Snapshot)
    ensures Answer(tag, ScanOf(UntilTag(tag), snapshot)) == Lookup(tag, snapshot)
    decreases |snapshot|
  {
    if snapshot != [] && snapshot[0].name != tag {
      ScanOfTag(tag, snapshot[1..]);
    }
  }

  /**
   Every finished query, read or publishData saw one single publication, whole and unmixed, none of
   them before init had written the first one, and later requests never see an older publication.
   */
  lemma SnapshotAtomicity(s: State)
    requires Reachable(s)
    ensures forall o | o in s.observations :: o.k < |s.memory.publications|
    ensures forall o | o in s.observations && o.scan == AllSlots :: o.seen == s.memory.publications[o.k]
    ensures forall o | o in s.observations && o.scan.UntilTag? ::
      Answer(o.scan.tag, o.seen) == Lookup(o.scan.tag, s.memory.publications[o.k])
    ensures s.threads.solver.InitPublishing? ==> s.observations == []
    ensures forall i, j | 0 <= i < j < |s.observations| :: s.observations[i].k <= s.observations[j].k
  {
    ReachableInv(s);
    hide Reachable, SlotsOk, ReaderOk, RecordsOk, Locked, NotBefore;
    forall o | o in s.observations
      ensures o.scan == AllSlots ==> o.seen == s.memory.publications[o.k]
      ensures o.scan.UntilTag? ==> Answer(o.scan.tag, o.seen) == Lookup(o.scan.tag, s.memory.publications[o.k])
    {
      ScanOfAll(s.memory.publications[o.k]);
      if o.scan.UntilTag? {
        ScanOfTag(o.scan.tag, s.memory.publications[o.k]);
      }
    }
  }

  /** Value plus holders is 1 for both semaphores once init has posted them; the mutex has at most its one holder. */
  lemma SemaphoreConservation(s: State)
    requires Reachable(s)
    ensures s.locks.publish + Count(SolverHoldsPublish(s.threads.solver))
      + ProviderHolders(s.threads.server, s.threads.publisher) == 1
    ensures s.locks.updates + Count(SolverHoldsUpdates(s.threads.solver)) + Count(s.threads.server.Writing?) == 1
    ensures !(ReaderHoldsMutex(PublisherReader(s.threads.publisher))
              && (ReaderHoldsMutex(ServerReader(s.threads.server)) || WriterHoldsMutex(s.threads.server)))
  {
    ReachableInv(s);
    hide Reachable, RecordsOk, MemoryOk, Booted, InOrder;
  }

  // What becomes of write requests.

  /** The number of the solver step that consumes record i: how many steps ended at or before it. */
  function StepOf(cuts: seq<nat>, i: nat): nat {
    if cuts == [] then 0 else StepOf(cuts[1..], i) + Count(cuts[0] <= i)
  }

  lemma {:induction false} SameStep(cuts: seq<nat>, start: nat, end: nat, i: nat, j: nat)
    requires forall c | c in cuts :: !(start < c < end)
    requires start <= i < end && start <= j < end
    ensures StepOf(cuts, i) == StepOf(cuts, j)
    decreases |cuts|
  {
    if cuts != [] {
      assert cuts[0] in cuts && forall c | c in cuts[1..] :: c in cuts;
      SameStep(cuts[1..], start, end, i, j);
    }
  }

  /**
   The records of an acknowledged request stand together and in order among all records accepted;
   the solver consumes accepted records in exactly that order, each once, and those of one request
   all within the same step.
   */
  lemma BatchAtomicity(s: State, b: Batch)
    requires Reachable(s) && b in s.queue.batches && b.acked
    ensures b.start + |b.records| <= |s.queue.accepted|
    ensures s.queue.accepted[b.start..b.start + |b.records|] == b.records
    ensures s.queue.accepted == s.queue.consumed + s.queue.fifo
    ensures forall i, j | b.start <= i < b.start + |b.records| && b.start <= j < b.start + |b.records| ::
      StepOf(s.queue.cuts, i) == StepOf(s.queue.cuts, j)
  {
    ReachableInv(s);
    hide Reachable, MemoryOk, Locked, ServerOk, Booted, InOrder;
    forall i, j | b.start <= i < b.start + |b.records| && b.start <= j < b.start + |b.records|
      ensures StepOf(s.queue.cuts, i) == StepOf(s.queue.cuts, j)
    {
      SameStep(s.queue.cuts, b.start, b.start + |b.records|, i, j);
    }
    assert b.records[..b.done] == b.records;
  }

  /** How many records were put successfully. */
  function Successes(actions: seq<Action>): nat
    decreases |actions|
  {
    if actions == [] then 0
    else Successes(actions[1..]) + if actions[0] == ByWriter(Put(true)) then 1 else 0
  }

  /** The server is inside the batch: what it has put, and whether a put has failed. */
  predicate Inside(s: State, batch: seq<Update>, start: nat, accepted: seq<Update>, batches: seq<Batch>, done: nat,
                   failed: bool)
  {
    var v := s.threads.server;
    && v.Writing? && v.batch == batch && v.start == start && v.done == done <= |batch|
    && (v.w == Ending || v.w == Releasing(true) <==> failed)
    && s.queue.accepted == accepted + batch[..done] && s.queue.batches == batches
  }

  /** Whatever else happens, only puts move the batch on, and none follows a put that failed. */
  lemma InsideStep(s: State, a: Action, batch: seq<Update>, start: nat, accepted: seq<Update>, batches: seq<Batch>,
                   done: nat, failed: bool)
    requires Inside(s, batch, start, accepted, batches, done, failed) && Shaped(s.memory) && Enabled(s, a)
    requires a != ByWriter(BatchDone)
    ensures a.ByWriter? && a.w.Put? ==> !failed && (a.w.ok ==> done < |batch|)
    ensures Inside(Apply(s, a), batch, start, accepted, batches, done + Successes([a]),
                   failed || a == ByWriter(Put(false)))
  {
    hide Shaped, ScanDone;
    assert [a][1..] == [];
    if a == ByWriter(Put(true)) {
      assert accepted + batch[..done] + [batch[done]] == accepted + batch[..done + 1];
    }
  }

  lemma {:induction false} InsideRun(s: State, actions: seq<Action>, t: State, batch: seq<Update>, start: nat,
                                     accepted: seq<Update>, batches: seq<Batch>, done: nat, failed: bool)
    requires Inside(s, batch, start, accepted, batches, done, failed) && Run(s, actions) == Some(t)
    requires ByWriter(BatchDone) !in actions
    ensures Inside(t, batch, start, accepted, batches, done + Successes(actions),
                   failed || ByWriter(Put(false)) in actions)
    ensures forall j | 0 <= j < |actions| && actions[j].ByWriter? && actions[j].w.Put? ::
      !failed && ByWriter(Put(false)) !in actions[..j]
    decreases |actions|
  {
    hide Inside, Apply, Enabled, Shaped;
    if actions != [] {
      var a, rest := actions[0], actions[1..];
      assert a in actions && forall b | b in rest :: b in actions;
      InsideStep(s, a, batch, start, accepted, batches, done, failed);
      assert [a][1..] == [];
      var done', failed' := done + Successes([a]), failed || a == ByWriter(Put(false));
      InsideRun(Apply(s, a), rest, t, batch, start, accepted, batches, done', failed');
      forall j | 0 <= j < |actions| && actions[j].ByWriter? && actions[j].w.Put?
        ensures !failed && ByWriter(Put(false)) !in actions[..j]
      {
        if j > 0 {
          assert actions[j] == rest[j - 1] && actions[..j] == [a] + rest[..j - 1];
        }
      }
    }
  }

  lemma {:induction false} RunAppend(s: State, a: seq<Action>, b: seq<Action>)
    ensures Run(s, a + b) == match Run(s, a) { case Some(t) => Run(t, b) case None => None }
    decreases |a|
  {
    hide Apply, Enabled, Shaped;
    if a == [] {
      assert a + b == b;
    } else {
      assert (a + b)[1..] == a[1..] + b;
      if Shaped(s.memory) && Enabled(s, a[0]) {
        RunAppend(Apply(s, a[0]), a[1..], b);
      }
    }
  }

  lemma RunOne(s: State, a: Action)
    ensures Run(s, [a]) == if Shaped(s.memory) && Enabled(s, a) then Some(Apply(s, a)) else None
  {
    hide Apply, Enabled, Shaped;
    assert [a][1..] == [];
  }

  lemma StartInside(s: State)
    requires WriterEnabled(s, TakeBatch)
    ensures s.threads.server.WantBatch?
    ensures Inside(WriterApply(s, TakeBatch), s.threads.server.batch, |s.queue.accepted|, s.queue.accepted,
                   s.queue.batches, 0, false)
  {
    assert s.queue.accepted + s.threads.server.batch[..0] == s.queue.accepted;
  }

  lemma EndInside(s: State, batch: seq<Update>, start: nat, accepted: seq<Update>, batches: seq<Batch>, done: nat,
                  failed: bool)
    requires Inside(s, batch, start, accepted, batches, done, failed) && WriterEnabled(s, BatchDone)
    ensures done <= |batch| && (!failed ==> done == |batch|)
    ensures var q := WriterApply(s, BatchDone).queue;
      q.batches == batches + [Batch(batch, start, done, !failed)] && q.accepted == accepted + batch[..done]
  {
  }

  /**
   A write request from taking the updates semaphore to releasing it, with anything in between. It is
   acknowledged exactly if no put failed, and then all its records were put; else they were put up to the first
   failure, after which nothing more is. The records put, and no others, are accepted meanwhile, in order.
   */
  lemma FailedPutsAreReported(s: State, middle: seq<Action>, t: State)
    requires Run(s, [ByWriter(TakeBatch)] + middle + [ByWriter(BatchDone)]) == Some(t)
    requires ByWriter(BatchDone) !in middle
    ensures s.threads.server.WantBatch?
    ensures var batch, done := s.threads.server.batch, Successes(middle);
      var acked := ByWriter(Put(false)) !in middle;
      && done <= |batch| && (acked ==> done == |batch|)
      && t.queue.batches == s.queue.batches + [Batch(batch, |s.queue.accepted|, done, acked)]
      && t.queue.accepted == s.queue.accepted + batch[..done]
    ensures forall i, j | 0 <= i < j < |middle| && middle[i] == ByWriter(Put(false)) && middle[j].ByWriter? ::
      !middle[j].w.Put?
  {
    var take, end := ByWriter(TakeBatch), ByWriter(BatchDone);
    hide Run, Shaped, WriterEnabled, WriterApply, Inside;
    RunAppend(s, [take] + middle, [end]);
    RunAppend(s, [take], middle);
    RunOne(s, take);
    StartInside(s);
    var first, batch := Apply(s, take), s.threads.server.batch;
    var last := Run(first, middle).value;
    RunOne(last, end);
    InsideRun(first, middle, last, batch, |s.queue.accepted|, s.queue.accepted, s.queue.batches, 0, false);
    EndInside(last, batch, |s.queue.accepted|, s.queue.accepted, s.queue.batches, Successes(middle),
              ByWriter(Put(false)) in middle);
    forall i, j | 0 <= i < j < |middle| && middle[i] == ByWriter(Put(false)) && middle[j].ByWriter?
      ensures !middle[j].w.Put?
    {
      assert middle[..j][i] == middle[i];
    }
  }

  /** When a step has drained the queue, everything accepted so far has been consumed. */
  lemma StepLeavesQueueEmpty(s: State)
    requires Reachable(s) && s.threads.solver.PostUpdates?
    ensures s.queue.fifo == [] && s.queue.consumed == s.queue.accepted
    ensures forall b | b in s.queue.batches && b.acked ::
      b.start + |b.records| <= |s.queue.consumed| && s.queue.consumed[b.start..b.start + |b.records|] == b.records
  {
    ReachableInv(s);
    assert s.queue.consumed + [] == s.queue.consumed;
    forall b | b in s.queue.batches && b.acked
      ensures b.start + |b.records| <= |s.queue.consumed|
        && s.queue.consumed[b.start..b.start + |b.records|] == b.records
    {
      BatchAtomicity(s, b);
    }
    hide Reachable, MemoryOk, Locked, ServerOk, Booted, InOrder, BatchesOk;
  }

  // Deadlock freedom.

  datatype Party = Solver | Provider(thread: Thread)

  datatype Lock = UpdatesLock | MutexLock | PublishLock

  /** The order in which every thread takes its locks. */
  function Rank(l: Lock): nat {
    match l
    case UpdatesLock => 0
    case MutexLock => 1
    case PublishLock => 2
  }

  function ReaderWants(r: ReaderPc): Option<Lock> {
    if r.WantLock? then Some(MutexLock) else if r.WantSlots? then Some(PublishLock) else None
  }

  /** The lock a thread asks for next, if it is at such a point. */
  function Wants(ts: Threads, p: Party): Option<Lock> {
    match p
    case Solver =>
      if ts.solver == WantPublish then Some(PublishLock)
        else if ts.solver == WantUpdates then Some(UpdatesLock) else None
    case Provider(Server) =>
      (match ts.server
       case BootWait => Some(PublishLock)
       case Reading(r) => ReaderWants(r)
       case WantBatch(_) => Some(UpdatesLock)
       case Writing(w, batch, done, _) => if w == Next && done < |batch| then Some(MutexLock) else None
       case _ => None)
    case Provider(Publisher) => if ts.publisher.Sending? then ReaderWants(ts.publisher.r) else None
  }

  predicate Holds(ts: Threads, p: Party, l: Lock) {
    match p
    case Solver =>
      (l == PublishLock && SolverHoldsPublish(ts.solver)) || (l == UpdatesLock && SolverHoldsUpdates(ts.solver))
    case Provider(Server) =>
      || (l == PublishLock && (ts.server == BootAttach || ReaderHoldsPublish(ServerReader(ts.server))))
      || (l == MutexLock && (ReaderHoldsMutex(ServerReader(ts.server)) || WriterHoldsMutex(ts.server)))
      || (l == UpdatesLock && ts.server.Writing?)
    case Provider(Publisher) =>
      || (l == PublishLock && ReaderHoldsPublish(PublisherReader(ts.publisher)))
      || (l == MutexLock && ReaderHoldsMutex(PublisherReader(ts.publisher)))
  }

  predicate Started(ts: Threads, p: Party) {
    p == Provider(Publisher) ==> ts.publisher != NotStarted
  }

  function ActorOf(a: Action): Party {
    match a
    case BySolver(_) => Solver
    case ByServer(b) => if b == WakePublisher then Provider(Publisher) else Provider(Server)
    case ByReader(t, _) => Provider(t)
    case ByWriter(_) => Provider(Server)
  }

  ghost predicate CanStep(s: State, p: Party) {
    exists a: Action :: ActorOf(a) == p && Enabled(s, a)
  }

  /** A thread asks only for locks above all those it holds. */
  lemma LockOrder(ts: Threads, p: Party, held: Lock)
    requires Wants(ts, p).Some? && Holds(ts, p, held)
    ensures Rank(held) < Rank(Wants(ts, p).value)
  {
  }

  predicate Free(l: Locks, wanted: Lock) {
    match wanted
    case PublishLock => l.publish > 0
    case UpdatesLock => l.updates > 0
    case MutexLock => l.mutex == None
  }

  lemma MutexHolder(l: Locks, ts: Threads)
    requires MutexOk(l.mutex, ts.server, ts.publisher) && l.mutex.Some?
    ensures Holds(ts, Provider(l.mutex.value), MutexLock) && Started(ts, Provider(l.mutex.value))
  {
  }

  lemma PublishHolder(ts: Threads) returns (q: Party)
    requires Count(SolverHoldsPublish(ts.solver)) + ProviderHolders(ts.server, ts.publisher) == 1
    ensures Holds(ts, q, PublishLock) && Started(ts, q)
  {
    q := if SolverHoldsPublish(ts.solver) then Solver
    else if ReaderHoldsPublish(PublisherReader(ts.publisher)) then Provider(Publisher)
    else Provider(Server);
    hide ReaderHoldsMutex, WriterHoldsMutex, SolverHoldsUpdates;
  }

  /** A lock that is not free has a holder. */
  lemma Holder(s: State, l: Lock) returns (q: Party)
    requires Locked(s.locks, s.threads) && !Free(s.locks, l)
    ensures Holds(s.threads, q, l) && Started(s.threads, q)
  {
    match l
    case MutexLock =>
      MutexHolder(s.locks, s.threads);
      q := Provider(s.locks.mutex.value);
    case UpdatesLock =>
      hide MutexOk, ProviderHolders;
      q := if SolverHoldsUpdates(s.threads.solver) then Solver else Provider(Server);
    case PublishLock =>
      q := PublishHolder(s.threads);
  }

  function ReaderNext(s: State, r: ReaderPc): ReaderAction {
    match r
    case WantLock(_) => TakeLock
    case WantSlots(_) => TakeSlots
    case Scanning(scan, seen, _) => if ScanDone(scan, seen, |s.memory.slots|) then ScanFinished else ScanSlot
    case Unlocking(_, _, _) => ReleaseLock
  }

  function SolverNext(s: State): SolverAction {
    match s.threads.solver
    case InitPublishing(i) => if i < |s.memory.slots| then InitSlot else InitPublishDone
    case InitPostUpdates => InitDone
    case Computing => BeginStep
    case WantPublish => TakePublish(s.memory.slots)
    case Publishing(i) => if i < |s.memory.slots| then PublishSlot else PublishDone
    case WantUpdates => TakeUpdates
    case Draining => if s.queue.fifo != [] then Consume else Drained
    case PostUpdates => StepDone
  }

  function ServerNext(s: State): Action {
    match s.threads.server
    case BootWait => ByServer(TakeBoot)
    case BootAttach => ByServer(BootDone)
    case Waiting => ByServer(StartRead(AllSlots))
    case Reading(r) => ByReader(Server, ReaderNext(s, r))
    case WantBatch(_) => ByWriter(TakeBatch)
    case Writing(w, batch, done, _) =>
      match w
      case Next => if done < |batch| then ByWriter(TakeLockToPut) else ByWriter(BatchDone)
      case Putting => ByWriter(Put(true))
      case Releasing(_) => ByWriter(ReleaseAfterPut)
      case Ending => ByWriter(BatchDone)
  }

  /** A started thread that wants no lock, or a free one, can take a step. */
  lemma Runs(s: State, p: Party)
    requires Inv(s) && Started(s.threads, p)
    requires Wants(s.threads, p) == None || Free(s.locks, Wants(s.threads, p).value)
    ensures CanStep(s, p)
  {
    hide Locked, ReaderOk, ObservationsOk;
    match p
    case Solver => assert Enabled(s, BySolver(SolverNext(s)));
    case Provider(Server) => assert Enabled(s, ServerNext(s));
    case Provider(Publisher) =>
      if s.threads.publisher.Sending? {
        assert Enabled(s, ByReader(Publisher, ReaderNext(s, s.threads.publisher.r)));
      } else {
        assert Enabled(s, ByServer(WakePublisher));
      }
  }

  predicate WaitsOn(ts: Threads, p: Party, q: Party) {
    Wants(ts, p).Some? && Holds(ts, q, Wants(ts, p).value)
  }

  /** Each thread of the path waits for a lock that the next one holds. */
  predicate WaitPath(ts: Threads, path: seq<Party>) {
    |path| > 0 && forall i | 0 <= i < |path| - 1 :: WaitsOn(ts, path[i], path[i + 1])
  }

  lemma WaitPathExtends(ts: Threads, p: Party, path: seq<Party>)
    requires WaitPath(ts, path) && WaitsOn(ts, p, path[0])
    ensures WaitPath(ts, [p] + path)
  {
    hide WaitsOn;
  }

  /** How far up the order a thread has come: above all locks when it wants none. */
  function Height(ts: Threads, p: Party): nat {
    if Wants(ts, p).Some? then Rank(Wants(ts, p).value) else 3
  }

  /** A waiting thread that cannot go on waits for one further up the order. */
  lemma WaitsUpwards(s: State, p: Party) returns (q: Party)
    requires Locked(s.locks, s.threads)
    requires Wants(s.threads, p).Some? && !Free(s.locks, Wants(s.threads, p).value)
    ensures Started(s.threads, q) && WaitsOn(s.threads, p, q) && Height(s.threads, p) < Height(s.threads, q) <= 3
  {
    q := Holder(s, Wants(s.threads, p).value);
    if Wants(s.threads, q).Some? {
      LockOrder(s.threads, q, Wants(s.threads, p).value);
    }
    hide Locked, Holds, Started, Wants;
  }

  lemma {:induction false} FollowWaits(s: State, p: Party) returns (path: seq<Party>)
    requires Inv(s) && Started(s.threads, p)
    ensures WaitPath(s.threads, path) && path[0] == p && CanStep(s, path[|path| - 1])
    ensures |path| <= 4 - Height(s.threads, p)
    decreases 3 - Height(s.threads, p)
  {
    if Wants(s.threads, p) == None || Free(s.locks, Wants(s.threads, p).value) {
      Runs(s, p);
      hide Inv, Wants, CanStep, Started;
      path := [p];
    } else {
      var q := WaitsUpwards(s, p);
      hide Inv, Wants, CanStep, Started, WaitsOn, Height;
      var rest := FollowWaits(s, q);
      WaitPathExtends(s.threads, p, rest);
      path := [p] + rest;
    }
  }

  /**
   No deadlock: from every thread, in every reachable state, following who holds the lock that is
   waited for leads within four threads to one that can take a step.
   */
  lemma NoDeadlock(s: State, p: Party) returns (path: seq<Party>)
    requires Reachable(s) && Started(s.threads, p)
    ensures WaitPath(s.threads, path) && path[0] == p && |path| <= 4 && CanStep(s, path[|path| - 1])
  {
    ReachableInv(s);
    path := FollowWaits(s, p);
  }
}
