/** What keeps the concurrent buffer moving: bounds, order, numbers of batches, and that everything can be stored. */
module BufferProgress {
  import opened Prelude
  import opened WalCodec
  import opened Wal
  import opened BufferKeys
  import opened BufferReplay
  import opened BufferRuns

  // Queue and buckets

  /** The queue and the workers hold no more than they can. */
  ghost predicate WithinLimits(c: Config, s: State) {
    |s.tasks.queue| <= c.queueSize && |s.tasks.busy| <= c.workers
  }

  /** The queue grows at its end, or its head goes to a worker. */
  ghost predicate InOrder(before: Tasks, after: Tasks) {
    || before.queue <= after.queue
    || (before.queue != [] && after.queue == before.queue[1..] && after.busy == before.busy + [before.queue[0]])
  }

  lemma TakeKeepsQueue(c: Config, s: State, key: string, force: bool)
    requires WithinLimits(c, s)
    ensures var t := TakeBucket(c, s, key, force); WithinLimits(c, t) && InOrder(s.tasks, t.tasks)
  {
    hide TaskOf, Elsewhere;
  }

  lemma TaskStepKeepsQueue(c: Config, s: State, e: Event)
    requires WithinLimits(c, s) && (e.Take? || e.Attempt? || e.Admit? || e.Drop? || e.Requeue?)
    ensures WithinLimits(c, Step(c, s, e)) && InOrder(s.tasks, Step(c, s, e).tasks)
  {
    hide Truncated;
    if e.Take? && s.tasks.queue != [] {
      assert Without1(s.tasks.queue, 0) == s.tasks.queue[1..];
    }
  }

  /** Every step keeps the bounds, and batches leave the queue in the order in which they joined it. */
  lemma StepKeepsQueue(c: Config, s: State, e: Event)
    requires WithinLimits(c, s)
    ensures WithinLimits(c, Step(c, s, e)) && InOrder(s.tasks, Step(c, s, e).tasks)
  {
    hide TakeBucket, Purge, Flatten, OtherBuckets, Logged, AcceptedWal, Truncated, RollBack, Appended, BufferKey,
         Spared,
         TakeTask, AttemptTask, AdmitTask, DropTask, RequeueTask, Worked;
    match e
    case Add(row, day, write) =>
      var key := BufferKey(row, c.defaultTable, day);
      TakeKeepsQueue(c, Accept(c, s, row, key, write), key, false);
    case Flush(key, force) => TakeKeepsQueue(c, s, key, force);
    case Remove(_, _, _) =>
    case ClearTable(_) =>
    case TruncateRecovered(_) =>
    case _ => TaskStepKeepsQueue(c, s, e);
  }

  lemma {:induction false} QueueIsBounded(c: Config, f: Files<Payload>, es: seq<Event>)
    ensures WithinLimits(c, Run(c, Start(f), es))
  {
    hide Step, WithinLimits;
    if es == [] {
      StartIsBounded(c, f);
    } else {
      QueueIsBounded(c, f, es[..|es| - 1]);
      StepKeepsQueue(c, Run(c, Start(f), es[..|es| - 1]), es[|es| - 1]);
    }
  }

  lemma StartIsBounded(c: Config, f: Files<Payload>)
    ensures WithinLimits(c, Start(f))
  {
  }

  /** A flush turns the bucket, row by row, into one untried batch at the end of the queue, or of those waiting. */
  lemma FlushSubmits(c: Config, s: State, key: string)
    requires key in s.buffer
    ensures var u := Step(c, s, Flush(key, true));
            && u.buffer == s.buffer - {key} && |s.tasks.queue| + |s.tasks.waiting| < |u.tasks.queue| + |u.tasks.waiting|
            && (|s.tasks.queue| < c.queueSize <==> u.tasks.queue != s.tasks.queue)
            && var t := if |s.tasks.queue| < c.queueSize then u.tasks.queue[|s.tasks.queue|]
                        else u.tasks.waiting[|s.tasks.waiting|];
               t.key == key && t.rows == s.buffer[key] && t.attempts == t.retries == 0
  {
    hide Elsewhere, Marked;
  }

  /** No bucket is left with as many rows as a bucket may have. */
  ghost predicate Unfilled(c: Config, b: Buffer) {
    forall k <- b :: |b[k]| < c.bufferSize
  }

  lemma {:induction false} KeepIsShorter(rows: seq<DataRow>, id: string)
    ensures |Keep(rows, id)| <= |rows|
  {
    if rows != [] {
      KeepIsShorter(rows[..|rows| - 1], id);
    }
  }

  lemma StepUnfilled(c: Config, s: State, e: Event)
    requires NoEmptyBucket(s) && Unfilled(c, s.buffer)
    ensures Unfilled(c, Step(c, s, e).buffer)
  {
    hide BufferKey, Submit, Logged, AcceptedWal, Flatten, RollBack, AttemptTask, AdmitTask, DropTask, RequeueTask,
         TakeTask,
         Truncated, Elsewhere, Marked, Keep;
    match e
    case Add(row, day, write) =>
      RollBackRestores(s.buffer, BufferKey(row, c.defaultTable, day), row);
    case Remove(table, id, _) =>
      forall k | k in Purge(s.buffer, table, id) ensures |Purge(s.buffer, table, id)[k]| < c.bufferSize {
        KeepIsShorter(s.buffer[k], id);
      }
    case _ =>
  }

  /** In every run from a log whose buckets are not full, each bucket has fewer rows than a bucket may have. */
  lemma {:induction false} FullBucketsAreFlushed(c: Config, f: Files<Payload>, es: seq<Event>)
    requires Unfilled(c, ReplayLog(RecordsOf(f)).buffer)
    ensures Unfilled(c, Run(c, Start(f), es).buffer)
  {
    hide Step, Unfilled, NoEmptyBucket, TasksSound;
    if es == [] {
      StartBuffer(f);
    } else {
      var front := es[..|es| - 1];
      FullBucketsAreFlushed(c, f, front);
      StartIsSound(c, f);
      RunKeepsSound(c, Start(f), front);
      StepUnfilled(c, Run(c, Start(f), front), es[|es| - 1]);
    }
  }

  lemma StartBuffer(f: Files<Payload>)
    ensures Start(f).buffer == ReplayLog(RecordsOf(f)).buffer
  {
    hide ReplayLog, RecordsOf, LiveLog;
  }

  // Everything can be stored

  /** The two states differ only in where their rows are. */
  ghost predicate NothingLost(s: State, u: State) {
    u.tasks.lost == s.tasks.lost && u.removed == s.removed && u.accepted == s.accepted
  }

  lemma {:induction false} RunConcat(c: Config, s: State, a: seq<Event>, b: seq<Event>)
    ensures Run(c, s, a + b) == Run(c, Run(c, s, a), b)
  {
    hide Step;
    if b == [] {
      assert a + b == a;
    } else {
      var k := |b| - 1;
      assert (a + b)[..|a| + k] == a + b[..k];
      RunConcat(c, s, a, b[..k]);
    }
  }

  lemma RunOne(c: Config, s: State, e: Event)
    ensures Run(c, s, [e]) == Step(c, s, e)
  {
    assert [e][..0] == [];
  }

  /** A worker's batch is stored. */
  lemma StoreOne(c: Config, s: State)
    requires s.tasks.busy != []
    ensures var u := Step(c, s, Attempt(0, true, {}));
            && u.tasks.busy == s.tasks.busy[1..] && u.tasks.queue == s.tasks.queue && u.tasks.waiting == s.tasks.waiting
            && u.tasks.retrying == s.tasks.retrying && u.buffer == s.buffer && NothingLost(s, u)
  {
    assert Without1(s.tasks.busy, 0) == s.tasks.busy[1..];
    hide Truncated;
  }

  lemma {:induction false} FinishBusy(c: Config, s: State) returns (es: seq<Event>)
    ensures var u := Run(c, s, es);
            && u.tasks.busy == [] && u.tasks.queue == s.tasks.queue && u.tasks.waiting == s.tasks.waiting
            && u.tasks.retrying == s.tasks.retrying && u.buffer == s.buffer && NothingLost(s, u)
    decreases |s.tasks.busy|
  {
    if s.tasks.busy == [] {
      es := [];
    } else {
      hide Step, NothingLost;
      var e := Attempt(0, true, {});
      StoreOne(c, s);
      RunOne(c, s, e);
      var more := FinishBusy(c, Step(c, s, e));
      es := [e] + more;
      RunConcat(c, s, [e], more);
      LossChain(s, Step(c, s, e), Run(c, s, es));
    }
  }

  lemma LossChain(s: State, t: State, u: State)
    requires NothingLost(s, t) && NothingLost(t, u)
    ensures NothingLost(s, u)
  {
  }

  lemma TakeOne(c: Config, s: State)
    requires s.tasks.queue != [] && s.tasks.busy == [] && c.workers > 0
    ensures var u := Step(c, s, Take);
            && u.tasks.queue == s.tasks.queue[1..] && u.tasks.waiting == s.tasks.waiting
            && u.tasks.retrying == s.tasks.retrying && u.buffer == s.buffer && NothingLost(s, u)
  {
    assert Without1(s.tasks.queue, 0) == s.tasks.queue[1..];
  }

  /** The queue is worked off. */
  lemma {:induction false} DrainQueue(c: Config, s: State) returns (es: seq<Event>)
    requires c.workers > 0
    ensures var u := Run(c, s, es);
            && u.tasks.busy == [] && u.tasks.queue == [] && u.tasks.waiting == s.tasks.waiting
            && u.tasks.retrying == s.tasks.retrying && u.buffer == s.buffer && NothingLost(s, u)
    decreases |s.tasks.queue|
  {
    hide Step, NothingLost;
    var first := FinishBusy(c, s);
    var t := Run(c, s, first);
    if t.tasks.queue == [] {
      es := first;
    } else {
      TakeOne(c, t);
      RunOne(c, t, Take);
      var v := Step(c, t, Take);
      var more := DrainQueue(c, v);
      es := first + ([Take] + more);
      RunConcat(c, s, first, [Take] + more);
      RunConcat(c, t, [Take], more);
      LossChain(s, t, v);
      LossChain(s, v, Run(c, s, es));
    }
  }

  lemma AdmitOne(c: Config, s: State)
    requires s.tasks.waiting != [] && s.tasks.queue == [] && c.queueSize > 0
    ensures var u := Step(c, s, Admit(0));
            && u.tasks.waiting == s.tasks.waiting[1..] && u.tasks.retrying == s.tasks.retrying
            && u.buffer == s.buffer && NothingLost(s, u)
  {
    assert Without1(s.tasks.waiting, 0) == s.tasks.waiting[1..];
  }

  /** So are the batches that wait for room. */
  lemma {:induction false} DrainWaiting(c: Config, s: State) returns (es: seq<Event>)
    requires c.workers > 0 && c.queueSize > 0
    ensures var u := Run(c, s, es);
            && u.tasks.busy == [] && u.tasks.queue == [] && u.tasks.waiting == []
            && u.tasks.retrying == s.tasks.retrying && u.buffer == s.buffer && NothingLost(s, u)
    decreases |s.tasks.waiting|
  {
    hide Step, NothingLost;
    var first := DrainQueue(c, s);
    var t := Run(c, s, first);
    if t.tasks.waiting == [] {
      es := first;
    } else {
      AdmitOne(c, t);
      RunOne(c, t, Admit(0));
      var v := Step(c, t, Admit(0));
      var more := DrainWaiting(c, v);
      es := first + ([Admit(0)] + more);
      RunConcat(c, s, first, [Admit(0)] + more);
      RunConcat(c, t, [Admit(0)], more);
      LossChain(s, t, v);
      LossChain(s, v, Run(c, s, es));
    }
  }

  lemma RequeueOne(c: Config, s: State)
    requires s.tasks.retrying != [] && s.tasks.queue == [] && c.queueSize > 0
    ensures var u := Step(c, s, Requeue(0));
            && u.tasks.retrying == s.tasks.retrying[1..] && u.buffer == s.buffer && NothingLost(s, u)
  {
    assert Without1(s.tasks.retrying, 0) == s.tasks.retrying[1..];
  }

  /** And those that sleep before a retry. */
  lemma {:induction false} DrainRetrying(c: Config, s: State) returns (es: seq<Event>)
    requires c.workers > 0 && c.queueSize > 0
    ensures var u := Run(c, s, es); UnderWay(u.tasks) == [] && u.buffer == s.buffer && NothingLost(s, u)
    decreases |s.tasks.retrying|
  {
    hide Step, NothingLost;
    var first := DrainWaiting(c, s);
    var t := Run(c, s, first);
    if t.tasks.retrying == [] {
      es := first;
    } else {
      RequeueOne(c, t);
      RunOne(c, t, Requeue(0));
      var v := Step(c, t, Requeue(0));
      var more := DrainRetrying(c, v);
      es := first + ([Requeue(0)] + more);
      RunConcat(c, s, first, [Requeue(0)] + more);
      RunConcat(c, t, [Requeue(0)], more);
      LossChain(s, t, v);
      LossChain(s, v, Run(c, s, es));
    }
  }

  lemma FlushOne(c: Config, s: State, key: string)
    requires key in s.buffer
    ensures var u := Step(c, s, Flush(key, true)); u.buffer == s.buffer - {key} && NothingLost(s, u)
  {
    hide Elsewhere, Marked;
  }

  lemma {:induction false} DrainBuffer(c: Config, s: State) returns (es: seq<Event>)
    requires c.workers > 0 && c.queueSize > 0
    ensures var u := Run(c, s, es); UnderWay(u.tasks) == [] && u.buffer == map[] && NothingLost(s, u)
    decreases |s.buffer|
  {
    hide Step, NothingLost, UnderWay;
    if s.buffer == map[] {
      es := DrainRetrying(c, s);
    } else {
      var key :| key in s.buffer;
      var e := Flush(key, true);
      FlushOne(c, s, key);
      RunOne(c, s, e);
      SmallerMap(s.buffer, key);
      var more := DrainBuffer(c, Step(c, s, e));
      es := [e] + more;
      RunConcat(c, s, [e], more);
      LossChain(s, Step(c, s, e), Run(c, s, es));
    }
  }

  lemma SmallerMap<K, V>(m: map<K, V>, k: K)
    requires k in m
    ensures |m - {k}| < |m|
  {
    assert m.Keys == (m - {k}).Keys + {k};
    assert |m.Keys| == |(m - {k}).Keys| + 1;
  }

  /**
   * From every reachable state the buffer can come to rest: some further steps leave no bucket and no batch under
   * way, lose nothing more, and store every row that was buffered or under way, as often as it was there.
   */
  lemma EverythingCanBeStored(c: Config, f: Files<Payload>, es: seq<Event>) returns (more: seq<Event>)
    requires c.workers > 0 && c.queueSize > 0
    ensures var s, u := Run(c, Start(f), es), Run(c, Start(f), es + more);
            && u.buffer == map[] && UnderWay(u.tasks) == [] && u.tasks.lost == s.tasks.lost
            && forall r :: InBatches(u.tasks.done, r) ==
                           InBatches(s.tasks.done, r) + Flatten(s.buffer)[r] + InBatches(UnderWay(s.tasks), r)
  {
    hide Step, UnderWay, InBatches, TasksSound, NoEmptyBucket, Start;
    var s := Run(c, Start(f), es);
    more := DrainBuffer(c, s);
    RunConcat(c, Start(f), es, more);
    var u := Run(c, s, more);
    StartIsSound(c, f);
    RunKeepsSound(c, Start(f), es);
    forall r ensures InBatches(u.tasks.done, r) ==
                     InBatches(s.tasks.done, r) + Flatten(s.buffer)[r] + InBatches(UnderWay(s.tasks), r)
    {
      RunConserves(c, s, more, r);
      SplitTasks(s.tasks, r);
      SplitTasks(u.tasks, r);
      NothingHeld(r);
      hide Run;
    }
  }

  lemma SplitTasks(ts: Tasks, r: DataRow)
    ensures InTasks(ts, r) == InBatches(UnderWay(ts), r) + InBatches(ts.done, r) + InBatches(ts.lost, r)
  {
    hide InBatches;
    InBatchesConcat(ts.waiting + ts.queue + ts.busy, ts.retrying, r);
    InBatchesConcat(ts.waiting + ts.queue, ts.busy, r);
    InBatchesConcat(ts.waiting, ts.queue, r);
  }

  lemma NothingHeld(r: DataRow)
    ensures InBatches([], r) == 0 && Flatten<string, DataRow>(map[])[r] == 0
  {
  }

  // The numbers of batches

  /** A bucket's number covers the log records of its rows, and so does a batch's. */
  ghost predicate Covered(s: State) {
    && (forall n <- s.live :: n <= s.wal.files.top && n <= At(s.lastFlushedSeq, s.live[n].key))
    && CoveredTasks(UnderWay(s.tasks))
  }

  ghost predicate CoveredTask(t: Task) {
    forall n <- t.seqs :: n <= t.maxSeq
  }

  ghost predicate CoveredTasks(ts: seq<Task>) {
    forall t <- ts :: CoveredTask(t)
  }

  lemma {:induction false} ReplayCovers(log: Log<Payload>, top: nat)
    requires forall r <- log :: r.seqNum <= top
    ensures forall n <- LiveLog(log) :: n <= top && n <= At(ReplayLog(log).lastSeq, LiveLog(log)[n].key)
  {
    if log != [] {
      ReplayCovers(log[..|log| - 1], top);
      assert log[|log| - 1] in log;
      hide Purge, InTable;
    }
  }

  lemma TakeCovers(c: Config, s: State, key: string, force: bool)
    requires Covered(s) && c.walEnabled
    ensures Covered(TakeBucket(c, s, key, force))
  {
    if key in s.buffer && (force || s.buffer[key] != []) {
      var u, t := TakeBucket(c, s, key, force), TaskOf(c, s, key);
      assert CoveredTask(t);
      hide CoveredTask;
      assert forall x <- UnderWay(u.tasks) :: x in UnderWay(s.tasks) || x == t;
    }
  }

  lemma AcceptCovers(c: Config, s: State, row: DataRow, key: string, write: Write)
    requires Covered(s) && c.walEnabled
    ensures Covered(Accept(c, s, row, key, write))
  {
    if write.Some? {
      WrittenRecords(s.wal.files, c.setup, RECORD_TYPE_DATA, 0, Row(key, row), write.value);
    }
    hide Written, RecordsOf, Appended, CoveredTasks, UnderWay;
  }

  lemma WithoutMember<T>(ts: seq<T>, i: nat, x: T)
    requires i < |ts| && x in Without1(ts, i)
    ensures x in ts
  {
  }

  /** A batch under way after a move was under way before. */
  lemma MovesStay(c: Config, ts: Tasks, i: nat, us: Tasks, x: Task)
    requires us == AdmitTask(c, ts, i) || us == DropTask(ts, i) || us == RequeueTask(c, ts, i) || us == TakeTask(c, ts)
    requires x in UnderWay(us)
    ensures x in UnderWay(ts)
  {
    hide Without1;
    if i < |ts.waiting| && x in Without1(ts.waiting, i) { WithoutMember(ts.waiting, i, x); }
    if i < |ts.retrying| && x in Without1(ts.retrying, i) { WithoutMember(ts.retrying, i, x); }
    if ts.queue != [] && x in Without1(ts.queue, 0) { WithoutMember(ts.queue, 0, x); }
  }

  /** So was a batch under way after an attempt, except that the one that failed has been tried once more. */
  lemma AttemptStays(c: Config, ts: Tasks, i: nat, ok: bool, x: Task)
    requires i < |ts.busy| && x in UnderWay(AttemptTask(c, ts, i, ok))
    ensures exists y <- UnderWay(ts) :: x.seqs == y.seqs && x.maxSeq == y.maxSeq
  {
    hide Without1;
    if x in Without1(ts.busy, i) { WithoutMember(ts.busy, i, x); }
    assert ts.busy[i] in UnderWay(ts);
    if x !in UnderWay(ts) {
      assert x.seqs == ts.busy[i].seqs && x.maxSeq == ts.busy[i].maxSeq;
    }
  }

  /** Moving a batch about, or trying it, leaves its records and its number as they are. */
  lemma TaskStepCovers(c: Config, s: State, e: Event)
    requires Covered(s) && (e.Take? || e.Attempt? || e.Admit? || e.Drop? || e.Requeue?)
    ensures Covered(Step(c, s, e))
  {
    hide Truncated, UnderWay, TakeTask, AttemptTask, AdmitTask, DropTask, RequeueTask;
    var u := Step(c, s, e);
    assert u.wal.files.top == s.wal.files.top by { TruncatedTop(s.wal.files); }
    forall x | x in UnderWay(u.tasks) ensures CoveredTask(x) {
      match e
      case Attempt(i, ok, _) =>
        if i < |s.tasks.busy| {
          AttemptStays(c, s.tasks, i, ok, x);
          var y :| y in UnderWay(s.tasks) && x.seqs == y.seqs && x.maxSeq == y.maxSeq;
        }
      case Take => MovesStay(c, s.tasks, 0, u.tasks, x);
      case Admit(i) => MovesStay(c, s.tasks, i, u.tasks, x);
      case Drop(i) => MovesStay(c, s.tasks, i, u.tasks, x);
      case Requeue(i) => MovesStay(c, s.tasks, i, u.tasks, x);
    }
  }

  lemma TruncatedTop(f: Files<Payload>)
    ensures forall before, stuck :: Truncated(f, before, stuck).top == f.top
  {
  }

  /** Fewer marks, and no lower numbers for those that stay. */
  lemma FewerCovers(s: State, u: State)
    requires Covered(s) && u.tasks == s.tasks && u.wal.files.top >= s.wal.files.top
    requires forall n <- u.live :: n in s.live && u.live[n] == s.live[n]
    requires forall n <- u.live :: At(u.lastFlushedSeq, u.live[n].key) == At(s.lastFlushedSeq, u.live[n].key)
    ensures Covered(u)
  {
    hide CoveredTasks, UnderWay, At;
  }

  lemma RemoveCovers(c: Config, s: State, e: Event)
    requires Covered(s) && e.Remove?
    ensures Covered(Step(c, s, e))
  {
    if e.write.Some? {
      WrittenRecords(s.wal.files, c.setup, RECORD_TYPE_TOMBSTONE, 0, Tombstone(e.table, e.id), e.write.value);
    }
    hide Written, RecordsOf, Flatten, Purge, InTable, Covered;
    FewerCovers(s, Step(c, s, e));
  }

  lemma ClearCovers(s: State, table: string)
    requires Covered(s)
    ensures Covered(ClearBuckets(s, table))
  {
    hide Flatten, Covered, InTable;
    var u := ClearBuckets(s, table);
    forall n | n in u.live ensures At(u.lastFlushedSeq, u.live[n].key) == At(s.lastFlushedSeq, u.live[n].key) {
      assert u.live[n].key !in TableKeys(s.buffer, table);
    }
    FewerCovers(s, u);
  }

  lemma StepCovers(c: Config, s: State, e: Event)
    requires Covered(s) && c.walEnabled
    ensures Covered(Step(c, s, e))
  {
    hide Covered, TakeBucket, Accept, BufferKey;
    match e
    case Add(row, day, write) =>
      var key := BufferKey(row, c.defaultTable, day);
      AcceptCovers(c, s, row, key, write);
      TakeCovers(c, Accept(c, s, row, key, write), key, false);
      RejectCovers(c, s, row, key, write);
    case Flush(key, force) => TakeCovers(c, s, key, force);
    case Remove(_, _, _) => RemoveCovers(c, s, e);
    case ClearTable(table) => ClearCovers(s, table);
    case TruncateRecovered(stuck) => DrainedCovers(c, s, stuck);
    case _ => TaskStepCovers(c, s, e);
  }

  lemma RejectCovers(c: Config, s: State, row: DataRow, key: string, write: Write)
    requires Covered(s)
    ensures Covered(Reject(c, s, row, key, write))
  {
    if write.Some? {
      WrittenRecords(s.wal.files, c.setup, RECORD_TYPE_DATA, 0, Row(key, row), write.value);
    }
    hide Written, RecordsOf, RollBack, Appended, CoveredTasks, UnderWay;
  }

  lemma DrainedCovers(c: Config, s: State, stuck: set<nat>)
    requires Covered(s)
    ensures Covered(Drained(c, s, stuck))
  {
    hide CoveredTasks, UnderWay, Kept;
  }

  /** In every run the number a stored batch truncates the log at covers all the records of its rows. */
  lemma {:induction false} BatchNumbersCover(c: Config, f: Files<Payload>, es: seq<Event>)
    requires c.walEnabled && forall r <- RecordsOf(f) :: r.seqNum <= f.top
    ensures Covered(Run(c, Start(f), es))
  {
    if es == [] {
      ReplayCovers(RecordsOf(f), f.top);
      hide RecordsOf, ReplayLog, LiveLog;
    } else {
      hide Step, Covered, Start;
      BatchNumbersCover(c, f, es[..|es| - 1]);
      StepCovers(c, Run(c, Start(f), es[..|es| - 1]), es[|es| - 1]);
    }
  }

  // Log failures

  /** How many of the latest adds that reached the log got no number. */
  function Streak(c: Config, es: seq<Event>): nat {
    if es == [] then 0
    else
      var e, n := es[|es| - 1], Streak(c, es[..|es| - 1]);
      if !e.Add? || !c.walEnabled || e.write.None? then n
      else if Numbered(c.setup, e.write.value) then 0 else n + 1
  }

  lemma AddFailsCount(c: Config, s: State, e: Event)
    ensures Step(c, s, e).wal.fails ==
            if !e.Add? || !c.walEnabled || e.write.None? then s.wal.fails
            else if Numbered(c.setup, e.write.value) then 0 else s.wal.fails + 1
  {
    hide Flatten, Purge, OtherBuckets, Written, Truncated, BufferKey, Submit, Appended, RollBack, AttemptTask;
  }

  lemma {:induction false} FailsAreStreak(c: Config, f: Files<Payload>, es: seq<Event>)
    ensures Run(c, Start(f), es).wal.fails == Streak(c, es)
  {
    if es == [] {
      hide ReplayLog, LiveLog;
    } else {
      hide Step, Start;
      FailsAreStreak(c, f, es[..|es| - 1]);
      AddFailsCount(c, Run(c, Start(f), es[..|es| - 1]), es[|es| - 1]);
    }
  }

  /**
   * In every run an add is refused, and then leaves the buffer as it was, exactly if it is at least the third in a
   * row whose record got no number; otherwise its row is accepted.
   */
  lemma ThirdFailureRefuses(c: Config, f: Files<Payload>, es: seq<Event>, row: DataRow, day: string, write: Write)
    ensures var e := Event.Add(row, day, write);
            var s, u := Run(c, Start(f), es), Run(c, Start(f), es + [e]);
            if c.walEnabled && write.Some? && !Numbered(c.setup, write.value) && Streak(c, es + [e]) >= 3
            then u.accepted == s.accepted && u.buffer == s.buffer && u.wal.degraded
            else u.accepted == s.accepted + multiset{row}
  {
    var e := Event.Add(row, day, write);
    var s := Run(c, Start(f), es);
    StartIsSound(c, f);
    RunKeepsSound(c, Start(f), es);
    FailsAreStreak(c, f, es);
    RunNext(c, Start(f), es, e);
    assert (es + [e])[..|es|] == es;
    hide Run, Start, TasksSound;
    RefusedOrAccepted(c, s, row, day, write);
  }

  lemma RefusedOrAccepted(c: Config, s: State, row: DataRow, day: string, write: Write)
    requires NoEmptyBucket(s)
    ensures var u := Step(c, s, Event.Add(row, day, write));
            if c.walEnabled && write.Some? && !Numbered(c.setup, write.value) && s.wal.fails + 1 >= 3
            then u.accepted == s.accepted && u.buffer == s.buffer && u.wal.degraded
            else u.accepted == s.accepted + multiset{row}
  {
    hide BufferKey, RollBack, Appended, Written, Submit;
    RollBackRestores(s.buffer, BufferKey(row, c.defaultTable, day), row);
  }

  /** Clearing a table drops exactly the buckets whose key begins with its name and a slash. */
  lemma ClearedExactly(c: Config, s: State, table: string, k: string)
    ensures var b := Step(c, s, ClearTable(table)).buffer;
            && (k in b <==> k in s.buffer && !(table + "/" <= k))
            && (k in b ==> b[k] == s.buffer[k])
    ensures var ns := Step(c, s, ClearTable(table)).lastFlushedSeq;
            && (k in ns <==> k in s.lastFlushedSeq && !(k in s.buffer && table + "/" <= k))
            && (k in ns ==> ns[k] == s.lastFlushedSeq[k])
  {
    hide Flatten;
  }

  // Counters and flags

  /** How often a worker has tried the batches. */
  ghost function Attempts(ts: seq<Task>): nat {
    if ts == [] then 0 else Attempts(ts[..|ts| - 1]) + ts[|ts| - 1].attempts
  }

  ghost function AllAttempts(ts: Tasks): nat {
    Attempts(ts.waiting) + Attempts(ts.queue) + Attempts(ts.busy) + Attempts(ts.retrying) + Attempts(ts.done)
    + Attempts(ts.lost)
  }

  lemma AttemptsAppend(ts: seq<Task>, t: Task)
    ensures Attempts(ts + [t]) == Attempts(ts) + t.attempts
  {
    assert (ts + [t])[..|ts|] == ts;
  }

  lemma {:induction false} AttemptsConcat(a: seq<Task>, b: seq<Task>)
    ensures Attempts(a + b) == Attempts(a) + Attempts(b)
  {
    if b == [] {
      assert a + b == a;
    } else {
      assert (a + b)[..|a + b| - 1] == a + b[..|b| - 1];
      AttemptsConcat(a, b[..|b| - 1]);
    }
  }

  lemma AttemptsTake(ts: seq<Task>, i: nat)
    requires i < |ts|
    ensures Attempts(ts) == Attempts(Without1(ts, i)) + ts[i].attempts
  {
    hide Attempts;
    assert ts == ts[..i] + [ts[i]] + ts[i + 1..];
    AttemptsConcat(ts[..i] + [ts[i]], ts[i + 1..]);
    AttemptsAppend(ts[..i], ts[i]);
    AttemptsConcat(ts[..i], ts[i + 1..]);
  }

  lemma MovesKeepAttempts(c: Config, ts: Tasks, i: nat)
    ensures AllAttempts(AdmitTask(c, ts, i)) == AllAttempts(DropTask(ts, i)) == AllAttempts(RequeueTask(c, ts, i))
            == AllAttempts(TakeTask(c, ts)) == AllAttempts(ts)
  {
    hide Attempts, Without1;
    if i < |ts.waiting| {
      AttemptsTake(ts.waiting, i);
      AttemptsAppend(ts.queue, ts.waiting[i]);
      AttemptsAppend(ts.lost, ts.waiting[i]);
    }
    if i < |ts.retrying| {
      AttemptsTake(ts.retrying, i);
      AttemptsAppend(ts.queue, ts.retrying[i]);
    }
    if ts.queue != [] {
      AttemptsTake(ts.queue, 0);
      AttemptsAppend(ts.busy, ts.queue[0]);
    }
  }

  lemma OneMoreAttempt(c: Config, ts: Tasks, i: nat, ok: bool)
    requires i < |ts.busy|
    ensures var us := AttemptTask(c, ts, i, ok);
            AllAttempts(us) == AllAttempts(ts) + 1 && us.completed == ts.completed + 1
  {
    hide Attempts, Without1;
    var t := ts.busy[i].(attempts := ts.busy[i].attempts + 1);
    AttemptsTake(ts.busy, i);
    AttemptsAppend(ts.done, t);
    AttemptsAppend(ts.lost, t);
    AttemptsAppend(ts.retrying, t.(retries := t.retries + 1));
  }

  lemma SubmitKeepsAttempts(c: Config, ts: Tasks, t: Task)
    requires t.attempts == 0
    ensures AllAttempts(Submit(c, ts, t)) == AllAttempts(ts) && Submit(c, ts, t).completed == ts.completed
  {
    hide Attempts;
    AttemptsAppend(ts.queue, t);
    AttemptsAppend(ts.waiting, t);
  }

  /** The counter of completed tasks moves with the attempts, the degraded flag with the failed writes. */
  ghost predicate Counted(s: State) {
    s.tasks.completed == AllAttempts(s.tasks) && (s.wal.degraded <==> s.wal.fails >= 3)
  }

  lemma TakeCounts(c: Config, s: State, key: string, force: bool)
    requires Counted(s)
    ensures Counted(TakeBucket(c, s, key, force))
  {
    hide AllAttempts, Submit, Marked, Elsewhere;
    if key in s.buffer { SubmitKeepsAttempts(c, s.tasks, TaskOf(c, s, key)); }
  }

  lemma StepCounts(c: Config, s: State, e: Event)
    requires Counted(s)
    ensures Counted(Step(c, s, e))
  {
    hide AllAttempts, TakeBucket, Submit, AttemptTask, Written, Truncated, Purge, Flatten, OtherBuckets, BufferKey,
      Appended, RollBack, Spared, OutOfTable;
    match e
    case Add(row, day, write) =>
      var key := BufferKey(row, c.defaultTable, day);
      if !AddFails(c, s.wal, write) { TakeCounts(c, Accept(c, s, row, key, write), key, false); }
    case Flush(key, force) => TakeCounts(c, s, key, force);
    case Admit(i) => MovesKeepAttempts(c, s.tasks, i);
    case Drop(i) => MovesKeepAttempts(c, s.tasks, i);
    case Take => MovesKeepAttempts(c, s.tasks, 0);
    case Requeue(i) => MovesKeepAttempts(c, s.tasks, i);
    case Attempt(i, ok, _) => if i < |s.tasks.busy| { OneMoreAttempt(c, s.tasks, i, ok); }
    case Remove(_, _, _) =>
    case ClearTable(_) =>
    case TruncateRecovered(_) =>
  }

  /**
   * In every run the counter of completed tasks is the number of attempts made, and the log is marked degraded
   * exactly while the last three or more writes in a row have failed.
   */
  lemma {:induction false} CountersAreRight(c: Config, f: Files<Payload>, es: seq<Event>)
    ensures var s := Run(c, Start(f), es);
            s.tasks.completed == AllAttempts(s.tasks) && (s.wal.degraded <==> Streak(c, es) >= 3)
  {
    FailsAreStreak(c, f, es);
    RunCounts(c, f, es);
  }

  lemma {:induction false} RunCounts(c: Config, f: Files<Payload>, es: seq<Event>)
    ensures Counted(Run(c, Start(f), es))
  {
    if es == [] {
      hide ReplayLog, LiveLog;
    } else {
      hide Step, Start, Counted;
      RunCounts(c, f, es[..|es| - 1]);
      StepCounts(c, Run(c, Start(f), es[..|es| - 1]), es[|es| - 1]);
    }
  }

  /** A restart waits to truncate the files it found exactly if one of their records could be read, up to the last. */
  lemma RestartTruncatesTo(f: Files<Payload>)
    ensures Start(f).recoveryMaxSeq ==
            if exists r <- RecordsOf(f) :: !r.data.Unparsable? then MaxSeq(RecordsOf(f)) else 0
  {
    var log := RecordsOf(f);
    ReplayNumbers(log);
    hide ReplayLog, LiveLog, RecordsOf, MaxSeq;
    if r :| r in log && !r.data.Unparsable? {
      var i :| 0 <= i < |log| && log[i] == r;
      if TombstoneRecords(log) == {} {
        assert forall j: nat | j < |log| && log[j].data.Tombstone? :: j in TombstoneRecords(log);
        assert i in UnburiedRows(log);
      }
    } else {
      forall i: nat | i < |log| ensures log[i].data.Unparsable? { assert log[i] in log; }
      assert UnburiedRows(log) == {} && TombstoneRecords(log) == {};
    }
  }
}
