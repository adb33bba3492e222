/** The concurrent buffer as an object; its methods carry out the steps of the run model. */
module Concurrent {
  import opened Prelude
  import opened WalCodec
  import opened Wal
  import opened BufferKeys
  import opened BufferReplay
  import opened BufferRuns

  class ConcurrentBuffer {
    const config: Config
    const wal: Wal<Payload>
    var buffer: Buffer
    var lastFlushedSeq: map<string, nat>
    var pendingWrites: int
    var recoveryMaxSeqNum: nat
    var walFailCount: nat
    var walDegraded: bool
    var tasks: Tasks
    ghost var removed: multiset<DataRow>
    ghost var accepted: multiset<DataRow>
    ghost var live: map<nat, Spot>

    ghost function Abs(): State
      reads this, wal
    {
      State(buffer, lastFlushedSeq, pendingWrites, recoveryMaxSeqNum, AbsWal(), tasks, removed, accepted, live)
    }

    /** Opens the buffer on a log and recovers what the log holds. */
    constructor (config: Config, wal: Wal<Payload>)
      requires wal.setup == config.setup
      ensures this.config == config && this.wal == wal && Abs() == Start(wal.View())
    {
      this.config, this.wal := config, wal;
      var m := Replay(wal.Records());
      buffer, lastFlushedSeq, pendingWrites := m.buffer, m.lastSeq, m.recovered;
      recoveryMaxSeqNum := if m.recovered > 0 || m.buried > 0 then m.maxSeq else 0;
      walFailCount, walDegraded := 0, false;
      tasks := Tasks([], [], [], [], [], [], 0, 0);
      removed, accepted, live := multiset{}, multiset{}, LiveLog(wal.Records());
      new;
      hide ReplayLog, LiveLog, Concat;
    }

    ghost function AbsWal(): LogState
      reads this, wal
    {
      LogState(wal.View(), walFailCount, walDegraded)
    }

    /** Logs a row; three failures in a row put the log into degraded mode and fail the add. */
    method LogRow(key: string, row: DataRow, write: Write) returns (failed: bool)
      requires wal.setup == config.setup
      modifies this`walFailCount, this`walDegraded, this`lastFlushedSeq, wal
      ensures failed == AddFails(config, old(AbsWal()), write)
      ensures !failed ==> AbsWal() == AcceptedWal(config, old(AbsWal()), key, row, write)
      ensures failed ==> AbsWal() == Logged(config, old(AbsWal()), RECORD_TYPE_DATA, Row(key, row), write)
                                     .(fails := old(walFailCount) + 1, degraded := true)
      ensures lastFlushedSeq ==
              if Secured(config, write) then old(lastFlushedSeq)[key := wal.seqNum] else old(lastFlushedSeq)
      ensures failed ==> !Secured(config, write)
    {
      hide Written;
      if !config.walEnabled || write.None? { return false; }
      var n := wal.Append(RECORD_TYPE_DATA, Row(key, row), 0, write.value);
      if n.None? {
        walFailCount := walFailCount + 1;
        if walFailCount < WAL_FAIL_THRESHOLD { return false; }
        walDegraded := true;
        return true;
      }
      walFailCount, walDegraded := 0, false;
      WrittenRecords(old(wal.View()), wal.setup, RECORD_TYPE_DATA, 0, Row(key, row), write.value);
      lastFlushedSeq := lastFlushedSeq[key := n.value];
      return false;
    }

    /** Inserts the row, logs it, rolls back on persistent log failure, and flushes a full bucket. */
    method Add(row: DataRow, day: string, write: Write) returns (ok: bool)
      requires wal.setup == config.setup
      modifies this, wal
      ensures Abs() == AddRow(config, old(Abs()), row, day, write)
      ensures ok <==> !AddFails(config, old(AbsWal()), write)
    {
      hide BufferKey, TakeBucket, AddRow, AddFails, Accept, Reject;
      AddUnfolds(config, Abs(), row, day, write);
      var key := BufferKey(row, config.defaultTable, day);
      var needFlush := |RowsAt(buffer, key)| + 1 >= config.bufferSize;
      ok := Insert(key, row, write);
      if ok && needFlush {
        TriggerFlush(key, false);
      }
    }

    /** The part of an add before the flush. */
    method Insert(key: string, row: DataRow, write: Write) returns (ok: bool)
      requires wal.setup == config.setup
      modifies this, wal
      ensures ok <==> !AddFails(config, old(AbsWal()), write)
      ensures ok ==> Abs() == Accept(config, old(Abs()), row, key, write)
      ensures !ok ==> Abs() == Reject(config, old(Abs()), row, key, write)
    {
      hide RollBack, Appended, Logged, AcceptedWal, AddFails, Secured, Accept, Reject, RowsAt;
      ghost var before := Abs();
      var insertIdx := |RowsAt(buffer, key)|;
      buffer := Appended(buffer, key, row);
      pendingWrites := pendingWrites + 1;
      var failed := LogRow(key, row, write);
      ok := !failed;
      if failed {
        Undo(key, row, insertIdx, write, before);
      } else {
        Note(key, row, write, before);
      }
    }

    /** Takes the inserted row back. */
    method Undo(key: string, ghost row: DataRow, insertIdx: nat, ghost write: Write, ghost before: State)
      requires Abs() == before.(buffer := Appended(before.buffer, key, row), pendingWrites := before.pendingWrites + 1,
                                wal := Logged(config, before.wal, RECORD_TYPE_DATA, Row(key, row), write)
                                       .(fails := before.wal.fails + 1, degraded := true))
      requires insertIdx == |RowsAt(before.buffer, key)|
      modifies this`buffer, this`pendingWrites
      ensures Abs() == Reject(config, before, row, key, write)
    {
      hide RollBack, Appended, Logged, RowsAt;
      buffer := RollBack(buffer, key, insertIdx);
      pendingWrites := pendingWrites - 1;
    }

    /** The history of an accepted row. */
    ghost method Note(key: string, row: DataRow, write: Write, before: State)
      requires Abs() == before.(buffer := Appended(before.buffer, key, row), pendingWrites := before.pendingWrites + 1,
                                wal := AcceptedWal(config, before.wal, key, row, write),
                                lastFlushedSeq :=
                                  if Secured(config, write) then before.lastFlushedSeq[key := wal.seqNum]
                                  else before.lastFlushedSeq)
      modifies this`accepted, this`live
      ensures Abs() == Accept(config, before, row, key, write)
    {
      hide Appended, AcceptedWal, Secured;
      accepted := accepted + multiset{row};
      live := if Secured(config, write) then live[wal.seqNum := Spot(key, row)] else live;
    }

    /** Turns a bucket into a batch, which queues if there is room and waits otherwise. */
    method TriggerFlush(key: string, force: bool)
      modifies this
      ensures Abs() == TakeBucket(config, old(Abs()), key, force)
    {
      hide Marked, Elsewhere;
      if key !in buffer || (!force && buffer[key] == []) { return; }
      var rows := buffer[key];
      buffer := buffer - {key};
      var maxSeq := if config.walEnabled then At(lastFlushedSeq, key) else 0;
      pendingWrites := pendingWrites - |rows|;
      var task := Task(key, rows, 0, maxSeq, 0, Marked(live, key));
      live := Elsewhere(live, key);
      tasks := if |tasks.queue| < config.queueSize
               then tasks.(queue := tasks.queue + [task]) else tasks.(waiting := tasks.waiting + [task]);
    }

    /** Flushes every bucket there was at the start, in some order. */
    method FlushAllBuffers() returns (ghost order: seq<Event>)
      modifies this
      ensures Abs() == Run(config, old(Abs()), order)
      ensures forall e <- order :: e.Flush? && e.key in old(buffer)
      ensures buffer == map[]
    {
      var todo := buffer.Keys;
      order := [];
      while todo != {}
        invariant Abs() == Run(config, old(Abs()), order)
        invariant forall e <- order :: e.Flush? && e.key in old(buffer)
        invariant buffer.Keys == todo <= old(buffer).Keys
        decreases |todo|
      {
        var key :| key in todo;
        todo := todo - {key};
        assert (order + [Flush(key, true)])[..|order|] == order;
        TriggerFlush(key, true);
        order := order + [Flush(key, true)];
        hide Run;
      }
    }

    /** A blocked submission gets a free slot: its batch joins the end of the queue, and no row is lost or doubled. */
    method AdmitWaiting(i: nat)
      modifies this`tasks
      ensures Abs() == Step(config, old(Abs()), Admit(i))
      ensures forall r :: InTasks(tasks, r) == InTasks(old(tasks), r)
      ensures TasksSound(config, old(tasks)) ==> TasksSound(config, tasks)
    {
      ghost var ts := tasks;
      hide InTasks, TasksSound;
      if i < |tasks.waiting| && |tasks.queue| < config.queueSize {
        var task := tasks.waiting[i];
        tasks := tasks.(waiting := tasks.waiting[..i] + tasks.waiting[i + 1..], queue := tasks.queue + [task]);
      }
      assert tasks == AdmitTask(config, ts, i);
      assert Abs() == Step(config, old(Abs()), Admit(i));
      hide *;
      forall r ensures InTasks(tasks, r) == InTasks(ts, r) { MovesCount(config, ts, i, r); }
      if TasksSound(config, ts) { MovesKeepTasks(config, ts, i); }
    }

    /** A blocked submission times out: its batch is lost, and the failure counter says so. */
    method DropWaiting(i: nat)
      modifies this`tasks
      ensures Abs() == Step(config, old(Abs()), Drop(i))
      ensures forall r :: InTasks(tasks, r) == InTasks(old(tasks), r)
      ensures tasks.failed - |tasks.lost| == old(tasks.failed) - |old(tasks).lost|
      ensures TasksSound(config, old(tasks)) ==> TasksSound(config, tasks)
    {
      ghost var ts := tasks;
      hide InTasks, TasksSound;
      if i < |tasks.waiting| {
        var task := tasks.waiting[i];
        tasks := tasks.(waiting := tasks.waiting[..i] + tasks.waiting[i + 1..],
                        lost := tasks.lost + [task], failed := tasks.failed + 1);
      }
      assert tasks == DropTask(ts, i);
      assert Abs() == Step(config, old(Abs()), Drop(i));
      assert tasks.failed - |tasks.lost| == ts.failed - |ts.lost|;
      hide *;
      forall r ensures InTasks(tasks, r) == InTasks(ts, r) { MovesCount(config, ts, i, r); }
      if TasksSound(config, ts) { MovesKeepTasks(config, ts, i); }
    }

    /** A retry leaves its sleep and, once there is room, joins the end of the queue. */
    method RequeueRetry(i: nat)
      modifies this`tasks
      ensures Abs() == Step(config, old(Abs()), Requeue(i))
      ensures forall r :: InTasks(tasks, r) == InTasks(old(tasks), r)
      ensures TasksSound(config, old(tasks)) ==> TasksSound(config, tasks)
    {
      ghost var ts := tasks;
      hide InTasks, TasksSound;
      if i < |tasks.retrying| && |tasks.queue| < config.queueSize {
        var task := tasks.retrying[i];
        tasks := tasks.(retrying := tasks.retrying[..i] + tasks.retrying[i + 1..], queue := tasks.queue + [task]);
      }
      assert tasks == RequeueTask(config, ts, i);
      assert Abs() == Step(config, old(Abs()), Requeue(i));
      hide *;
      forall r ensures InTasks(tasks, r) == InTasks(ts, r) { MovesCount(config, ts, i, r); }
      if TasksSound(config, ts) { MovesKeepTasks(config, ts, i); }
    }

    /** An idle worker takes the head of the queue; no row is lost or doubled. */
    method TakeFromQueue()
      modifies this`tasks
      ensures Abs() == Step(config, old(Abs()), Take)
      ensures forall r :: InTasks(tasks, r) == InTasks(old(tasks), r)
      ensures TasksSound(config, old(tasks)) ==> TasksSound(config, tasks)
    {
      ghost var ts := tasks;
      hide InTasks, TasksSound;
      if tasks.queue != [] && |tasks.busy| < config.workers {
        var task := tasks.queue[0];
        tasks := tasks.(queue := tasks.queue[1..], busy := tasks.busy + [task]);
        assert Without1(ts.queue, 0) == ts.queue[1..];
      }
      assert tasks == TakeTask(config, ts);
      assert Abs() == Step(config, old(Abs()), Take);
      hide *;
      forall r ensures InTasks(tasks, r) == InTasks(ts, r) { MovesCount(config, ts, 0, r); }
      if TasksSound(config, ts) { MovesKeepTasks(config, ts, 0); }
    }

    /** The end of a worker's attempt; success truncates the log at the batch's number. */
    method ProcessTask(i: nat, ok: bool, stuck: set<nat>)
      requires wal.setup == config.setup
      modifies this`tasks, wal
      ensures Abs() == Worked(config, old(Abs()), i, ok, stuck)
    {
      hide Truncated;
      if i >= |tasks.busy| { return; }
      var task := tasks.busy[i].(attempts := tasks.busy[i].attempts + 1);
      tasks := tasks.(busy := tasks.busy[..i] + tasks.busy[i + 1..], completed := tasks.completed + 1);
      if ok || task.rows == [] {
        tasks := tasks.(done := tasks.done + [task]);
        if config.walEnabled && task.maxSeq > 0 {
          wal.Truncate(task.maxSeq, stuck);
        }
      } else if task.retries < config.maxRetries {
        tasks := tasks.(retrying := tasks.retrying + [task.(retries := task.retries + 1)]);
      } else {
        tasks := tasks.(lost := tasks.lost + [task], failed := tasks.failed + 1);
      }
    }

    /** One look at whether the recovered rows are gone from buffer and queue; if so, their files are truncated. */
    method TruncateRecoveryWal(stuck: set<nat>) returns (truncated: bool)
      modifies this`recoveryMaxSeqNum, wal
      ensures Abs() == Step(config, old(Abs()), TruncateRecovered(stuck))
      ensures truncated <==> LooksDrained(config, old(Abs()))
      ensures truncated ==> !LooksDrained(config, Abs())
    {
      hide Truncated;
      truncated := config.walEnabled && recoveryMaxSeqNum > 0 && |buffer| == 0 && |tasks.queue| == 0;
      if truncated {
        wal.Truncate(recoveryMaxSeqNum + 1, stuck);
        recoveryMaxSeqNum := 0;
      }
    }

    /** Removes an identifier's rows and, if there were any, logs a tombstone. */
    method Remove(table: string, id: string, write: Write) returns (removedCount: nat)
      requires wal.setup == config.setup
      modifies this, wal
      ensures Abs() == RemoveRows(config, old(Abs()), table, id, write)
      ensures removedCount == |Flatten(old(buffer))| - |Flatten(buffer)|
    {
      hide Flatten, Purge, Written;
      var b;
      b, removedCount := PurgeBuckets(buffer, table, id);
      GoneCount(buffer, b, removedCount) by { PurgeShrinks(buffer, table, id); }
      ghost var before := Abs();
      removed := removed + (Flatten(buffer) - Flatten(b));
      buffer := b;
      pendingWrites := pendingWrites - removedCount;
      assert Abs() == Shrunk(before, b);
      live := Spared(live, table, id);
      hide Shrunk;
      if removedCount > 0 {
        if config.walEnabled && write.Some? {
          var _ := wal.Append(RECORD_TYPE_TOMBSTONE, Tombstone(table, id), 0, write.value);
        }
      }
    }

    /** Drops all buckets of a table together with their log numbers. */
    method ClearTable(table: string) returns (removedCount: nat)
      modifies this
      ensures Abs() == ClearBuckets(old(Abs()), table)
      ensures removedCount == |Flatten(old(buffer))| - |Flatten(buffer)|
    {
      hide Flatten, TableKeys;
      var gone;
      gone, removedCount := FindBuckets(buffer, table);
      var b := buffer - gone;
      GoneCount(buffer, b, removedCount) by { OthersShrink(buffer, table); }
      ghost var before := Abs();
      removed := removed + (Flatten(buffer) - Flatten(b));
      pendingWrites := pendingWrites - removedCount;
      buffer := b;
      assert Abs() == Shrunk(before, b);
      hide Shrunk;
      lastFlushedSeq := lastFlushedSeq - gone;
      live := OutOfTable(live, table);
    }
  }

  /** Collects a table's buckets in any order and counts their rows. */
  method FindBuckets(buffer: Buffer, table: string) returns (gone: set<string>, count: nat)
    ensures gone == TableKeys(buffer, table)
    ensures count + |Flatten(buffer - gone)| == |Flatten(buffer)|
  {
    hide Flatten, InTable;
    gone, count := {}, 0;
    assert buffer - {} == buffer;
    var todo := buffer.Keys;
    while todo != {}
      invariant todo <= buffer.Keys && gone == TableKeys(buffer, table) - todo
      invariant count + |Flatten(buffer - gone)| == |Flatten(buffer)|
      decreases |todo|
    {
      var k :| k in todo;
      todo := todo - {k};
      if InTable(k, table) {
        ReplaceBucket(buffer - gone, k, []);
        assert buffer - gone - {k} == buffer - (gone + {k});
        count := count + |buffer[k]|;
        gone := gone + {k};
      }
    }
  }

  lemma OthersShrink(buffer: Buffer, table: string)
    ensures Flatten(OtherBuckets(buffer, table)) <= Flatten(buffer)
  {
    hide Flatten;
    FlattenShrinks(buffer, OtherBuckets(buffer, table));
  }

  lemma GoneCount(buffer: Buffer, b: Buffer, count: nat)
    requires Flatten(b) <= Flatten(buffer) && count + |Flatten(b)| == |Flatten(buffer)|
    ensures count == |Flatten(buffer) - Flatten(b)|
    ensures count == 0 <==> Flatten(buffer) == Flatten(b)
  {
    hide Flatten;
    var rest := Flatten(buffer) - Flatten(b);
    assert Flatten(buffer) == Flatten(b) + rest;
    if count == 0 {
      assert rest == multiset{};
    }
  }

  lemma AddUnfolds(c: Config, s: State, row: DataRow, day: string, write: Write)
    ensures var key := BufferKey(row, c.defaultTable, day);
            AddRow(c, s, row, day, write) ==
            if AddFails(c, s.wal, write) then Reject(c, s, row, key, write)
            else if |RowsAt(s.buffer, key)| + 1 >= c.bufferSize
            then TakeBucket(c, Accept(c, s, row, key, write), key, false)
            else Accept(c, s, row, key, write)
  {
  }
}
