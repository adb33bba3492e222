/**
 * The concurrent buffer in operation: adds, removals, flush tasks that wait, queue, are worked on, fail, retry
 * and give up. Each call, and each start and end of a worker's attempt, is one step; external outcomes are inputs.
 */
module BufferRuns {
  import opened Prelude
  import opened WalCodec
  import opened Wal
  import opened BufferKeys
  import opened BufferReplay

  const WAL_FAIL_THRESHOLD := 3

  datatype Config = Config(
    bufferSize: int, queueSize: nat, workers: nat, maxRetries: int, walEnabled: bool, defaultTable: string,
    setup: Setup)

  /**
   * A batch taken from a bucket. `attempts` and `seqs` are history: how often a worker has tried it, and which
   * log records its rows have.
   */
  datatype Task = Task(key: string, rows: seq<DataRow>, retries: nat, maxSeq: nat, attempts: nat,
                       ghost seqs: map<nat, DataRow>)

  /**
   * `waiting` tasks found the queue full, `busy` tasks are with a worker, `retrying` tasks sleep before they queue
   * again; `done` and `lost` are history. `failed` and `completed` are the published counters.
   */
  datatype Tasks = Tasks(
    waiting: seq<Task>, queue: seq<Task>, busy: seq<Task>, retrying: seq<Task>, done: seq<Task>, lost: seq<Task>,
    failed: nat, completed: nat)

  datatype LogState = LogState(files: Files<Payload>, fails: nat, degraded: bool)

  /** Where a log record's row is buffered. */
  datatype Spot = Spot(key: string, row: DataRow)

  /**
   * `recoveryMaxSeq` is the last number found by recovery, until the recovered files have been truncated. `removed`,
   * `accepted` and `live` are history; `live` holds the log records of the buffered rows.
   */
  datatype State = State(
    buffer: Buffer, lastFlushedSeq: map<string, nat>, pendingWrites: int, recoveryMaxSeq: nat,
    wal: LogState, tasks: Tasks, removed: multiset<DataRow>, accepted: multiset<DataRow>, live: map<nat, Spot>)
  {
    function Records(): Log<Payload> {
      RecordsOf(wal.files)
    }
  }

  /** The fate of a log write; `None` when the record could not be marshalled. */
  type Write = Option<Io>

  /** The write left a record and returned its number. */
  predicate Secured(c: Config, write: Write) {
    c.walEnabled && write.Some? && Numbered(c.setup, write.value)
  }

  datatype Event =
    | Add(row: DataRow, day: string, write: Write)
    | Flush(key: string, force: bool)
    | Admit(i: nat)
    | Drop(i: nat)
    | Take
    | Attempt(i: nat, ok: bool, stuck: set<nat>)
    | Requeue(i: nat)
    | Remove(table: string, id: string, write: Write)
    | ClearTable(table: string)
    | TruncateRecovered(stuck: set<nat>)

  // Task steps

  function Without1<T>(s: seq<T>, i: nat): seq<T>
    requires i < |s|
  {
    s[..i] + s[i + 1..]
  }

  function Submit(c: Config, ts: Tasks, t: Task): Tasks {
    if |ts.queue| < c.queueSize then ts.(queue := ts.queue + [t]) else ts.(waiting := ts.waiting + [t])
  }

  function AdmitTask(c: Config, ts: Tasks, i: nat): Tasks {
    if i < |ts.waiting| && |ts.queue| < c.queueSize
    then ts.(waiting := Without1(ts.waiting, i), queue := ts.queue + [ts.waiting[i]]) else ts
  }

  function DropTask(ts: Tasks, i: nat): Tasks {
    if i < |ts.waiting|
    then ts.(waiting := Without1(ts.waiting, i), lost := ts.lost + [ts.waiting[i]], failed := ts.failed + 1) else ts
  }

  function RequeueTask(c: Config, ts: Tasks, i: nat): Tasks {
    if i < |ts.retrying| && |ts.queue| < c.queueSize
    then ts.(retrying := Without1(ts.retrying, i), queue := ts.queue + [ts.retrying[i]]) else ts
  }

  /** An idle worker takes the head of the queue. */
  function TakeTask(c: Config, ts: Tasks): Tasks {
    if ts.queue != [] && |ts.busy| < c.workers
    then ts.(queue := Without1(ts.queue, 0), busy := ts.busy + [ts.queue[0]]) else ts
  }

  /** A worker is done with its batch; an empty batch always succeeds. */
  function AttemptTask(c: Config, ts: Tasks, i: nat, ok: bool): Tasks
    requires i < |ts.busy|
  {
    var t := ts.busy[i].(attempts := ts.busy[i].attempts + 1);
    var ts1 := ts.(busy := Without1(ts.busy, i), completed := ts.completed + 1);
    if ok || t.rows == [] then ts1.(done := ts.done + [t])
    else if t.retries < c.maxRetries then ts1.(retrying := ts.retrying + [t.(retries := t.retries + 1)])
    else ts1.(lost := ts.lost + [t], failed := ts.failed + 1)
  }

  /** The batches not finished. */
  ghost function UnderWay(ts: Tasks): seq<Task> {
    ts.waiting + ts.queue + ts.busy + ts.retrying
  }

  // Buffer steps

  function TaskOf(c: Config, s: State, key: string): Task
    requires key in s.buffer
  {
    Task(key, s.buffer[key], 0, if c.walEnabled then At(s.lastFlushedSeq, key) else 0, 0, Marked(s.live, key))
  }

  /** The records of a bucket's rows. */
  function Marked(live: map<nat, Spot>, key: string): map<nat, DataRow> {
    map n | n in live && live[n].key == key :: live[n].row
  }

  function Elsewhere(live: map<nat, Spot>, key: string): map<nat, Spot> {
    map n | n in live && live[n].key != key :: live[n]
  }

  function Spared(live: map<nat, Spot>, table: string, id: string): map<nat, Spot> {
    map n | n in live && !(InTable(live[n].key, table) && live[n].row.id == id) :: live[n]
  }

  function OutOfTable(live: map<nat, Spot>, table: string): map<nat, Spot> {
    map n | n in live && !InTable(live[n].key, table) :: live[n]
  }

  function TakeBucket(c: Config, s: State, key: string, force: bool): State {
    if key !in s.buffer || (!force && s.buffer[key] == []) then s
    else s.(buffer := s.buffer - {key}, pendingWrites := s.pendingWrites - |s.buffer[key]|,
            tasks := Submit(c, s.tasks, TaskOf(c, s, key)), live := Elsewhere(s.live, key))
  }

  /** Takes back the row inserted at `i`; a bucket left empty is dropped. */
  function RollBack(b: Buffer, key: string, i: nat): Buffer {
    if key !in b || i >= |b[key]| then b
    else
      var rows := Without1(b[key], i);
      if rows == [] then b - {key} else b[key := rows]
  }

  /** The log after a write was attempted: a taken record is there even if the write failed later. */
  ghost function Logged(c: Config, w: LogState, kind: byte, p: Payload, write: Write): LogState {
    if c.walEnabled && write.Some? then w.(files := Written(w.files, c.setup, kind, 0, p, write.value)) else w
  }

  /** Add reports an error exactly when the log failed often enough in a row. */
  predicate AddFails(c: Config, w: LogState, write: Write) {
    c.walEnabled && write.Some? && !Numbered(c.setup, write.value) && w.fails + 1 >= WAL_FAIL_THRESHOLD
  }

  function Appended(b: Buffer, key: string, row: DataRow): Buffer {
    b[key := RowsAt(b, key) + [row]]
  }

  ghost function AcceptedWal(c: Config, w: LogState, key: string, row: DataRow, write: Write): LogState {
    var w1 := Logged(c, w, RECORD_TYPE_DATA, Row(key, row), write);
    if !c.walEnabled || write.None? then w1
    else if Numbered(c.setup, write.value) then w1.(fails := 0, degraded := false)
    else w1.(fails := w.fails + 1)
  }

  ghost function Accept(c: Config, s: State, row: DataRow, key: string, write: Write): State {
    var w := AcceptedWal(c, s.wal, key, row, write);
    State(Appended(s.buffer, key, row),
          if Secured(c, write) then s.lastFlushedSeq[key := w.files.top] else s.lastFlushedSeq,
          s.pendingWrites + 1, s.recoveryMaxSeq, w, s.tasks, s.removed, s.accepted + multiset{row},
          if Secured(c, write) then s.live[w.files.top := Spot(key, row)] else s.live)
  }

  ghost function Reject(c: Config, s: State, row: DataRow, key: string, write: Write): State {
    var w := Logged(c, s.wal, RECORD_TYPE_DATA, Row(key, row), write);
    s.(buffer := RollBack(Appended(s.buffer, key, row), key, |RowsAt(s.buffer, key)|),
       wal := w.(fails := s.wal.fails + 1, degraded := true))
  }

  ghost function AddRow(c: Config, s: State, row: DataRow, day: string, write: Write): State {
    var key := BufferKey(row, c.defaultTable, day);
    if AddFails(c, s.wal, write) then Reject(c, s, row, key, write)
    else
      var s1 := Accept(c, s, row, key, write);
      if |RowsAt(s.buffer, key)| + 1 >= c.bufferSize then TakeBucket(c, s1, key, false) else s1
  }

  /** The state after the buckets shrank to `b`; the rows that went count as removed. */
  ghost function Shrunk(s: State, b: Buffer): State {
    var gone := Flatten(s.buffer) - Flatten(b);
    s.(buffer := b, pendingWrites := s.pendingWrites - |gone|, removed := s.removed + gone)
  }

  ghost function RemoveRows(c: Config, s: State, table: string, id: string, write: Write): State {
    var s1 := Shrunk(s, Purge(s.buffer, table, id)).(live := Spared(s.live, table, id));
    if Flatten(s.buffer) == Flatten(s1.buffer) then s1
    else s1.(wal := Logged(c, s.wal, RECORD_TYPE_TOMBSTONE, Tombstone(table, id), write))
  }

  function TableKeys(b: Buffer, table: string): set<string> {
    set k | k in b && InTable(k, table)
  }

  function OtherBuckets(b: Buffer, table: string): Buffer {
    b - TableKeys(b, table)
  }

  ghost function ClearBuckets(s: State, table: string): State {
    Shrunk(s, OtherBuckets(s.buffer, table))
    .(lastFlushedSeq := s.lastFlushedSeq - TableKeys(s.buffer, table), live := OutOfTable(s.live, table))
  }

  ghost function Worked(c: Config, s: State, i: nat, ok: bool, stuck: set<nat>): State {
    if i >= |s.tasks.busy| then s
    else
      var t := s.tasks.busy[i];
      var s1 := s.(tasks := AttemptTask(c, s.tasks, i, ok));
      if (ok || t.rows == []) && c.walEnabled && t.maxSeq > 0
      then s1.(wal := s.wal.(files := Truncated(s.wal.files, t.maxSeq, stuck))) else s1
  }

  /** Recovered rows count as flushed once the buffer and the queue are empty. */
  predicate LooksDrained(c: Config, s: State) {
    c.walEnabled && s.recoveryMaxSeq > 0 && s.buffer == map[] && s.tasks.queue == []
  }

  /** The truncation after recovery. */
  function Drained(c: Config, s: State, stuck: set<nat>): State {
    if LooksDrained(c, s)
    then s.(recoveryMaxSeq := 0,
            wal := s.wal.(files := Truncated(s.wal.files, s.recoveryMaxSeq + 1, stuck)))
    else s
  }

  ghost function Step(c: Config, s: State, e: Event): State {
    match e
    case Add(row, day, write) => AddRow(c, s, row, day, write)
    case Flush(key, force) => TakeBucket(c, s, key, force)
    case Admit(i) => s.(tasks := AdmitTask(c, s.tasks, i))
    case Drop(i) => s.(tasks := DropTask(s.tasks, i))
    case Take => s.(tasks := TakeTask(c, s.tasks))
    case Attempt(i, ok, stuck) => Worked(c, s, i, ok, stuck)
    case Requeue(i) => s.(tasks := RequeueTask(c, s.tasks, i))
    case Remove(table, id, write) => RemoveRows(c, s, table, id, write)
    case ClearTable(table) => ClearBuckets(s, table)
    case TruncateRecovered(stuck) => Drained(c, s, stuck)
  }

  ghost function Run(c: Config, s: State, es: seq<Event>): State {
    if es == [] then s else Step(c, Run(c, s, es[..|es| - 1]), es[|es| - 1])
  }

  /** The log records of the rows that replay leaves in the buffer. */
  function LiveLog(log: Log<Payload>): map<nat, Spot> {
    if log == [] then map[]
    else
      var front, r := log[..|log| - 1], log[|log| - 1];
      match r.data
      case Unparsable => LiveLog(front)
      case Row(key, row) =>
        if TombstoneKey(row.table, row.id) in ReplayLog(front).tombstones then LiveLog(front)
        else LiveLog(front)[r.seqNum := Spot(key, row)]
      case Tombstone(table, id) => Spared(LiveLog(front), table, id)
  }

  /** A fresh process: the buffer holds what the log yields, and the counter what recovery counted. */
  function Start(f: Files<Payload>): State {
    var m := ReplayLog(RecordsOf(f));
    State(m.buffer, m.lastSeq, m.recovered, if m.recovered > 0 || m.buried > 0 then m.maxSeq else 0,
          LogState(f, 0, false), Tasks([], [], [], [], [], [], 0, 0), multiset{}, multiset{}, LiveLog(RecordsOf(f)))
  }

  // Accounting

  /** How often a row occurs in the batches of some tasks. */
  ghost function InBatches(ts: seq<Task>, r: DataRow): nat {
    if ts == [] then 0 else InBatches(ts[..|ts| - 1], r) + multiset(ts[|ts| - 1].rows)[r]
  }

  ghost function InTasks(ts: Tasks, r: DataRow): nat {
    InBatches(ts.waiting, r) + InBatches(ts.queue, r) + InBatches(ts.busy, r) + InBatches(ts.retrying, r)
    + InBatches(ts.done, r) + InBatches(ts.lost, r)
  }

  /** How often a row occurs anywhere: buffered, under way, stored, lost or removed. */
  ghost function Occurrences(s: State, r: DataRow): nat {
    Flatten(s.buffer)[r] + InTasks(s.tasks, r) + s.removed[r]
  }

  /** How far the pending counter is from the number of buffered rows. */
  ghost function Drift(s: State): int {
    s.pendingWrites - |Flatten(s.buffer)|
  }

  lemma InBatchesAppend(ts: seq<Task>, t: Task, r: DataRow)
    ensures InBatches(ts + [t], r) == InBatches(ts, r) + multiset(t.rows)[r]
  {
    assert (ts + [t])[..|ts|] == ts;
  }

  lemma {:induction false} InBatchesConcat(a: seq<Task>, b: seq<Task>, r: DataRow)
    ensures InBatches(a + b, r) == InBatches(a, r) + InBatches(b, r)
  {
    if b == [] {
      assert a + b == a;
    } else {
      assert (a + b)[..|a + b| - 1] == a + b[..|b| - 1];
      InBatchesConcat(a, b[..|b| - 1], r);
    }
  }

  lemma InBatchesTake(ts: seq<Task>, i: nat, r: DataRow)
    requires i < |ts|
    ensures InBatches(ts, r) == InBatches(Without1(ts, i), r) + multiset(ts[i].rows)[r]
  {
    assert ts == ts[..i] + [ts[i]] + ts[i + 1..];
    InBatchesConcat(ts[..i] + [ts[i]], ts[i + 1..], r);
    InBatchesAppend(ts[..i], ts[i], r);
    InBatchesConcat(ts[..i], ts[i + 1..], r);
  }

  lemma SubmitCounts(c: Config, ts: Tasks, t: Task, r: DataRow)
    ensures InTasks(Submit(c, ts, t), r) == InTasks(ts, r) + multiset(t.rows)[r]
  {
    hide InBatches;
    InBatchesAppend(ts.queue, t, r);
    InBatchesAppend(ts.waiting, t, r);
  }

  lemma MovesCount(c: Config, ts: Tasks, i: nat, r: DataRow)
    ensures InTasks(AdmitTask(c, ts, i), r) == InTasks(ts, r)
    ensures InTasks(DropTask(ts, i), r) == InTasks(ts, r)
    ensures InTasks(RequeueTask(c, ts, i), r) == InTasks(ts, r)
    ensures InTasks(TakeTask(c, ts), r) == InTasks(ts, r)
  {
    hide InBatches, Without1;
    if i < |ts.waiting| {
      InBatchesTake(ts.waiting, i, r);
      InBatchesAppend(ts.queue, ts.waiting[i], r);
      InBatchesAppend(ts.lost, ts.waiting[i], r);
    }
    if i < |ts.retrying| {
      InBatchesTake(ts.retrying, i, r);
      InBatchesAppend(ts.queue, ts.retrying[i], r);
    }
    if ts.queue != [] {
      InBatchesTake(ts.queue, 0, r);
      InBatchesAppend(ts.busy, ts.queue[0], r);
    }
  }

  lemma AttemptCounts(c: Config, ts: Tasks, i: nat, ok: bool, r: DataRow)
    requires i < |ts.busy|
    ensures InTasks(AttemptTask(c, ts, i, ok), r) == InTasks(ts, r)
  {
    hide InBatches, Without1;
    var t := ts.busy[i].(attempts := ts.busy[i].attempts + 1);
    InBatchesTake(ts.busy, i, r);
    InBatchesAppend(ts.done, t, r);
    InBatchesAppend(ts.lost, t, r);
    InBatchesAppend(ts.retrying, t.(retries := t.retries + 1), r);
  }

  lemma FlattenAppend(b: Buffer, key: string, row: DataRow)
    ensures Flatten(Appended(b, key, row)) == Flatten(b) + multiset{row}
  {
    hide Flatten;
    FlattenPut(b, key, RowsAt(b, key) + [row]);
    if key in b {
      FlattenPick(b, key);
    } else {
      assert b - {key} == b;
    }
  }

  lemma {:induction false} FlattenShrinks<K, T>(b: map<K, seq<T>>, small: map<K, seq<T>>)
    requires small.Keys <= b.Keys && forall k <- small :: multiset(small[k]) <= multiset(b[k])
    ensures Flatten(small) <= Flatten(b)
    decreases b
  {
    if b == map[] {
      assert small == map[];
    } else {
      var k :| k in b;
      FlattenPick(b, k);
      FlattenShrinks(b - {k}, small - {k});
      if k in small {
        FlattenPick(small, k);
      } else {
        assert small - {k} == small;
      }
    }
  }

  lemma {:induction false} KeepShrinks(rows: seq<DataRow>, id: string)
    ensures multiset(Keep(rows, id)) <= multiset(rows)
  {
    if rows != [] {
      KeepShrinks(rows[..|rows| - 1], id);
      assert rows == rows[..|rows| - 1] + [rows[|rows| - 1]];
    }
  }

  lemma PurgeShrinks(b: Buffer, table: string, id: string)
    ensures Flatten(Purge(b, table, id)) <= Flatten(b)
  {
    forall k | k in Purge(b, table, id) ensures multiset(Purge(b, table, id)[k]) <= multiset(b[k]) {
      KeepShrinks(b[k], id);
    }
    FlattenShrinks(b, Purge(b, table, id));
  }

  /** When Add is one step, the index-based rollback restores the buffer exactly. */
  lemma RollBackRestores(b: Buffer, key: string, row: DataRow)
    requires forall k <- b :: b[k] != []
    ensures RollBack(Appended(b, key, row), key, |RowsAt(b, key)|) == b
  {
    assert Without1(Appended(b, key, row)[key], |RowsAt(b, key)|) == RowsAt(b, key);
  }

  // What each step does to the accounts

  lemma TakeConserves(c: Config, s: State, key: string, force: bool, r: DataRow)
    ensures var t := TakeBucket(c, s, key, force);
            Occurrences(t, r) == Occurrences(s, r) && t.accepted == s.accepted && Drift(t) == Drift(s)
  {
    hide InTasks, Flatten, Submit;
    if key in s.buffer {
      var rows := s.buffer[key];
      FlattenPick(s.buffer, key);
      SubmitCounts(c, s.tasks, TaskOf(c, s, key), r);
      assert |Flatten(s.buffer)| == |rows| + |Flatten(s.buffer - {key})|;
      assert Flatten(s.buffer)[r] == multiset(rows)[r] + Flatten(s.buffer - {key})[r];
    }
  }

  lemma ShrinkConserves(s: State, b: Buffer, r: DataRow)
    requires Flatten(b) <= Flatten(s.buffer)
    ensures Occurrences(Shrunk(s, b), r) == Occurrences(s, r) && Drift(Shrunk(s, b)) == Drift(s)
  {
    hide InTasks, Flatten;
    assert Flatten(s.buffer) == Flatten(b) + (Flatten(s.buffer) - Flatten(b));
  }

  lemma RemoveConserves(c: Config, s: State, table: string, id: string, write: Write, r: DataRow)
    ensures var t := RemoveRows(c, s, table, id, write);
            Occurrences(t, r) == Occurrences(s, r) && t.accepted == s.accepted && Drift(t) == Drift(s)
  {
    PurgeShrinks(s.buffer, table, id);
    hide Purge, Flatten, Logged, InTasks;
    ShrinkConserves(s, Purge(s.buffer, table, id), r);
  }

  lemma ClearConserves(s: State, table: string, r: DataRow)
    ensures var t := ClearBuckets(s, table);
            Occurrences(t, r) == Occurrences(s, r) && t.accepted == s.accepted && Drift(t) == Drift(s)
  {
    FlattenShrinks(s.buffer, OtherBuckets(s.buffer, table));
    hide OtherBuckets, Flatten, InTasks;
    ShrinkConserves(s, OtherBuckets(s.buffer, table), r);
  }

  lemma AcceptConserves(c: Config, s: State, row: DataRow, key: string, write: Write, r: DataRow)
    ensures var t := Accept(c, s, row, key, write);
            && Occurrences(t, r) == Occurrences(s, r) + multiset{row}[r]
            && Drift(t) == Drift(s)
  {
    hide InTasks, Flatten, Appended, AcceptedWal;
    FlattenAppend(s.buffer, key, row);
    assert |Flatten(Appended(s.buffer, key, row))| == |Flatten(s.buffer)| + 1;
  }

  lemma AddConserves(c: Config, s: State, row: DataRow, day: string, write: Write, r: DataRow)
    requires NoEmptyBucket(s)
    ensures var t := AddRow(c, s, row, day, write);
            && t.accepted == s.accepted + (if AddFails(c, s.wal, write) then multiset{} else multiset{row})
            && Occurrences(t, r) == Occurrences(s, r) + t.accepted[r] - s.accepted[r]
            && Drift(t) == Drift(s)
  {
    hide InTasks, Flatten, RollBack, TakeBucket, BufferKey, Appended, Logged, AcceptedWal;
    var key := BufferKey(row, c.defaultTable, day);
    if AddFails(c, s.wal, write) {
      RollBackRestores(s.buffer, key, row);
    } else {
      AcceptConserves(c, s, row, key, write, r);
      var s1 := Accept(c, s, row, key, write);
      assert s1.accepted == s.accepted + multiset{row};
      hide Accept, Occurrences, Drift;
      TakeConserves(c, s1, key, false, r);
    }
  }

  lemma StepConserves(c: Config, s: State, e: Event, r: DataRow)
    requires NoEmptyBucket(s)
    ensures var t := Step(c, s, e);
            Occurrences(t, r) == Occurrences(s, r) + t.accepted[r] - s.accepted[r] && Drift(t) == Drift(s)
  {
    hide Occurrences, Drift, AddRow, TakeBucket, RemoveRows, ClearBuckets;
    match e
    case Add(row, day, write) => AddConserves(c, s, row, day, write, r);
    case Flush(key, force) => TakeConserves(c, s, key, force, r);
    case Remove(table, id, write) => RemoveConserves(c, s, table, id, write, r);
    case ClearTable(table) => ClearConserves(s, table, r);
    case Take => TaskStepConserves(c, s, e, r);
    case Attempt(_, _, _) => TaskStepConserves(c, s, e, r);
    case TruncateRecovered(_) => TaskStepConserves(c, s, e, r);
    case Admit(_) => TaskStepConserves(c, s, e, r);
    case Drop(_) => TaskStepConserves(c, s, e, r);
    case Requeue(_) => TaskStepConserves(c, s, e, r);
  }

  lemma TaskStepConserves(c: Config, s: State, e: Event, r: DataRow)
    requires e.Take? || e.Attempt? || e.Admit? || e.Drop? || e.Requeue? || e.TruncateRecovered?
    ensures var t := Step(c, s, e);
            Occurrences(t, r) == Occurrences(s, r) && t.accepted == s.accepted && Drift(t) == Drift(s)
  {
    hide InTasks, Flatten, Without, TakeTask, AttemptTask, AdmitTask, DropTask, RequeueTask, Truncated;
    match e
    case Attempt(i, ok, _) =>
      if i < |s.tasks.busy| { AttemptCounts(c, s.tasks, i, ok, r); }
    case Take => MovesCount(c, s.tasks, 0, r);
    case TruncateRecovered(_) =>
    case Admit(i) => MovesCount(c, s.tasks, i, r);
    case Drop(i) => MovesCount(c, s.tasks, i, r);
    case Requeue(i) => MovesCount(c, s.tasks, i, r);
  }

  // Buckets and tasks stay sound

  ghost predicate NoEmptyBucket(s: State) {
    forall k <- s.buffer :: s.buffer[k] != []
  }

  lemma AddKeepsBuckets(c: Config, s: State, row: DataRow, day: string, write: Write)
    requires NoEmptyBucket(s)
    ensures NoEmptyBucket(AddRow(c, s, row, day, write))
  {
    hide BufferKey, RollBack, Submit, Logged, AcceptedWal;
    RollBackRestores(s.buffer, BufferKey(row, c.defaultTable, day), row);
  }

  lemma StepKeepsBuckets(c: Config, s: State, e: Event)
    requires NoEmptyBucket(s)
    ensures NoEmptyBucket(Step(c, s, e))
  {
    hide Keep, Flatten, Without, AddRow, InTable, Submit, AdmitTask, DropTask, RequeueTask, TakeTask, AttemptTask,
         Truncated;
    if e.Add? {
      AddKeepsBuckets(c, s, e.row, e.day, e.write);
    }
  }

  function Allowed(c: Config): nat {
    if c.maxRetries > 0 then c.maxRetries else 0
  }

  /** How far a batch has come. */
  datatype Stage = Waiting | Active | Asleep | Finished | Lost

  /**
   * How often a batch was tried: never while it waits to be queued; as often as it was put back afterwards; at
   * least once before it is stored; and it is lost only if it was never queued or every attempt allowed has failed.
   */
  ghost predicate TaskSound(c: Config, t: Task, stage: Stage) {
    match stage
    case Waiting => t.attempts == t.retries == 0
    case Active => t.attempts == t.retries <= Allowed(c)
    case Asleep => 0 < t.attempts == t.retries <= Allowed(c)
    case Finished => 0 < t.attempts <= Allowed(c) + 1
    case Lost => t.attempts == 0 || (t.attempts == Allowed(c) + 1 && t.rows != [])
  }

  ghost predicate AllSound(c: Config, ts: seq<Task>, stage: Stage) {
    forall t <- ts :: TaskSound(c, t, stage)
  }

  ghost predicate TasksSound(c: Config, ts: Tasks) {
    && AllSound(c, ts.waiting, Waiting) && AllSound(c, ts.queue, Active)
    && AllSound(c, ts.busy, Active) && AllSound(c, ts.retrying, Asleep)
    && AllSound(c, ts.done, Finished) && AllSound(c, ts.lost, Lost)
    && ts.failed == |ts.lost|
  }

  lemma SoundTake(c: Config, ts: seq<Task>, i: nat, stage: Stage)
    requires AllSound(c, ts, stage) && i < |ts|
    ensures AllSound(c, Without1(ts, i), stage) && TaskSound(c, ts[i], stage)
  {
    assert ts[i] in ts;
  }

  lemma SoundAppend(c: Config, ts: seq<Task>, t: Task, stage: Stage)
    requires AllSound(c, ts, stage) && TaskSound(c, t, stage)
    ensures AllSound(c, ts + [t], stage)
  {
  }

  lemma MovesKeepTasks(c: Config, ts: Tasks, i: nat)
    requires TasksSound(c, ts)
    ensures TasksSound(c, AdmitTask(c, ts, i)) && TasksSound(c, DropTask(ts, i))
    ensures TasksSound(c, RequeueTask(c, ts, i)) && TasksSound(c, TakeTask(c, ts))
  {
    hide AllSound, Without1;
    if i < |ts.waiting| {
      SoundTake(c, ts.waiting, i, Waiting);
      SoundAppend(c, ts.queue, ts.waiting[i], Active);
      SoundAppend(c, ts.lost, ts.waiting[i], Lost);
    }
    if i < |ts.retrying| {
      SoundTake(c, ts.retrying, i, Asleep);
      SoundAppend(c, ts.queue, ts.retrying[i], Active);
    }
    if ts.queue != [] {
      SoundTake(c, ts.queue, 0, Active);
      SoundAppend(c, ts.busy, ts.queue[0], Active);
    }
  }

  lemma AttemptKeepsTasks(c: Config, ts: Tasks, i: nat, ok: bool)
    requires TasksSound(c, ts) && i < |ts.busy|
    ensures TasksSound(c, AttemptTask(c, ts, i, ok))
  {
    hide AllSound, Without1;
    var t := ts.busy[i].(attempts := ts.busy[i].attempts + 1);
    SoundTake(c, ts.busy, i, Active);
    if ok || t.rows == [] {
      SoundAppend(c, ts.done, t, Finished);
    } else if t.retries < c.maxRetries {
      SoundAppend(c, ts.retrying, t.(retries := t.retries + 1), Asleep);
    } else {
      SoundAppend(c, ts.lost, t, Lost);
    }
  }

  lemma TakeKeepsTasks(c: Config, s: State, key: string, force: bool)
    requires TasksSound(c, s.tasks)
    ensures TasksSound(c, TakeBucket(c, s, key, force).tasks)
  {
    if key in s.buffer {
      SoundAppend(c, s.tasks.queue, TaskOf(c, s, key), Active);
      SoundAppend(c, s.tasks.waiting, TaskOf(c, s, key), Waiting);
      hide AllSound;
    }
  }

  lemma StepKeepsTasks(c: Config, s: State, e: Event)
    requires TasksSound(c, s.tasks)
    ensures TasksSound(c, Step(c, s, e).tasks)
  {
    hide TasksSound, Flatten, Without, Purge, OtherBuckets, BufferKey, RollBack, Logged, AcceptedWal, TakeBucket,
         TakeTask, AttemptTask, AdmitTask, DropTask, RequeueTask, Truncated;
    match e
    case Add(row, day, write) =>
      var key := BufferKey(row, c.defaultTable, day);
      TakeKeepsTasks(c, Accept(c, s, row, key, write), key, false);
    case Flush(key, force) => TakeKeepsTasks(c, s, key, force);
    case Admit(i) => MovesKeepTasks(c, s.tasks, i);
    case Drop(i) => MovesKeepTasks(c, s.tasks, i);
    case Requeue(i) => MovesKeepTasks(c, s.tasks, i);
    case Take => MovesKeepTasks(c, s.tasks, 0);
    case Attempt(i, ok, _) =>
      if i < |s.tasks.busy| { AttemptKeepsTasks(c, s.tasks, i, ok); }
    case TruncateRecovered(_) =>
    case Remove(_, _, _) =>
    case ClearTable(_) =>
  }

  // Main results

  lemma {:induction false} RunKeepsSound(c: Config, s: State, es: seq<Event>)
    requires NoEmptyBucket(s) && TasksSound(c, s.tasks)
    ensures NoEmptyBucket(Run(c, s, es)) && TasksSound(c, Run(c, s, es).tasks)
  {
    hide NoEmptyBucket, TasksSound, Step;
    if es != [] {
      var front := es[..|es| - 1];
      RunKeepsSound(c, s, front);
      StepKeepsBuckets(c, Run(c, s, front), es[|es| - 1]);
      StepKeepsTasks(c, Run(c, s, front), es[|es| - 1]);
    }
  }

  lemma {:induction false} RunConserves(c: Config, s: State, es: seq<Event>, r: DataRow)
    requires NoEmptyBucket(s) && TasksSound(c, s.tasks)
    ensures var t := Run(c, s, es);
            Occurrences(t, r) == Occurrences(s, r) + t.accepted[r] - s.accepted[r] && Drift(t) == Drift(s)
  {
    hide NoEmptyBucket, TasksSound, Step, Occurrences, Drift;
    if es != [] {
      var front := es[..|es| - 1];
      RunConserves(c, s, front, r);
      RunKeepsSound(c, s, front);
      StepConserves(c, Run(c, s, front), es[|es| - 1], r);
    }
  }

  lemma StartIsSound(c: Config, f: Files<Payload>)
    ensures NoEmptyBucket(Start(f)) && TasksSound(c, Start(f).tasks)
  {
    ReplayKeepsSurvivors(RecordsOf(f));
    hide ReplayLog, LiveLog, RecordsOf;
  }

  /**
   * Conservation over every run from every log: each row was accepted or recovered exactly as
   * often as it is now buffered, in a batch (waiting, queued, with a worker, awaiting a retry, stored or lost)
   * or removed.
   */
  lemma RowsAreConserved(c: Config, f: Files<Payload>, es: seq<Event>, r: DataRow)
    ensures var s0, s := Start(f), Run(c, Start(f), es);
            s.accepted[r] + Flatten(s0.buffer)[r] == Flatten(s.buffer)[r] + InTasks(s.tasks, r) + s.removed[r]
  {
    hide Run;
    StartIsSound(c, f);
    RunConserves(c, Start(f), es, r);
    hide ReplayLog, RecordsOf, LiveLog;
  }

  /**
   * In every run: the failure counter counts the lost batches; no batch is tried more often than allowed; and a batch
   * is given up only if it was never queued, or if it has rows and every attempt allowed was made.
   */
  lemma AttemptsAreBounded(c: Config, f: Files<Payload>, es: seq<Event>, t: Task)
    ensures var ts := Run(c, Start(f), es).tasks;
            && ts.failed == |ts.lost|
            && (t in ts.waiting || t in ts.queue || t in ts.busy || t in ts.retrying || t in ts.done || t in ts.lost
                ==> t.attempts <= Allowed(c) + 1)
            && (t in ts.waiting ==> t.attempts == 0) && (t in ts.done ==> t.attempts > 0)
            && (t in ts.lost ==> t.attempts == 0 || (t.attempts == Allowed(c) + 1 && t.rows != []))
  {
    StartIsSound(c, f);
    RunKeepsSound(c, Start(f), es);
    hide Start, Run;
  }

  /** In every run a batch with rows that fails is tried again unless that was the last attempt allowed. */
  lemma FailedBatchIsRetriedIff(c: Config, f: Files<Payload>, es: seq<Event>, i: nat, stuck: set<nat>)
    requires i < |Run(c, Start(f), es).tasks.busy| && Run(c, Start(f), es).tasks.busy[i].rows != []
    ensures var s, u := Run(c, Start(f), es), Run(c, Start(f), es + [Attempt(i, false, stuck)]);
            var t := s.tasks.busy[i].(attempts := s.tasks.busy[i].attempts + 1);
            if t.attempts <= Allowed(c)
            then u.tasks.retrying == s.tasks.retrying + [t.(retries := t.attempts)] && u.tasks.lost == s.tasks.lost
            else u.tasks.retrying == s.tasks.retrying && u.tasks.lost == s.tasks.lost + [t]
  {
    hide Start, Step, TasksSound, NoEmptyBucket;
    StartIsSound(c, f);
    RunKeepsSound(c, Start(f), es);
    RunNext(c, Start(f), es, Attempt(i, false, stuck));
    hide Run;
    FailedStep(c, Run(c, Start(f), es), i, stuck);
  }

  lemma RunNext(c: Config, s: State, es: seq<Event>, e: Event)
    ensures Run(c, s, es + [e]) == Step(c, Run(c, s, es), e)
  {
    assert (es + [e])[..|es|] == es;
  }

  lemma FailedStep(c: Config, s: State, i: nat, stuck: set<nat>)
    requires TasksSound(c, s.tasks) && i < |s.tasks.busy| && s.tasks.busy[i].rows != []
    ensures var u := Step(c, s, Attempt(i, false, stuck));
            var t := s.tasks.busy[i].(attempts := s.tasks.busy[i].attempts + 1);
            if t.attempts <= Allowed(c)
            then u.tasks.retrying == s.tasks.retrying + [t.(retries := t.attempts)] && u.tasks.lost == s.tasks.lost
            else u.tasks.retrying == s.tasks.retrying && u.tasks.lost == s.tasks.lost + [t]
  {
    assert s.tasks.busy[i] in s.tasks.busy;
    hide Without1, Truncated;
  }

  // The pending counter

  /** Every row that recovery counted is still in the buffer when recovery ends. */
  ghost predicate RecoveredStay(log: Log<Payload>) {
    forall i | 0 <= i < |log| && log[i].data.Row? && Unburied(log, i) :: Untouched(log, i)
  }

  /** A surviving row of the bucket with the given identifier. */
  ghost predicate HasSurvivor(log: Log<Payload>, n: nat, key: string, id: string)
    requires n <= |log|
  {
    exists i | 0 <= i < n && log[i].data.Row? ::
      log[i].data.key == key && log[i].data.row.id == id && Untouched(log, i) && Unburied(log, i)
  }

  lemma {:induction false} SurvivorsOf(log: Log<Payload>, n: nat, key: string, id: string)
    requires n <= |log|
    ensures (exists row <- Surviving(log, key, n, true) :: row.id == id) <==> HasSurvivor(log, n, key, id)
  {
    hide Untouched, Unburied;
    if n > 0 {
      SurvivorsOf(log, n - 1, key, id);
      if HasSurvivor(log, n, key, id) && !HasSurvivor(log, n - 1, key, id) {
        assert log[n - 1].data.row in Surviving(log, key, n, true);
      }
      if HasSurvivor(log, n - 1, key, id) {
        var row :| row in Surviving(log, key, n - 1, true) && row.id == id;
        assert row in Surviving(log, key, n, true);
      }
    }
  }

  lemma PurgeCounts(b: Buffer, table: string, id: string)
    requires forall k <- b :: b[k] != []
    ensures if Removes(b, table, id) then |Flatten(Purge(b, table, id))| < |Flatten(b)| else Purge(b, table, id) == b
  {
    hide Flatten, Keep;
    var p := Purge(b, table, id);
    if Removes(b, table, id) {
      var k :| k in b && InTable(k, table) && Keep(b[k], id) != b[k];
      KeepDropsSomething(b[k], id);
      var rest := b - {k};
      assert p - {k} == Purge(rest, table, id);
      PurgeShrinks(rest, table, id);
      SmallerSize(Flatten(Purge(rest, table, id)), Flatten(rest));
      assert |Flatten(b)| == |b[k]| + |Flatten(rest)| by { FlattenPick(b, k); }
      assert |Flatten(p)| == |Keep(b[k], id)| + |Flatten(p - {k})| by { PurgedSize(b, p, k, table, id); }
    }
  }

  lemma PurgedSize(b: Buffer, p: Buffer, k: string, table: string, id: string)
    requires p == Purge(b, table, id) && k in b && InTable(k, table)
    ensures |Flatten(p)| == |Keep(b[k], id)| + |Flatten(p - {k})|
  {
    hide Flatten, Keep;
    if k in p {
      FlattenPick(p, k);
    } else {
      assert p - {k} == p;
    }
  }

  lemma SmallerSize<T>(a: multiset<T>, b: multiset<T>)
    requires a <= b
    ensures |a| <= |b|
  {
    assert b == a + (b - a);
  }

  lemma RemovesIffSurvivor(log: Log<Payload>, table: string, id: string)
    ensures Removes(ReplayLog(log).buffer, table, id) <==>
            exists i | 0 <= i < |log| && log[i].data.Row? ::
              InTable(log[i].data.key, table) && log[i].data.row.id == id && Untouched(log, i) && Unburied(log, i)
  {
    ReplayKeepsSurvivors(log);
    var b := ReplayLog(log).buffer;
    hide ReplayLog, Untouched, Unburied, InTable, Keep, Surviving;
    forall k ensures (k in b && Keep(b[k], id) != b[k]) <==> HasSurvivor(log, |log|, k, id) {
      SurvivorsOf(log, |log|, k, id);
      assert RowsAt(b, k) == Surviving(log, k, |log|, true);
      KeepDropsSomething(RowsAt(b, k), id);
    }
  }

  /** A tombstone for `table` and `id` would remove a row that recovery counted. */
  ghost predicate Burial(log: Log<Payload>, table: string, id: string) {
    exists i | 0 <= i < |log| && log[i].data.Row? ::
      InTable(log[i].data.key, table) && log[i].data.row.id == id && Unburied(log, i)
  }

  lemma StayNext(front: Log<Payload>, r: Record<Payload>)
    ensures RecoveredStay(front + [r]) <==>
            RecoveredStay(front) &&
            !(r.data.Tombstone? && Burial(front, r.data.table, r.data.id))
  {
    var log := front + [r];
    assert log[|front|] == r;
    assert r.data.Row? ==> Untouched(log, |front|);
    forall i | 0 <= i < |front| && front[i].data.Row?
      ensures log[i] == front[i] && Unburied(log, i) == Unburied(front, i)
      ensures Untouched(log, i) ==
              (Untouched(front, i) &&
               !(r.data.Tombstone? && InTable(front[i].data.key, r.data.table) && front[i].data.row.id == r.data.id))
    {
      SameFate(front, r, i);
    }
    hide Untouched, Unburied, InTable;
  }

  lemma {:induction false} RecoveredCount(log: Log<Payload>)
    ensures |Flatten(ReplayLog(log).buffer)| <= ReplayLog(log).recovered
    ensures |Flatten(ReplayLog(log).buffer)| == ReplayLog(log).recovered <==> RecoveredStay(log)
  {
    if log != [] {
      var front, r := log[..|log| - 1], log[|log| - 1];
      assert log == front + [r];
      var m := ReplayLog(front);
      RecoveredCount(front);
      StayNext(front, r);
      hide RecoveredStay, Flatten, Purge, Burial;
      match r.data
      case Unparsable =>
      case Row(key, row) => FlattenAppend(m.buffer, key, row);
      case Tombstone(table, id) => TombstoneCount(front, table, id);
    }
  }

  lemma TombstoneCount(front: Log<Payload>, table: string, id: string)
    ensures var b := ReplayLog(front).buffer;
            && |Flatten(Purge(b, table, id))| <= |Flatten(b)|
            && (RecoveredStay(front) ==>
                  (|Flatten(Purge(b, table, id))| == |Flatten(b)| <==>
                     !Burial(front, table, id)))
  {
    var b := ReplayLog(front).buffer;
    RemovesIffSurvivor(front, table, id);
    ReplayKeepsSurvivors(front);
    PurgeCounts(b, table, id);
    hide ReplayLog, Flatten, Purge, Removes, Unburied, Untouched, InTable;
  }

  /**
   * In every run, at every moment, the pending counter equals the number of buffered rows if and
   * only if no row that recovery counted was removed again by a later tombstone of the start log.
   */
  lemma PendingCounterIsExactIff(c: Config, f: Files<Payload>, es: seq<Event>)
    ensures var s := Run(c, Start(f), es); s.pendingWrites == |Flatten(s.buffer)| <==> RecoveredStay(RecordsOf(f))
  {
    StartIsSound(c, f);
    RunConserves(c, Start(f), es, DataRow("", 0, "", map[]));
    RecoveredCount(RecordsOf(f));
    hide Run, Flatten, ReplayLog, RecoveredStay, RecordsOf, LiveLog;
  }

  /** Such a start log: a row and its tombstone. The row is counted as recovered although it is not buffered. */
  lemma TombstonedRowIsStillCounted(c: Config, row: DataRow, es: seq<Event>)
    requires row.table == "t" && row.id == "a"
    ensures var log := [Record(1, RECORD_TYPE_DATA, 0, Row("t/a/d", row)),
                        Record(2, RECORD_TYPE_TOMBSTONE, 0, Tombstone("t", "a"))];
            var s := Run(c, Start(Opened([log])), es);
            s.pendingWrites != |Flatten(s.buffer)|
  {
    var log := [Record(1, RECORD_TYPE_DATA, 0, Row("t/a/d", row)),
                Record(2, RECORD_TYPE_TOMBSTONE, 0, Tombstone("t", "a"))];
    OneFile(log);
    RowThenTombstone(row, log);
    PendingCounterIsExactIff(c, Opened([log]), es);
  }

  lemma RowThenTombstone(row: DataRow, log: Log<Payload>)
    requires row.table == "t" && row.id == "a"
    requires |log| == 2 && log[0].data == Row("t/a/d", row) && log[1].data == Tombstone("t", "a")
    ensures !RecoveredStay(log)
  {
    assert InTable("t/a/d", "t") by { assert "t/a/d"[..2] == "t/"; }
    assert Unburied(log, 0) && !Untouched(log, 0);
  }

  lemma OneFile(log: Log<Payload>)
    ensures RecordsOf(Opened([log])) == log
  {
    ConcatLast([], log);
    assert [] + [log] == [log] && [] + log == log && log + [] == log;
  }

  // Adds and removes without log failures or flushes

  function CallOf(e: Event): Call
    requires e.Add? || e.Remove?
  {
    if e.Add? then Call.Add(e.row, e.day) else Call.Remove(e.table, e.id)
  }

  /** An add that leaves a synced record and does not fill its bucket, or a remove whose tombstone is synced. */
  ghost predicate Plain(c: Config, s: State, e: Event) {
    c.walEnabled && match e
      case Add(row, day, write) =>
        && write.Some? && Synced(write.value)
        && |RowsAt(s.buffer, BufferKey(row, c.defaultTable, day))| + 1 < c.bufferSize
      case Remove(_, _, write) => write.Some? && Synced(write.value)
      case _ => false
  }

  ghost predicate PlainRun(c: Config, es: seq<Event>) {
    forall i | 0 <= i < |es| :: Plain(c, Run(c, Start(Opened([])), es[..i]), es[i])
  }

  function CallsOf(es: seq<Event>): seq<Call>
    requires forall e <- es :: e.Add? || e.Remove?
  {
    if es == [] then [] else CallsOf(es[..|es| - 1]) + [CallOf(es[|es| - 1])]
  }

  ghost predicate Alike(s: State, m: Memory) {
    && s.buffer == m.buffer && s.Records() == m.log && NoEmptyBucket(s)
    && s.wal.files.top == |m.log| && s.wal.files.unsynced == {}
  }

  lemma PlainAdd(c: Config, s: State, m: Memory, e: Event)
    requires Alike(s, m) && Plain(c, s, e) && e.Add?
    ensures Alike(Step(c, s, e), CallStep(m, CallOf(e), c.defaultTable))
  {
    hide BufferKey, RecordsOf, Written;
    var key := BufferKey(e.row, c.defaultTable, e.day);
    WrittenRecords(s.wal.files, c.setup, RECORD_TYPE_DATA, 0, Row(key, e.row), e.write.value);
  }

  lemma RemoveUnfolds(c: Config, s: State, table: string, id: string, write: Write)
    requires NoEmptyBucket(s)
    ensures var t := RemoveRows(c, s, table, id, write);
            && t.buffer == Purge(s.buffer, table, id)
            && t.wal == if Removes(s.buffer, table, id)
                        then Logged(c, s.wal, RECORD_TYPE_TOMBSTONE, Tombstone(table, id), write) else s.wal
  {
    PurgeCounts(s.buffer, table, id);
    hide Purge, Removes, Flatten, Spared, Logged;
  }

  lemma PlainRemove(c: Config, s: State, m: Memory, e: Event)
    requires Alike(s, m) && Plain(c, s, e) && e.Remove?
    ensures Alike(Step(c, s, e), CallStep(m, CallOf(e), c.defaultTable))
  {
    hide Purge, Removes, RecordsOf, RemoveRows, NoEmptyBucket, Logged;
    RemoveUnfolds(c, s, e.table, e.id, e.write);
    StepKeepsBuckets(c, s, e);
    LoggedTombstone(c, s.wal, Tombstone(e.table, e.id), e.write);
  }

  lemma LoggedTombstone(c: Config, w: LogState, data: Payload, write: Write)
    requires c.walEnabled && write.Some? && Synced(write.value) && w.files.unsynced == {}
    ensures var f := Logged(c, w, RECORD_TYPE_TOMBSTONE, data, write).files;
            && RecordsOf(f) == RecordsOf(w.files) + [Record(w.files.top + 1, RECORD_TYPE_TOMBSTONE, 0, data)]
            && f.top == w.files.top + 1 && f.unsynced == {}
  {
    hide RecordsOf;
    WrittenRecords(w.files, c.setup, RECORD_TYPE_TOMBSTONE, 0, data, write.value);
  }

  /** Such a run is the run of the bare calls. */
  lemma {:induction false} PlainRunIsCalls(c: Config, es: seq<Event>)
    requires PlainRun(c, es)
    ensures forall e <- es :: e.Add? || e.Remove?
    ensures Alike(Run(c, Start(Opened([])), es), Calls(CallsOf(es), c.defaultTable))
  {
    PlainKinds(c, es);
    if es == [] {
      assert RecordsOf(Opened<Payload>([])) == [];
    } else {
      hide PlainRun, Plain, Alike, CallStep, Step, Start, CallOf;
      var k := |es| - 1;
      PlainPrefix(c, es);
      PlainRunIsCalls(c, es[..k]);
      var s, m := Run(c, Start(Opened([])), es[..k]), Calls(CallsOf(es[..k]), c.defaultTable);
      if es[k].Add? { PlainAdd(c, s, m, es[k]); } else { PlainRemove(c, s, m, es[k]); }
      assert CallsOf(es)[..k] == CallsOf(es[..k]) by { CallsLength(es[..k]); }
    }
  }

  lemma PlainKinds(c: Config, es: seq<Event>)
    requires PlainRun(c, es)
    ensures forall e <- es :: e.Add? || e.Remove?
  {
    hide Run, Start;
    forall e | e in es ensures e.Add? || e.Remove? {
      var i :| 0 <= i < |es| && es[i] == e;
      assert Plain(c, Run(c, Start(Opened([])), es[..i]), es[i]);
    }
  }

  lemma PlainPrefix(c: Config, es: seq<Event>)
    requires PlainRun(c, es) && es != []
    ensures var k := |es| - 1; PlainRun(c, es[..k]) && Plain(c, Run(c, Start(Opened([])), es[..k]), es[k])
  {
    hide Run, Start, Plain;
    var k := |es| - 1;
    forall i | 0 <= i < k ensures es[..k][..i] == es[..i] && es[..k][i] == es[i] {
    }
  }

  lemma {:induction false} CallsLength(es: seq<Event>)
    requires forall e <- es :: e.Add? || e.Remove?
    ensures |CallsOf(es)| == |es|
  {
    if es != [] {
      CallsLength(es[..|es| - 1]);
    }
  }

  /**
   * After any run of synced adds and removes that fills no bucket: the buffer holds exactly the rows no later
   * removal covers, and a crash, whatever it loses, and replay rebuild it if and only if no buffered row was re-added
   * after a removal.
   */
  lemma CrashRebuildsBufferIff(c: Config, es: seq<Event>, lost: set<nat>)
    requires PlainRun(c, es)
    ensures var s := Run(c, Start(Opened([])), es);
            && HoldsSurviving(s.buffer, s.Records(), false)
            && (Start(Opened(Left(s.wal.files, lost))).buffer == s.buffer <==> NoReAddPending(s.Records()))
  {
    PlainRunIsCalls(c, es);
    LiveBufferIsUntouched(CallsOf(es), c.defaultTable);
    ReplayRebuildsIffNoReAdd(CallsOf(es), c.defaultTable);
    var s := Run(c, Start(Opened([])), es);
    assert RecordsOf(Opened(Left(s.wal.files, lost))) == s.Records() by { AllLeft(s.wal.files, lost); }
    hide Run, Calls, ReplayLog, HoldsSurviving, NoReAddPending, RecordsOf, CallsOf, PlainRun, LiveLog, Left;
  }

  /** A crash loses nothing from a log whose records are all synced. */
  lemma AllLeft(f: Files<Payload>, lost: set<nat>)
    requires f.unsynced == {}
    ensures RecordsOf(Opened(Left(f, lost))) == RecordsOf(f)
  {
    hide Without, Concat;
    var gone := lost * f.unsynced;
    ConcatLast(Sifted(f.closed, gone), Without(f.open, gone));
    SiftedRecords(f.closed, gone);
    WithoutNone(Concat(f.closed), gone);
    WithoutNone(f.open, gone);
    assert Concat(Left(f, lost)) + [] == Concat(Left(f, lost));
  }
}
