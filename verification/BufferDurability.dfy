/**
 * What the concurrent buffer's log promises over crashes: which rows come back, and which truncations
 * put rows of other buckets at risk.
 */
module BufferDurability {
  import opened Prelude
  import opened WalCodec
  import opened Wal
  import opened BufferKeys
  import opened BufferReplay
  import opened BufferRuns

  /** A log record of a row. */
  datatype Mark = Mark(n: nat, key: string, row: DataRow)

  ghost function LiveMarks(live: map<nat, Spot>): set<Mark> {
    set n | n in live :: Mark(n, live[n].key, live[n].row)
  }

  ghost function MarksOf(t: Task): set<Mark> {
    set n | n in t.seqs :: Mark(n, t.key, t.seqs[n])
  }

  ghost function TaskMarks(ts: seq<Task>): set<Mark> {
    if ts == [] then {} else TaskMarks(ts[..|ts| - 1]) + MarksOf(ts[|ts| - 1])
  }

  /** The records of all rows in memory. */
  ghost function Pending(s: State): set<Mark> {
    LiveMarks(s.live) + TaskMarks(UnderWay(s.tasks))
  }

  ghost predicate InLog(f: Files<Payload>, m: Mark) {
    exists r <- RecordsOf(f) :: r.seqNum == m.n && r.data == Row(m.key, m.row)
  }

  ghost predicate AllLogged(s: State) {
    forall m <- Pending(s) :: InLog(s.wal.files, m)
  }

  /** If every write is synced, so are the records of all rows in memory. */
  ghost predicate AllSynced(c: Config, s: State) {
    c.setup.syncOnWrite ==> forall m <- Pending(s) :: m.n !in s.wal.files.unsynced
  }

  ghost function RowsIn(ts: seq<Task>): set<DataRow> {
    set t, r | t in ts && r in t.rows :: r
  }

  /** The rows that are stored, lost with their batch, or removed. */
  ghost function Settled(s: State): set<DataRow> {
    RowsIn(s.tasks.done) + RowsIn(s.tasks.lost) + set r | r in s.removed
  }

  /** The marks of a batch are of its rows. */
  ghost predicate TaskMatches(t: Task) {
    forall n <- t.seqs :: t.seqs[n] in t.rows
  }

  ghost predicate TasksMatch(ts: seq<Task>) {
    forall t <- ts :: TaskMatches(t)
  }

  ghost predicate LiveMatches(b: Buffer, live: map<nat, Spot>) {
    forall n <- live :: live[n].key in b && live[n].row in b[live[n].key]
  }

  /** Marks are of rows really in memory. */
  ghost predicate Matches(s: State) {
    LiveMatches(s.buffer, s.live) && TasksMatch(UnderWay(s.tasks)) && NoEmptyBucket(s)
  }

  /** The record a step adds to those in memory. */
  ghost function Fresh(c: Config, s: State, e: Event): set<Mark> {
    if e.Add? && Secured(c, e.write) then {Mark(s.wal.files.top + 1, BufferKey(e.row, c.defaultTable, e.day), e.row)}
    else {}
  }

  /** No mark appears from nowhere, and none disappears but by its row being settled. */
  ghost predicate Flows(before: set<Mark>, s: State) {
    Pending(s) <= before && forall m <- before :: m in Pending(s) || m.row in Settled(s)
  }

  // Moving batches

  lemma TaskMarksAppend(ts: seq<Task>, t: Task)
    ensures TaskMarks(ts + [t]) == TaskMarks(ts) + MarksOf(t)
  {
    assert (ts + [t])[..|ts|] == ts;
  }

  lemma {:induction false} TaskMarksConcat(a: seq<Task>, b: seq<Task>)
    ensures TaskMarks(a + b) == TaskMarks(a) + TaskMarks(b)
  {
    hide MarksOf;
    if b == [] {
      assert a + b == a;
    } else {
      assert (a + b)[..|a + b| - 1] == a + b[..|b| - 1];
      TaskMarksConcat(a, b[..|b| - 1]);
    }
  }

  lemma UnderWayMarks(ts: Tasks)
    ensures TaskMarks(UnderWay(ts)) ==
            TaskMarks(ts.waiting) + TaskMarks(ts.queue) + TaskMarks(ts.busy) + TaskMarks(ts.retrying)
  {
    hide TaskMarks;
    TaskMarksConcat(ts.waiting + ts.queue + ts.busy, ts.retrying);
    TaskMarksConcat(ts.waiting + ts.queue, ts.busy);
    TaskMarksConcat(ts.waiting, ts.queue);
  }

  lemma TaskMarksTake(ts: seq<Task>, i: nat)
    requires i < |ts|
    ensures TaskMarks(ts) == TaskMarks(Without1(ts, i)) + MarksOf(ts[i])
  {
    hide TaskMarks;
    assert ts == ts[..i] + [ts[i]] + ts[i + 1..];
    TaskMarksConcat(ts[..i] + [ts[i]], ts[i + 1..]);
    TaskMarksAppend(ts[..i], ts[i]);
    TaskMarksConcat(ts[..i], ts[i + 1..]);
  }

  lemma MatchTake(ts: seq<Task>, i: nat)
    requires TasksMatch(ts) && i < |ts|
    ensures TasksMatch(Without1(ts, i)) && TaskMatches(ts[i])
  {
    hide TaskMatches;
    assert ts[i] in ts;
  }

  /** A finished batch has settled its marks. */
  lemma FinishedIsSettled(t: Task, ts: seq<Task>, m: Mark)
    requires TaskMatches(t) && t in ts && m in MarksOf(t)
    ensures m.row in RowsIn(ts)
  {
    assert m.row in t.rows;
  }

  lemma MatchUnderWay(ts: Tasks)
    ensures TasksMatch(UnderWay(ts)) <==>
            TasksMatch(ts.waiting) && TasksMatch(ts.queue) && TasksMatch(ts.busy) && TasksMatch(ts.retrying)
  {
    hide TaskMatches;
    assert forall t <- ts.waiting :: t in UnderWay(ts);
    assert forall t <- ts.queue :: t in UnderWay(ts);
    assert forall t <- ts.busy :: t in UnderWay(ts);
    assert forall t <- ts.retrying :: t in UnderWay(ts);
  }

  lemma SubmitFlows(c: Config, ts: Tasks, t: Task)
    requires TasksMatch(UnderWay(ts)) && TaskMatches(t)
    ensures var us := Submit(c, ts, t);
            && TaskMarks(UnderWay(us)) == TaskMarks(UnderWay(ts)) + MarksOf(t) && TasksMatch(UnderWay(us))
            && us.done == ts.done && us.lost == ts.lost
  {
    var us := Submit(c, ts, t);
    MatchUnderWay(ts);
    MatchUnderWay(us);
    UnderWayMarks(ts);
    UnderWayMarks(us);
    TaskMarksAppend(ts.queue, t);
    TaskMarksAppend(ts.waiting, t);
    hide TaskMarks, UnderWay, MarksOf, TaskMatches;
  }

  /** Every mark under way stays under way, or its batch is among the finished ones. */
  ghost predicate TasksFlow(ts: Tasks, us: Tasks) {
    && TasksMatch(UnderWay(us))
    && TaskMarks(UnderWay(us)) <= TaskMarks(UnderWay(ts))
    && (forall m <- TaskMarks(UnderWay(ts)) ::
          m in TaskMarks(UnderWay(us)) || m.row in RowsIn(us.done) + RowsIn(us.lost))
  }

  lemma AdmitFlows(c: Config, ts: Tasks, i: nat)
    requires TasksMatch(UnderWay(ts))
    ensures TasksFlow(ts, AdmitTask(c, ts, i))
  {
    var us := AdmitTask(c, ts, i);
    MatchUnderWay(ts);
    MatchUnderWay(us);
    UnderWayMarks(ts);
    UnderWayMarks(us);
    if i < |ts.waiting| {
      TaskMarksTake(ts.waiting, i);
      TaskMarksAppend(ts.queue, ts.waiting[i]);
      MatchTake(ts.waiting, i);
    }
    hide TaskMarks, UnderWay, MarksOf, TaskMatches, Without1;
  }

  lemma RequeueFlows(c: Config, ts: Tasks, i: nat)
    requires TasksMatch(UnderWay(ts))
    ensures TasksFlow(ts, RequeueTask(c, ts, i))
  {
    var us := RequeueTask(c, ts, i);
    MatchUnderWay(ts);
    MatchUnderWay(us);
    UnderWayMarks(ts);
    UnderWayMarks(us);
    if i < |ts.retrying| {
      TaskMarksTake(ts.retrying, i);
      TaskMarksAppend(ts.queue, ts.retrying[i]);
      MatchTake(ts.retrying, i);
    }
    hide TaskMarks, UnderWay, MarksOf, TaskMatches, Without1;
  }

  lemma DropFlows(ts: Tasks, i: nat)
    requires TasksMatch(UnderWay(ts))
    ensures TasksFlow(ts, DropTask(ts, i))
  {
    var us := DropTask(ts, i);
    MatchUnderWay(ts);
    MatchUnderWay(us);
    UnderWayMarks(ts);
    UnderWayMarks(us);
    if i < |ts.waiting| {
      TaskMarksTake(ts.waiting, i);
      MatchTake(ts.waiting, i);
      forall m | m in MarksOf(ts.waiting[i]) ensures m.row in RowsIn(us.lost) {
        FinishedIsSettled(ts.waiting[i], us.lost, m);
      }
    }
    hide TaskMarks, UnderWay, MarksOf, TaskMatches, Without1, RowsIn;
  }

  lemma TakeTaskFlows(c: Config, ts: Tasks)
    requires TasksMatch(UnderWay(ts))
    ensures TasksFlow(ts, TakeTask(c, ts))
  {
    var us := TakeTask(c, ts);
    MatchUnderWay(ts);
    MatchUnderWay(us);
    UnderWayMarks(ts);
    UnderWayMarks(us);
    if ts.queue != [] {
      TaskMarksTake(ts.queue, 0);
      TaskMarksAppend(ts.busy, ts.queue[0]);
      MatchTake(ts.queue, 0);
    }
    hide TaskMarks, UnderWay, MarksOf, TaskMatches, Without1;
  }

  /** A worker's batch and the others. */
  lemma BusyMarks(ts: Tasks, us: Tasks, i: nat)
    requires TasksMatch(UnderWay(ts)) && i < |ts.busy| && us.busy == Without1(ts.busy, i)
    requires us.waiting == ts.waiting && us.queue == ts.queue
    ensures TaskMarks(UnderWay(ts)) ==
            TaskMarks(us.waiting) + TaskMarks(us.queue) + (TaskMarks(us.busy) + MarksOf(ts.busy[i]))
            + TaskMarks(ts.retrying)
    ensures TasksMatch(us.waiting) && TasksMatch(us.queue) && TasksMatch(us.busy) && TasksMatch(ts.retrying)
  {
    MatchUnderWay(ts);
    UnderWayMarks(ts);
    TaskMarksTake(ts.busy, i);
    MatchTake(ts.busy, i);
  }

  /** A worker's batch leaves it for the retries. */
  lemma BusyRetries(ts: Tasks, us: Tasks, i: nat, t: Task)
    requires TasksMatch(UnderWay(ts)) && i < |ts.busy| && MarksOf(t) == MarksOf(ts.busy[i]) && TaskMatches(t)
    requires us.waiting == ts.waiting && us.queue == ts.queue && us.busy == Without1(ts.busy, i)
    requires us.retrying == ts.retrying + [t]
    ensures TasksFlow(ts, us)
  {
    BusyMarks(ts, us, i);
    UnderWayMarks(us);
    MatchUnderWay(us);
    TaskMarksAppend(ts.retrying, t);
    hide TaskMarks, UnderWay, MarksOf, TaskMatches, RowsIn;
    assert TaskMarks(UnderWay(us)) == TaskMarks(UnderWay(ts));
  }

  /** A worker's batch comes to an end. */
  lemma BusyEnds(ts: Tasks, us: Tasks, i: nat, t: Task)
    requires TasksMatch(UnderWay(ts)) && i < |ts.busy| && MarksOf(t) == MarksOf(ts.busy[i]) && TaskMatches(t)
    requires us.waiting == ts.waiting && us.queue == ts.queue && us.busy == Without1(ts.busy, i)
    requires us.retrying == ts.retrying && (t in us.done || t in us.lost)
    ensures TasksFlow(ts, us)
  {
    BusyMarks(ts, us, i);
    UnderWayMarks(us);
    MatchUnderWay(us);
    forall m | m in MarksOf(t) ensures m.row in RowsIn(us.done) + RowsIn(us.lost) {
      FinishedIsSettled(t, if t in us.done then us.done else us.lost, m);
    }
    hide TaskMarks, UnderWay, MarksOf, TaskMatches, RowsIn, TasksMatch;
    assert TaskMarks(UnderWay(ts)) == TaskMarks(UnderWay(us)) + MarksOf(t);
  }

  lemma AttemptFlows(c: Config, ts: Tasks, i: nat, ok: bool)
    requires TasksMatch(UnderWay(ts)) && i < |ts.busy|
    ensures TasksFlow(ts, AttemptTask(c, ts, i, ok))
  {
    var us := AttemptTask(c, ts, i, ok);
    var t := ts.busy[i].(attempts := ts.busy[i].attempts + 1);
    var again := t.(retries := t.retries + 1);
    assert ts.busy[i] in UnderWay(ts);
    assert TaskMatches(ts.busy[i]);
    assert MarksOf(t) == MarksOf(again) == MarksOf(ts.busy[i]);
    hide TaskMatches, MarksOf, UnderWay, TasksMatch, TasksFlow, Without1;
    if ok || t.rows == [] || t.retries >= c.maxRetries {
      BusyEnds(ts, us, i, t);
    } else {
      BusyRetries(ts, us, i, again);
    }
  }

  // Moving rows

  lemma TakeFlows(c: Config, s: State, key: string, force: bool)
    requires Matches(s)
    ensures var t := TakeBucket(c, s, key, force);
            Matches(t) && Pending(t) == Pending(s) && Settled(t) == Settled(s) && t.wal == s.wal
  {
    if key in s.buffer {
      var task := TaskOf(c, s, key);
      assert TaskMatches(task);
      SubmitFlows(c, s.tasks, task);
      MarksSplit(s.live, key, task);
      hide TaskMarks, UnderWay, MarksOf, TaskMatches, Submit, RowsIn, LiveMarks, TasksMatch;
    }
  }

  lemma MarksSplit(live: map<nat, Spot>, key: string, t: Task)
    requires t.key == key && t.seqs == Marked(live, key)
    ensures LiveMarks(Elsewhere(live, key)) + MarksOf(t) == LiveMarks(live)
  {
    forall m | m in LiveMarks(live) ensures m in LiveMarks(Elsewhere(live, key)) + MarksOf(t) {
      if live[m.n].key == key {
        assert m.n in t.seqs;
      } else {
        assert m.n in Elsewhere(live, key);
      }
    }
  }

  lemma AcceptFlows(c: Config, s: State, row: DataRow, key: string, write: Write)
    requires Matches(s) && forall n <- s.live :: n <= s.wal.files.top
    ensures var t := Accept(c, s, row, key, write);
            && Matches(t) && Settled(t) == Settled(s)
            && Pending(t) == Pending(s) + (if Secured(c, write) then {Mark(s.wal.files.top + 1, key, row)} else {})
  {
    hide TaskMarks, UnderWay, RowsIn, TasksMatch;
    var t := Accept(c, s, row, key, write);
    WrittenTop(c, s, row, key, write);
    hide AcceptedWal;
    if Secured(c, write) {
      var n := s.wal.files.top + 1;
      assert t.live == s.live[n := Spot(key, row)];
      MarksPut(s.live, n, Spot(key, row));
    }
    AppendedMatches(s.buffer, key, row, s.live);
    hide LiveMarks;
  }

  lemma WrittenTop(c: Config, s: State, row: DataRow, key: string, write: Write)
    ensures Secured(c, write) ==> AcceptedWal(c, s.wal, key, row, write).files.top == s.wal.files.top + 1
  {
  }

  lemma MarksPut(live: map<nat, Spot>, n: nat, spot: Spot)
    requires n !in live
    ensures LiveMarks(live[n := spot]) == LiveMarks(live) + {Mark(n, spot.key, spot.row)}
  {
    assert forall k <- live :: k in live[n := spot] && live[n := spot][k] == live[k];
    assert n in live[n := spot];
  }

  lemma AppendedMatches(b: Buffer, key: string, row: DataRow, live: map<nat, Spot>)
    requires LiveMatches(b, live)
    ensures LiveMatches(Appended(b, key, row), live) && key in Appended(b, key, row)
            && row in Appended(b, key, row)[key]
  {
  }

  lemma {:induction false} KeepMembers(rows: seq<DataRow>, id: string, row: DataRow)
    ensures row in Keep(rows, id) <==> row in rows && row.id != id
  {
    if rows != [] {
      KeepMembers(rows[..|rows| - 1], id, row);
      assert rows == rows[..|rows| - 1] + [rows[|rows| - 1]];
    }
  }

  /** Removing an identifier takes away the marked rows it drops, and spares the others. */
  lemma PurgeMatches(b: Buffer, table: string, id: string, live: map<nat, Spot>)
    requires LiveMatches(b, live)
    ensures LiveMatches(Purge(b, table, id), Spared(live, table, id))
  {
    hide Keep, InTable;
    var spared := Spared(live, table, id);
    forall n | n in spared
      ensures spared[n].key in Purge(b, table, id) && spared[n].row in Purge(b, table, id)[spared[n].key]
    {
      KeepMembers(b[live[n].key], id, live[n].row);
    }
  }

  lemma PurgedRow(b: Buffer, table: string, id: string, k: string, row: DataRow)
    requires k in b && InTable(k, table) && row in b[k] && row.id == id
    ensures row in Flatten(b) - Flatten(Purge(b, table, id))
  {
    hide Flatten, InTable, Keep;
    var p, rest := Purge(b, table, id), b - {k};
    FlattenPick(b, k);
    PurgeShrinks(rest, table, id);
    assert p - {k} == Purge(rest, table, id);
    KeepMembers(b[k], id, row);
    if k in p {
      FlattenPick(p, k);
    } else {
      assert p - {k} == p;
    }
  }

  lemma ClearedRow(b: Buffer, table: string, k: string, row: DataRow)
    requires k in b && InTable(k, table) && row in b[k]
    ensures row in Flatten(b) - Flatten(OtherBuckets(b, table))
  {
    hide Flatten, InTable;
    FlattenPick(b, k);
    FlattenShrinks(b - {k}, OtherBuckets(b, table));
  }

  lemma RemovedIsSettled(c: Config, s: State, table: string, id: string, write: Write)
    requires Matches(s)
    ensures var t := RemoveRows(c, s, table, id, write);
            forall n | n in s.live && n !in t.live :: s.live[n].row in Settled(t)
  {
    hide Flatten, RowsIn, Logged, InTable, Purge;
    var t := RemoveRows(c, s, table, id, write);
    forall n | n in s.live && n !in t.live ensures s.live[n].row in Settled(t) {
      PurgedRow(s.buffer, table, id, s.live[n].key, s.live[n].row);
    }
  }

  lemma RemoveFlows(c: Config, s: State, table: string, id: string, write: Write)
    requires Matches(s)
    ensures var t := RemoveRows(c, s, table, id, write); Matches(t) && Flows(Pending(s), t)
  {
    hide Flatten, Purge, Logged, InTable, TaskMarks, UnderWay, RowsIn, LiveMarks, Settled, LiveMatches, NoEmptyBucket,
         Flows, Pending;
    var t := RemoveRows(c, s, table, id, write);
    PurgeMatches(s.buffer, table, id, s.live);
    StepKeepsBuckets(c, s, Event.Remove(table, id, write));
    RemovedIsSettled(c, s, table, id, write);
    FewerMarks(s.live, t.live);
    assert t.tasks == s.tasks && t.live == Spared(s.live, table, id) && t.buffer == Purge(s.buffer, table, id);
    hide *;
    MarksFlow(s, t);
  }

  lemma MarksFlow(s: State, t: State)
    requires Matches(s) && t.tasks == s.tasks && LiveMatches(t.buffer, t.live) && NoEmptyBucket(t)
    requires forall n | n in s.live && n !in t.live :: s.live[n].row in Settled(t)
    requires LiveMarks(t.live) <= LiveMarks(s.live)
    requires forall m <- LiveMarks(s.live) ::
               m.n in s.live && m.row == s.live[m.n].row && (m.n in t.live ==> m in LiveMarks(t.live))
    ensures Matches(t) && Flows(Pending(s), t)
  {
    hide TaskMarks, UnderWay, Settled, LiveMarks, TasksMatch, NoEmptyBucket, LiveMatches;
  }

  lemma FewerMarks(live: map<nat, Spot>, less: map<nat, Spot>)
    requires forall n <- less :: n in live && less[n] == live[n]
    ensures LiveMarks(less) <= LiveMarks(live)
    ensures forall m <- LiveMarks(live) ::
              m.n in live && m.row == live[m.n].row && (m.n in less ==> m in LiveMarks(less))
  {
  }

  lemma ClearFlows(s: State, table: string)
    requires Matches(s)
    ensures var t := ClearBuckets(s, table); Matches(t) && Flows(Pending(s), t)
  {
    var t := ClearBuckets(s, table);
    hide InTable, Flatten;
    forall n | n in s.live && n !in t.live ensures s.live[n].row in Settled(t) {
      ClearedRow(s.buffer, table, s.live[n].key, s.live[n].row);
    }
    FewerMarks(s.live, t.live);
    assert LiveMatches(t.buffer, t.live) && NoEmptyBucket(t) && t.tasks == s.tasks;
    hide *;
    MarksFlow(s, t);
  }

  // Steps

  lemma RejectFlows(c: Config, s: State, row: DataRow, key: string, write: Write)
    requires Matches(s)
    ensures Matches(Reject(c, s, row, key, write)) && Pending(Reject(c, s, row, key, write)) == Pending(s)
  {
    RollBackRestores(s.buffer, key, row);
    hide TaskMarks, UnderWay, RollBack, Appended, LiveMarks, Logged, TasksMatch, LiveMatches;
    BucketsUnchanged(s, Reject(c, s, row, key, write));
  }

  lemma AddFlows(c: Config, s: State, e: Event)
    requires Matches(s) && e.Add? && forall n <- s.live :: n <= s.wal.files.top
    ensures Matches(Step(c, s, e)) && Flows(Pending(s) + Fresh(c, s, e), Step(c, s, e))
  {
    var key, added := BufferKey(e.row, c.defaultTable, e.day), Fresh(c, s, e);
    assert AddFails(c, s.wal, e.write) ==> added == {};
    assert added == if Secured(c, e.write) then {Mark(s.wal.files.top + 1, key, e.row)} else {};
    hide BufferKey, Accept, Reject, TakeBucket, Pending, Settled, Matches, Fresh, Flows, AddFails, Secured;
    if AddFails(c, s.wal, e.write) {
      RejectFlows(c, s, e.row, key, e.write);
    } else {
      AcceptFlows(c, s, e.row, key, e.write);
      TakeFlows(c, Accept(c, s, e.row, key, e.write), key, false);
    }
    AllFlows(Pending(s) + added, Step(c, s, e));
  }

  lemma AllFlows(before: set<Mark>, t: State)
    requires Pending(t) == before
    ensures Flows(before, t)
  {
  }

  lemma TaskStepFlows(c: Config, s: State, e: Event)
    requires Matches(s) && (e.Take? || e.Attempt? || e.Admit? || e.Drop? || e.Requeue? || e.TruncateRecovered?)
    ensures Matches(Step(c, s, e)) && Flows(Pending(s), Step(c, s, e))
  {
    var t := Step(c, s, e);
    hide TakeTask, AttemptTask, AdmitTask, DropTask, RequeueTask, Truncated, UnderWay, TaskMarks, LiveMarks, RowsIn,
         LiveMatches, NoEmptyBucket;
    match e {
      case Take => TakeTaskFlows(c, s.tasks);
      case TruncateRecovered(_) =>
      case Attempt(i, ok, _) =>
        if i < |s.tasks.busy| { AttemptFlows(c, s.tasks, i, ok); }
      case Admit(i) => AdmitFlows(c, s.tasks, i);
      case Drop(i) => DropFlows(s.tasks, i);
      case Requeue(i) => RequeueFlows(c, s.tasks, i);
    }
    assert t.tasks == s.tasks || TasksFlow(s.tasks, t.tasks);
    assert t.live == s.live && t.buffer == s.buffer && t.removed == s.removed;
    BucketsUnchanged(s, t);
  }

  lemma BucketsUnchanged(s: State, t: State)
    requires t.buffer == s.buffer && NoEmptyBucket(s)
    ensures NoEmptyBucket(t)
  {
  }

  lemma StepFlows(c: Config, s: State, e: Event)
    requires Matches(s) && forall n <- s.live :: n <= s.wal.files.top
    ensures Matches(Step(c, s, e)) && Flows(Pending(s) + Fresh(c, s, e), Step(c, s, e))
  {
    assert !e.Add? ==> Pending(s) + Fresh(c, s, e) == Pending(s);
    hide Flows, Matches, Pending, Fresh, AddRow, TakeBucket, RemoveRows, ClearBuckets, Worked, AdmitTask, DropTask,
         RequeueTask, TakeTask, Drained;
    match e
    case Add(_, _, _) => AddFlows(c, s, e);
    case Flush(key, force) =>
      TakeFlows(c, s, key, force);
      AllFlows(Pending(s), TakeBucket(c, s, key, force));
    case Remove(table, id, write) => RemoveFlows(c, s, table, id, write);
    case ClearTable(table) => ClearFlows(s, table);
    case Take => TaskStepFlows(c, s, e);
    case Attempt(_, _, _) => TaskStepFlows(c, s, e);
    case TruncateRecovered(_) => TaskStepFlows(c, s, e);
    case Admit(_) => TaskStepFlows(c, s, e);
    case Drop(_) => TaskStepFlows(c, s, e);
    case Requeue(_) => TaskStepFlows(c, s, e);
  }

  // What happens to the log

  /** The number up to which a step truncates the log: after a stored batch, or after recovery. */
  function Cut(c: Config, s: State, e: Event): Option<nat> {
    match e
    case Attempt(i, ok, _) =>
      if i < |s.tasks.busy| && (ok || s.tasks.busy[i].rows == []) && c.walEnabled && s.tasks.busy[i].maxSeq > 0
      then Some(s.tasks.busy[i].maxSeq) else None
    case TruncateRecovered(_) => if LooksDrained(c, s) then Some(s.recoveryMaxSeq + 1) else None
    case _ => None
  }

  function StuckIn(e: Event): set<nat> {
    if e.Attempt? || e.TruncateRecovered? then e.stuck else {}
  }

  lemma WrittenKeeps(f: Files<Payload>, w: Setup, kind: byte, p: Payload, io: Io, m: Mark)
    requires Sound(f) && InLog(f, m)
    ensures var g := Written(f, w, kind, 0, p, io);
            InLog(g, m) && (m.n in g.unsynced ==> m.n in f.unsynced)
  {
    WrittenRecords(f, w, kind, 0, p, io);
    hide Written, RecordsOf, Increasing, Concat;
    var r :| r in RecordsOf(f) && r.seqNum == m.n && r.data == Row(m.key, m.row);
    assert r in RecordsOf(Written(f, w, kind, 0, p, io));
  }

  /** The log keeps what it has, and nothing synced becomes unsynced. */
  ghost predicate Grows(f: Files<Payload>, g: Files<Payload>) {
    Sound(g) && forall m :: InLog(f, m) ==> InLog(g, m) && (m.n in g.unsynced ==> m.n in f.unsynced)
  }

  lemma LoggedKeeps(c: Config, w: LogState, kind: byte, p: Payload, write: Write)
    requires Sound(w.files)
    ensures Grows(w.files, Logged(c, w, kind, p, write).files)
  {
    hide Sound, InLog, Written;
    if c.walEnabled && write.Some? {
      WrittenSound(w.files, c.setup, kind, 0, p, write.value);
      forall m | InLog(w.files, m)
        ensures var g := Logged(c, w, kind, p, write).files;
                InLog(g, m) && (m.n in g.unsynced ==> m.n in w.files.unsynced)
      {
        WrittenKeeps(w.files, c.setup, kind, p, write.value, m);
      }
    }
  }

  /** Steps other than a truncation lose nothing from the log, and log what they accept. */
  lemma StepLogs(c: Config, s: State, e: Event)
    requires Sound(s.wal.files) && Cut(c, s, e).None?
    ensures var f, g := s.wal.files, Step(c, s, e).wal.files;
            && Grows(f, g)
            && (forall m <- Fresh(c, s, e) :: InLog(g, m) && (c.setup.syncOnWrite ==> m.n !in g.unsynced))
  {
    hide Sound, InLog, Written, Flatten, Purge, OtherBuckets, Spared, Submit, AddRow, AttemptTask, Logged, Grows;
    match e
    case Add(_, _, _) => AddLogs(c, s, e);
    case Remove(table, id, write) =>
      LoggedKeeps(c, s.wal, RECORD_TYPE_TOMBSTONE, Tombstone(table, id), write);
      SameLog(s.wal.files);
    case _ => SameLog(s.wal.files);
  }

  lemma SameLog(f: Files<Payload>)
    requires Sound(f)
    ensures Grows(f, f)
  {
  }

  lemma AddLogs(c: Config, s: State, e: Event)
    requires Sound(s.wal.files) && e.Add?
    ensures var f, g := s.wal.files, Step(c, s, e).wal.files;
            && Grows(f, g)
            && (forall m <- Fresh(c, s, e) :: InLog(g, m) && (c.setup.syncOnWrite ==> m.n !in g.unsynced))
  {
    hide Sound, InLog, Written, BufferKey, Submit, RollBack, Grows, Appended;
    var key := BufferKey(e.row, c.defaultTable, e.day);
    LoggedKeeps(c, s.wal, RECORD_TYPE_DATA, Row(key, e.row), e.write);
    if Secured(c, e.write) { FreshLogged(s.wal.files, c.setup, key, e.row, e.write.value); }
    hide Elsewhere, Marked;
  }

  lemma FreshLogged(f: Files<Payload>, w: Setup, key: string, row: DataRow, io: Io)
    requires Numbered(w, io)
    ensures var g := Written(f, w, RECORD_TYPE_DATA, 0, Row(key, row), io);
            InLog(g, Mark(f.top + 1, key, row)) && (w.syncOnWrite ==> f.top + 1 !in g.unsynced)
  {
    WrittenRecords(f, w, RECORD_TYPE_DATA, 0, Row(key, row), io);
    hide Written, RecordsOf;
  }

  // Truncation

  ghost function Numbers(ms: set<Mark>): set<nat> {
    set m | m in ms :: m.n
  }

  lemma TruncatedKeepsIff(f: Files<Payload>, before: nat, stuck: set<nat>, m: Mark)
    requires Sound(f) && InLog(f, m)
    ensures InLog(Truncated(f, before, stuck), m) <==> m.n !in Removed(f, before, stuck)
  {
    TruncatedRecords(f, before, stuck);
    hide Sound, RecordsOf, Truncated, Removed;
    var r :| r in RecordsOf(f) && r.seqNum == m.n && r.data == Row(m.key, m.row);
    WithoutKeeps(RecordsOf(f), Removed(f, before, stuck), r);
    forall q | q in RecordsOf(Truncated(f, before, stuck)) && q.seqNum == m.n
      ensures m.n !in Removed(f, before, stuck)
    {
      WithoutKeeps(RecordsOf(f), Removed(f, before, stuck), q);
    }
  }

  /** No file that the step's truncation removes holds a record of a row that is still in memory. */
  ghost predicate Harmless(c: Config, s: State, e: Event) {
    Cut(c, s, e).Some? ==>
      !Endangered(s.wal.files, Numbers(Pending(Step(c, s, e))), Cut(c, s, e).value, StuckIn(e))
  }

  ghost predicate Safe(c: Config, s: State) {
    Sound(s.wal.files) && Matches(s) && AllLogged(s) && AllSynced(c, s)
  }

  lemma LiveBelow(c: Config, s: State)
    requires Safe(c, s)
    ensures forall n <- s.live :: n <= s.wal.files.top
  {
    hide Matches, TaskMarks, UnderWay, RecordsOf;
    forall n | n in s.live ensures n <= s.wal.files.top {
      var m := Mark(n, s.live[n].key, s.live[n].row);
      assert m in LiveMarks(s.live);
      assert InLog(s.wal.files, m);
    }
  }

  lemma TruncationUnfolds(c: Config, s: State, e: Event)
    requires Cut(c, s, e).Some?
    ensures Step(c, s, e).wal.files == Truncated(s.wal.files, Cut(c, s, e).value, StuckIn(e))
  {
  }

  /**
   * A truncation, after a stored batch or after recovery, keeps all rows in memory logged exactly if none of their
   * records lies in a closed file that can be removed and whose numbers are all at most the one truncated at.
   */
  lemma TruncationKeepsLogIff(c: Config, s: State, e: Event)
    requires Safe(c, s) && Cut(c, s, e).Some?
    ensures AllLogged(Step(c, s, e)) <==> Harmless(c, s, e)
  {
    var t, f, before, stuck := Step(c, s, e), s.wal.files, Cut(c, s, e).value, StuckIn(e);
    LiveBelow(c, s);
    StepFlows(c, s, e);
    assert Pending(t) <= Pending(s);
    TruncationUnfolds(c, s, e);
    EndangeredIff(f, Numbers(Pending(t)), before, stuck);
    hide Step, Pending, Matches, Sound, InLog, Truncated, Removed, Endangered, Flows, AllSynced;
    forall m | m in Pending(t) ensures InLog(t.wal.files, m) <==> m.n !in Removed(f, before, stuck) {
      TruncatedKeepsIff(f, before, stuck, m);
    }
    forall m | m in Pending(t) ensures m.n in Numbers(Pending(t)) {}
  }

  /** The batches that the truncation after recovery does not wait for. */
  ghost function Overlooked(ts: Tasks): seq<Task> {
    ts.waiting + ts.busy + ts.retrying
  }

  /**
   * The truncation after recovery takes place when the buffer and the queue are empty. It keeps all rows in memory
   * logged exactly if no batch that waits, is with a worker or sleeps before a retry has a record in a closed file
   * that can be removed and whose numbers are at most one above the last number recovered.
   */
  lemma RecoveryTruncationKeepsLogIff(c: Config, s: State, stuck: set<nat>)
    requires Safe(c, s) && LooksDrained(c, s)
    ensures AllLogged(Step(c, s, TruncateRecovered(stuck))) <==>
            !Endangered(s.wal.files, Numbers(TaskMarks(Overlooked(s.tasks))), s.recoveryMaxSeq + 1, stuck)
  {
    var e := TruncateRecovered(stuck);
    TruncationKeepsLogIff(c, s, e);
    assert Pending(Step(c, s, e)) == TaskMarks(Overlooked(s.tasks)) by {
      NothingLive(s);
      OverlookedMarks(s.tasks);
      hide Truncated, TaskMarks, Overlooked, UnderWay, Matches;
    }
    hide Step, Pending, Safe, AllLogged, TaskMarks;
  }

  lemma NothingLive(s: State)
    requires Matches(s) && s.buffer == map[]
    ensures LiveMarks(s.live) == {}
  {
    hide TasksMatch;
  }

  lemma OverlookedMarks(ts: Tasks)
    requires ts.queue == []
    ensures TaskMarks(UnderWay(ts)) == TaskMarks(Overlooked(ts))
  {
    assert UnderWay(ts) == Overlooked(ts);
  }

  /** In particular it is harmless once no batch is under way. */
  lemma DrainedIsHarmless(c: Config, s: State, stuck: set<nat>)
    requires Safe(c, s) && LooksDrained(c, s) && Overlooked(s.tasks) == []
    ensures Harmless(c, s, TruncateRecovered(stuck))
  {
    hide Safe, Step, Endangered;
    NoMarks();
    RecoveryTruncationKeepsLogIff(c, s, stuck);
    TruncationKeepsLogIff(c, s, TruncateRecovered(stuck));
    NothingEndangered(s.wal.files, s.recoveryMaxSeq + 1, stuck);
    assert Numbers({}) == {};
  }

  lemma NothingEndangered(f: Files<Payload>, before: nat, stuck: set<nat>)
    ensures !Endangered(f, {}, before, stuck)
  {
  }

  /** Truncations below all numbers in memory, as when batches finish in log order, are harmless. */
  lemma OldestFirstIsHarmless(c: Config, s: State, e: Event)
    requires Safe(c, s) && (Cut(c, s, e).Some? ==> forall m <- Pending(Step(c, s, e)) :: m.n > Cut(c, s, e).value)
    ensures Harmless(c, s, e)
  {
    if Cut(c, s, e).Some? {
      EndangeredIff(s.wal.files, Numbers(Pending(Step(c, s, e))), Cut(c, s, e).value, StuckIn(e));
      TruncatedRecords(s.wal.files, Cut(c, s, e).value, StuckIn(e));
      hide Step, Pending, Endangered, Removed, Sound;
    }
  }

  /** Every step that is harmless keeps the rows in memory logged. */
  lemma StepSafe(c: Config, s: State, e: Event)
    requires Safe(c, s) && Harmless(c, s, e)
    ensures Safe(c, Step(c, s, e))
  {
    LiveBelow(c, s);
    StepFlows(c, s, e);
    if Cut(c, s, e).Some? {
      TruncationKeepsLogIff(c, s, e);
      TruncationUnfolds(c, s, e);
      TruncatedRecords(s.wal.files, Cut(c, s, e).value, StuckIn(e));
      TruncatedUnsynced(s.wal.files, Cut(c, s, e).value, StuckIn(e));
      CutAddsNothing(c, s, e);
      hide Step, Pending, InLog, Fresh, Matches, Sound, Harmless, Cut;
    } else {
      StepLogs(c, s, e);
      hide Step, Pending, InLog, Fresh, Matches, Sound, Harmless, Cut;
    }
  }

  lemma CutAddsNothing(c: Config, s: State, e: Event)
    requires Cut(c, s, e).Some?
    ensures Fresh(c, s, e) == {}
  {
  }

  lemma TruncatedUnsynced(f: Files<Payload>, before: nat, stuck: set<nat>)
    ensures Truncated(f, before, stuck).unsynced == f.unsynced
  {
  }

  // Recovery

  /** A row that replay leaves in the buffer. */
  ghost predicate Alive(log: Log<Payload>, i: nat)
    requires i < |log|
  {
    log[i].data.Row? && Untouched(log, i) && Unburied(log, i)
  }

  ghost predicate LiveIs(log: Log<Payload>, live: map<nat, Spot>) {
    && (forall i | 0 <= i < |log| && Alive(log, i) ::
          log[i].seqNum in live && live[log[i].seqNum] == Spot(log[i].data.key, log[i].data.row))
    && (forall n <- live :: exists i | 0 <= i < |log| :: log[i].seqNum == n && Alive(log, i))
  }

  lemma AliveNext(front: Log<Payload>, r: Record<Payload>, i: nat)
    requires i < |front|
    ensures Alive(front + [r], i) <==>
            Alive(front, i) &&
            !(r.data.Tombstone? && InTable(front[i].data.key, r.data.table) && front[i].data.row.id == r.data.id)
  {
    assert (front + [r])[i] == front[i];
    if front[i].data.Row? {
      SameFate(front, r, i);
    }
  }

  lemma AliveLast(front: Log<Payload>, r: Record<Payload>)
    ensures Alive(front + [r], |front|) <==>
            r.data.Row? && TombstoneKey(r.data.row.table, r.data.row.id) !in ReplayLog(front).tombstones
  {
    assert (front + [r])[|front|] == r;
    if r.data.Row? {
      ReplayKeepsSurvivors(front);
      SeenMeansBuried(ReplayLog(front), front, r);
      hide ReplayLog;
      assert Untouched(front + [r], |front|);
    }
  }

  lemma FrontAlive(front: Log<Payload>, r: Record<Payload>)
    requires Increasing(front + [r])
    ensures forall i | 0 <= i < |front| :: (front + [r])[i] == front[i] && front[i].seqNum < r.seqNum
    ensures !r.data.Tombstone? ==> forall i | 0 <= i < |front| :: Alive(front + [r], i) <==> Alive(front, i)
  {
    forall i | 0 <= i < |front| ensures front[i].seqNum < r.seqNum {
      assert (front + [r])[i] == front[i] && (front + [r])[|front|] == r;
    }
    forall i | 0 <= i < |front| && !r.data.Tombstone? ensures Alive(front + [r], i) <==> Alive(front, i) {
      AliveNext(front, r, i);
    }
  }

  lemma LiveSame(front: Log<Payload>, r: Record<Payload>, live: map<nat, Spot>)
    requires LiveIs(front, live) && Increasing(front + [r]) && !r.data.Tombstone? && !Alive(front + [r], |front|)
    ensures LiveIs(front + [r], live)
  {
    FrontAlive(front, r);
    hide Alive, Increasing;
    var log := front + [r];
    forall n | n in live ensures exists i | 0 <= i < |log| :: log[i].seqNum == n && Alive(log, i) {
      var i :| 0 <= i < |front| && front[i].seqNum == n && Alive(front, i);
      assert log[i].seqNum == n;
    }
  }

  lemma LiveMore(front: Log<Payload>, r: Record<Payload>, live: map<nat, Spot>)
    requires LiveIs(front, live) && Increasing(front + [r]) && r.data.Row? && Alive(front + [r], |front|)
    ensures LiveIs(front + [r], live[r.seqNum := Spot(r.data.key, r.data.row)])
  {
    FrontAlive(front, r);
    hide Alive, Increasing;
    var log, more := front + [r], live[r.seqNum := Spot(r.data.key, r.data.row)];
    assert log[|front|] == r;
    forall n | n in more ensures exists i | 0 <= i < |log| :: log[i].seqNum == n && Alive(log, i) {
      if n != r.seqNum {
        var i :| 0 <= i < |front| && front[i].seqNum == n && Alive(front, i);
        assert log[i].seqNum == n;
      }
    }
  }

  lemma LiveLess(front: Log<Payload>, r: Record<Payload>, live: map<nat, Spot>)
    requires LiveIs(front, live) && Increasing(front + [r]) && r.data.Tombstone?
    ensures LiveIs(front + [r], Spared(live, r.data.table, r.data.id))
  {
    FrontAlive(front, r);
    var log, less := front + [r], Spared(live, r.data.table, r.data.id);
    assert log[|front|] == r && !Alive(log, |front|);
    forall i | 0 <= i < |front|
      ensures Alive(log, i) ==> Alive(front, i) && front[i].data.Row?
      ensures Alive(front, i) ==> front[i].data.Row? && (Alive(log, i) <==> front[i].seqNum in less)
    {
      AliveNext(front, r, i);
    }
    hide Alive, Increasing;
    forall n | n in less ensures exists i | 0 <= i < |log| :: log[i].seqNum == n && Alive(log, i) {
      var i :| 0 <= i < |front| && front[i].seqNum == n && Alive(front, i);
      assert log[i].seqNum == n;
    }
  }

  /** Exactly the records that no earlier tombstone names and no later one covers come back. */
  lemma {:induction false} LiveLogIs(log: Log<Payload>)
    requires Increasing(log)
    ensures LiveIs(log, LiveLog(log))
  {
    if log != [] {
      var front, r := log[..|log| - 1], log[|log| - 1];
      assert log == front + [r];
      LiveLogIs(front);
      AliveLast(front, r);
      hide Alive, ReplayLog, LiveIs, Increasing, Spared;
      if r.data.Tombstone? {
        LiveLess(front, r, LiveLog(front));
      } else if Alive(log, |front|) {
        LiveMore(front, r, LiveLog(front));
      } else {
        LiveSame(front, r, LiveLog(front));
      }
    }
  }

  /** The marked rows are in the recovered buffer. */
  lemma {:induction false} LiveInBuffer(log: Log<Payload>)
    ensures LiveMatches(ReplayLog(log).buffer, LiveLog(log))
  {
    if log != [] {
      var front, r := log[..|log| - 1], log[|log| - 1];
      LiveInBuffer(front);
      var b := ReplayLog(front).buffer;
      match r.data
      case Unparsable =>
      case Row(key, row) => AppendedMatches(b, key, row, LiveLog(front));
      case Tombstone(table, id) => PurgeMatches(b, table, id, LiveLog(front));
    }
  }

  lemma LiveLogged(found: seq<Log<Payload>>, m: Mark)
    requires Increasing(Concat(found)) && m in LiveMarks(LiveLog(Concat(found)))
    ensures InLog(Opened(found), m)
  {
    hide LiveLog, Concat, Increasing, RecordsOf, Alive, Sound;
    var log, live := Concat(found), LiveLog(Concat(found));
    OpenedSound(found);
    LiveLogIs(log);
    assert m.n in live && live[m.n] == Spot(m.key, m.row);
    var i :| 0 <= i < |log| && log[i].seqNum == m.n && Alive(log, i);
    AliveIsRow(log, i);
    hide LiveIs, LiveMarks;
    assert log[i] in log;
  }

  lemma StartParts(found: seq<Log<Payload>>)
    ensures var s, log := Start(Opened(found)), Concat(found);
            && s.buffer == ReplayLog(log).buffer && s.live == LiveLog(log) && s.wal.files == Opened(found)
            && UnderWay(s.tasks) == []
  {
    hide ReplayLog, LiveLog, Concat;
    assert Concat(found) + [] == Concat(found);
  }

  lemma StartSafe(c: Config, found: seq<Log<Payload>>)
    requires Increasing(Concat(found))
    ensures Safe(c, Start(Opened(found)))
  {
    assert Opened(found).unsynced == {};
    hide Start, Opened, ReplayLog, LiveLog, Concat, Increasing, TaskMarks, HoldsSurviving, InLog, Sound, LiveMarks,
         LiveMatches, UnderWay, RecordsOf, TombstonesSeen;
    var log := Concat(found);
    var s := Start(Opened(found));
    StartParts(found);
    OpenedSound(found);
    LiveInBuffer(log);
    ReplayKeepsSurvivors(log);
    NoMarks();
    forall m | m in LiveMarks(s.live) ensures InLog(Opened(found), m) {
      LiveLogged(found, m);
    }
    assert NoEmptyBucket(s) by { SurvivingNotEmpty(s.buffer, log); }
  }

  lemma NoMarks()
    ensures TaskMarks([]) == {}
  {
  }

  lemma SurvivingNotEmpty(b: Buffer, log: Log<Payload>)
    requires HoldsSurviving(b, log, true)
    ensures forall k <- b :: b[k] != []
  {
  }

  lemma AliveIsRow(log: Log<Payload>, i: nat)
    requires i < |log| && Alive(log, i)
    ensures log[i].data.Row?
  {
  }

  // Process lives

  /**
   * A state with the history of callers: rows accepted with a log number, rows no longer owed, and rows that a crash
   * took before their records were synced.
   */
  datatype Span = Span(state: State, stored: set<DataRow>, settled: set<DataRow>, dropped: set<DataRow>)

  datatype Action = Do(e: Event) | Crash(lost: set<nat>)

  /** Rows in memory whose records are on disk but that replay leaves out. */
  ghost function Forgotten(s: State, log: Log<Payload>): set<DataRow> {
    set r | r in log && r.data.Row? && r.seqNum in Numbers(Pending(s)) && r.seqNum !in LiveLog(log) :: r.data.row
  }

  /** Rows in memory whose records a crash loses. */
  ghost function Torn(s: State, lost: set<nat>): set<DataRow> {
    set m | m in Pending(s) && m.n in lost * s.wal.files.unsynced :: m.row
  }

  ghost function Act(c: Config, h: Span, a: Action): Span {
    match a
    case Do(e) =>
      var t := Step(c, h.state, e);
      Span(t, h.stored + (if e.Add? && Secured(c, e.write) then {e.row} else {}), h.settled + Settled(t), h.dropped)
    case Crash(lost) =>
      var found := Left(h.state.wal.files, lost);
      Span(Start(Opened(found)), h.stored, h.settled + Forgotten(h.state, Concat(found)),
           h.dropped + Torn(h.state, lost))
  }

  ghost function Life(c: Config, h: Span, acts: seq<Action>): Span {
    if acts == [] then h else Act(c, Life(c, h, acts[..|acts| - 1]), acts[|acts| - 1])
  }

  ghost predicate HarmlessAction(c: Config, h: Span, a: Action) {
    a.Do? ==> Harmless(c, h.state, a.e)
  }

  ghost predicate HarmlessLife(c: Config, h: Span, acts: seq<Action>) {
    forall i | 0 <= i < |acts| :: HarmlessAction(c, Life(c, h, acts[..i]), acts[i])
  }

  /** Every row owed to a caller is in memory, marked. */
  ghost predicate Accounted(h: Span) {
    forall row <- h.stored :: row in h.settled || row in h.dropped || exists m <- Pending(h.state) :: m.row == row
  }

  ghost predicate Good(c: Config, h: Span) {
    Safe(c, h.state) && Accounted(h) && (c.setup.syncOnWrite ==> h.dropped == {})
  }

  lemma FreshRow(c: Config, s: State, e: Event)
    requires e.Add? && Secured(c, e.write)
    ensures exists m <- Fresh(c, s, e) :: m.row == e.row
  {
    assert Mark(s.wal.files.top + 1, BufferKey(e.row, c.defaultTable, e.day), e.row) in Fresh(c, s, e);
  }

  lemma DoAccounted(c: Config, h: Span, e: Event)
    requires Accounted(h) && Flows(Pending(h.state) + Fresh(c, h.state, e), Step(c, h.state, e))
    ensures Accounted(Act(c, h, Do(e)))
  {
    hide Step, Pending, Settled, Fresh, Secured;
    var g := Act(c, h, Do(e));
    forall row | row in g.stored && row !in g.settled && row !in g.dropped
      ensures exists m <- Pending(g.state) :: m.row == row
    {
      if row !in h.stored {
        FreshRow(c, h.state, e);
        var m :| m in Fresh(c, h.state, e) && m.row == row;
      } else {
        var m :| m in Pending(h.state) && m.row == row;
      }
    }
  }

  lemma DoGood(c: Config, h: Span, e: Event)
    requires Good(c, h) && Harmless(c, h.state, e)
    ensures Good(c, Act(c, h, Do(e)))
  {
    hide Harmless, Step, Flows, Fresh, Accounted, Pending;
    LiveBelow(c, h.state);
    StepSafe(c, h.state, e);
    StepFlows(c, h.state, e);
    hide Safe, Matches;
    DoAccounted(c, h, e);
  }

  lemma CrashGood(c: Config, h: Span, lost: set<nat>)
    requires Good(c, h)
    ensures Good(c, Act(c, h, Crash(lost)))
  {
    var s, found := h.state, Left(h.state.wal.files, lost);
    LeftRecords(s.wal.files, lost);
    StartSafe(c, found);
    var g := Act(c, h, Crash(lost));
    forall m | m in Pending(s)
      ensures m.row in g.settled || m.row in g.dropped || exists p <- Pending(g.state) :: p.row == m.row
    {
      assert InLog(s.wal.files, m);
      ComesBack(s, lost, m);
    }
    hide Safe, Pending, Start, Left;
    if c.setup.syncOnWrite { NothingTorn(c, s, lost); }
  }

  lemma NothingTorn(c: Config, s: State, lost: set<nat>)
    requires Safe(c, s) && c.setup.syncOnWrite
    ensures Torn(s, lost) == {}
  {
    hide Pending;
  }

  /** A row in memory at a crash is in memory after recovery, or forgotten, or torn. */
  lemma ComesBack(s: State, lost: set<nat>, m: Mark)
    requires Sound(s.wal.files) && m in Pending(s) && InLog(s.wal.files, m)
    ensures var log := Concat(Left(s.wal.files, lost));
            m.row in Forgotten(s, log) || m.row in Torn(s, lost) || m in Pending(Start(Opened(Left(s.wal.files, lost))))
  {
    var found := Left(s.wal.files, lost);
    var log, gone := Concat(found), lost * s.wal.files.unsynced;
    LeftRecords(s.wal.files, lost);
    LiveLogIs(log);
    OpenedSound(found);
    assert RecordsOf(Opened(found)) == log;
    hide Concat, Left, LiveLog, Increasing, Sound, Pending, TaskMarks, UnderWay;
    var r :| r in RecordsOf(s.wal.files) && r.seqNum == m.n && r.data == Row(m.key, m.row);
    WithoutKeeps(RecordsOf(s.wal.files), gone, r);
    if m.n !in gone {
      assert r in log && r.seqNum in Numbers(Pending(s));
      if r.seqNum in LiveLog(log) {
        SameRecord(log, r);
        StartHasMark(found, m);
      }
    }
  }

  lemma SameRecord(log: Log<Payload>, r: Record<Payload>)
    requires Increasing(log) && r in log && r.data.Row? && r.seqNum in LiveLog(log)
    ensures LiveLog(log)[r.seqNum] == Spot(r.data.key, r.data.row)
  {
    LiveLogIs(log);
    hide LiveLog, Alive;
    var i :| 0 <= i < |log| && log[i].seqNum == r.seqNum && Alive(log, i);
    AliveIsRow(log, i);
    var j :| 0 <= j < |log| && log[j] == r;
    assert i == j;
  }

  lemma StartHasMark(found: seq<Log<Payload>>, m: Mark)
    requires m.n in LiveLog(Concat(found)) && LiveLog(Concat(found))[m.n] == Spot(m.key, m.row)
    ensures m in Pending(Start(Opened(found)))
  {
    StartParts(found);
    hide LiveLog, ReplayLog, Concat, TaskMarks, UnderWay, Start;
  }

  lemma {:induction false} LifeGood(c: Config, h: Span, acts: seq<Action>)
    requires Good(c, h) && HarmlessLife(c, h, acts)
    ensures Good(c, Life(c, h, acts))
  {
    hide Good, Act, HarmlessAction;
    if acts != [] {
      var k := |acts| - 1;
      forall i | 0 <= i < k ensures HarmlessAction(c, Life(c, h, acts[..k][..i]), acts[..k][i]) {
        assert acts[..k][..i] == acts[..i];
        assert HarmlessAction(c, Life(c, h, acts[..i]), acts[i]);
      }
      LifeGood(c, h, acts[..k]);
      var g := Life(c, h, acts[..k]);
      assert HarmlessAction(c, g, acts[k]);
      match acts[k]
      case Do(e) => DoGood(c, g, e) by { HarmlessDo(c, g, e); }
      case Crash(lost) => CrashGood(c, g, lost);
    }
  }

  lemma HarmlessDo(c: Config, h: Span, e: Event)
    requires HarmlessAction(c, h, Do(e))
    ensures Harmless(c, h.state, e)
  {
  }

  /**
   * At least once, with crashes anywhere, from any log, along every life whose truncations are harmless: every row
   * accepted with a log number is stored, lost with its batch, removed, or left out by replay for a tombstone; or a
   * crash took it before its record was synced; or its record is in the log. Every such row in memory has its own
   * record there. If every write is synced, so are those records, and no crash takes a row.
   */
  lemma AcceptedRowsSurvive(c: Config, found: seq<Log<Payload>>, acts: seq<Action>)
    requires Increasing(Concat(found)) && HarmlessLife(c, Span(Start(Opened(found)), {}, {}, {}), acts)
    ensures var h := Life(c, Span(Start(Opened(found)), {}, {}, {}), acts);
            && (forall row <- h.stored ::
                  || row in h.settled || row in h.dropped
                  || exists m: Mark :: m.row == row && InLog(h.state.wal.files, m))
            && AllLogged(h.state) && AllSynced(c, h.state)
            && (c.setup.syncOnWrite ==> h.dropped == {})
  {
    StartSafe(c, found);
    LifeGood(c, Span(Start(Opened(found)), {}, {}, {}), acts);
    hide Life, Start, InLog, Pending, Matches, Sound;
  }

  /** Replay leaves a row in memory out exactly if a tombstone on disk names it before or covers it after. */
  lemma ForgottenIff(log: Log<Payload>, i: nat)
    requires Increasing(log) && i < |log| && log[i].data.Row?
    ensures log[i].seqNum !in LiveLog(log) <==> !Untouched(log, i) || !Unburied(log, i)
  {
    LiveLogIs(log);
    hide LiveLog, Untouched, Unburied;
    assert Alive(log, i) <==> Untouched(log, i) && Unburied(log, i);
    if log[i].seqNum in LiveLog(log) {
      var j :| 0 <= j < |log| && log[j].seqNum == log[i].seqNum && Alive(log, j);
      assert j == i;
    }
  }
}
