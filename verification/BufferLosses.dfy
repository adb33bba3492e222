/** Lives of the concurrent buffer in which an accepted row is lost with its log record. */
module BufferLosses {
  import opened Prelude
  import opened WalCodec
  import opened Wal
  import opened BufferKeys
  import opened BufferReplay
  import opened BufferRuns
  import opened BufferDurability

  const WITNESS := Config(100, 10, 2, 3, true, "t", Setup(64 * 1024 * 1024, true))

  const FRESH := Span(Start(Opened([])), {}, {}, {})

  /** A write that fills a file of the default size, and one that does not. */
  const FULL := Some(Io(MAX_RECORD_SIZE, Stored, true))
  const SMALL := Some(Io(0, Stored, true))

  lemma LifeStep(c: Config, h: Span, acts: seq<Action>, i: nat)
    requires i < |acts|
    ensures Life(c, h, acts[..i + 1]) == Act(c, Life(c, h, acts[..i]), acts[i])
  {
    assert acts[..i + 1][..i] == acts[..i];
  }

  /** Nothing is stored, lost or removed. */
  ghost predicate Unsettled(s: State) {
    s.tasks.done == [] && s.tasks.lost == [] && s.removed == multiset{}
  }

  lemma NothingSettled(s: State)
    requires Unsettled(s)
    ensures Settled(s) == {}
  {
  }

  lemma NothingLost(s: State)
    requires s.wal.files.unsynced == {}
    ensures BufferDurability.Torn(s, {}) == {}
  {
  }

  // Steps

  lemma FullAdd(s: State, row: DataRow, key: string)
    requires key == BufferKey(row, "t", "d") && key !in s.buffer && s.wal.files.open == [] && s.wal.files.unsynced == {}
    ensures var t, n := Step(WITNESS, s, Event.Add(row, "d", FULL)), s.wal.files.top + 1;
            && t.buffer == s.buffer[key := [row]] && t.lastFlushedSeq == s.lastFlushedSeq[key := n]
            && t.wal.files ==
              Files(s.wal.files.closed + [[Record(n, RECORD_TYPE_DATA, 0, Row(key, row))]], [], FILE_HEADER_SIZE, n, {})
            && t.tasks == s.tasks && t.removed == s.removed
  {
    hide BufferKey;
    var r := Record(s.wal.files.top + 1, RECORD_TYPE_DATA, 0, Row(key, row));
    assert [] + [r] == [r] && [] + [row] == [row];
    assert s.wal.files.unsynced - Seqs([r]) == {};
  }

  lemma SmallAdd(row: DataRow, key: string)
    requires key == BufferKey(row, "t", "d")
    ensures var t := Step(WITNESS, Start(Opened([])), Event.Add(row, "d", SMALL));
            && Unsettled(t) && t.wal.files.closed == [] && t.wal.files.unsynced == {}
            && t.wal.files.open == [Record(1, RECORD_TYPE_DATA, 0, Row(key, row))]
            && t.wal.files.top == 1 && t.buffer == map[key := [row]]
  {
    hide BufferKey, Marked, Elsewhere;
    var s := Start(Opened([]));
    assert s.wal.files == Files([], [], FILE_HEADER_SIZE, 0, {}) && s.buffer == map[] && Unsettled(s);
    hide Start;
    var r := Record(1, RECORD_TYPE_DATA, 0, Row(key, row));
    assert [] + [r] == [r] && [] + [row] == [row];
    assert s.wal.files.unsynced - Seqs([r]) == {};
  }

  lemma FlushedBatch(s: State, key: string)
    requires key in s.buffer && s.tasks.queue == []
    ensures Step(WITNESS, s, Flush(key, true)) ==
            s.(tasks := s.tasks.(queue := [TaskOf(WITNESS, s, key)]), buffer := s.buffer - {key},
               pendingWrites := s.pendingWrites - |s.buffer[key]|, live := Elsewhere(s.live, key))
  {
    hide Elsewhere, Marked;
  }

  lemma TakenBatch(s: State, t: Task)
    requires s.tasks.queue == [t] && s.tasks.busy == []
    ensures Step(WITNESS, s, Take) == s.(tasks := s.tasks.(queue := [], busy := [t]))
  {
    assert Without1([t], 0) == [];
  }

  lemma StoredBatch(s: State, t: Task)
    requires s.tasks.busy == [t] && t.maxSeq > 0 && |s.wal.files.closed| == 2
    requires forall f <- s.wal.files.closed :: MaxSeq(f) <= t.maxSeq
    ensures var u := Step(WITNESS, s, Attempt(0, true, {}));
            && u.tasks.done == s.tasks.done + [t.(attempts := t.attempts + 1)] && u.tasks.lost == s.tasks.lost
            && u.wal.files == s.wal.files.(closed := []) && u.removed == s.removed
  {
    hide MaxSeq;
    var f := s.wal.files;
    assert Goes(f.closed, 0, t.maxSeq, {}) && Goes(f.closed, 1, t.maxSeq, {});
    assert Kept(f.closed, 0, t.maxSeq, {}) == [] && Kept(f.closed, 1, t.maxSeq, {}) == [];
  }

  lemma FailedBatch(s: State, t: Task)
    requires s.tasks.busy == [t] && t.rows != [] && t.retries == 0
    ensures var u := Step(WITNESS, s, Attempt(0, false, {}));
            && (Unsettled(s) ==> Unsettled(u))
            && u.buffer == s.buffer && u.tasks.queue == s.tasks.queue && u.wal == s.wal
            && u.recoveryMaxSeq == s.recoveryMaxSeq
  {
  }

  lemma EmptyRestart(f: Files<Payload>)
    requires f.closed == [] && f.open == [] && f.unsynced == {}
    ensures Concat(Left(f, {})) == [] && Start(Opened(Left(f, {}))).buffer == map[]
    ensures Start(Opened(Left(f, {}))).Records() == []
  {
    var found: seq<Log<Payload>> := [[]];
    assert Left(f, {}) == found && found[..0] == [];
  }

  // Lost with another bucket's flush

  lemma TwoAdds(a: DataRow, b: DataRow) returns (s1: State, s2: State)
    requires a.id == "a" && b.id == "b" && a.table == b.table == "t"
    ensures s1 == Step(WITNESS, Start(Opened([])), Event.Add(a, "d", FULL))
    ensures s2 == Step(WITNESS, s1, Event.Add(b, "d", FULL))
    ensures Unsettled(s1) && Unsettled(s2) && s2.tasks.queue == s2.tasks.busy == []
    ensures s2.buffer == map["t/a/d" := [a], "t/b/d" := [b]] && At(s2.lastFlushedSeq, "t/b/d") == 2
    ensures s2.wal.files.open == [] && s2.wal.files.unsynced == {}
    ensures |s2.wal.files.closed| == 2 && forall f <- s2.wal.files.closed :: MaxSeq(f) <= 2
  {
    var ka, kb := "t/a/d", "t/b/d";
    assert BufferKey(a, "t", "d") == ka && BufferKey(b, "t", "d") == kb;
    var s0 := Start(Opened([]));
    assert s0.buffer == map[] && s0.wal.files == Files([], [], FILE_HEADER_SIZE, 0, {}) && Unsettled(s0);
    assert s0.tasks.queue == s0.tasks.busy == [];
    hide Start, BufferKey, Step;
    FullAdd(s0, a, ka);
    s1 := Step(WITNESS, s0, Event.Add(a, "d", FULL));
    FullAdd(s1, b, kb);
    s2 := Step(WITNESS, s1, Event.Add(b, "d", FULL));
    var ra, rb := Record(1, RECORD_TYPE_DATA, 0, Row(ka, a)), Record(2, RECORD_TYPE_DATA, 0, Row(kb, b));
    assert s2.wal.files.closed == [[ra], [rb]];
    assert MaxSeq([ra]) == 1 && MaxSeq([rb]) == 2;
  }

  lemma SecondStored(s2: State, a: DataRow, b: DataRow) returns (s3: State, s4: State, s5: State)
    requires Unsettled(s2) && s2.tasks.queue == s2.tasks.busy == []
    requires s2.buffer == map["t/a/d" := [a], "t/b/d" := [b]] && At(s2.lastFlushedSeq, "t/b/d") == 2
    requires s2.wal.files.open == [] && s2.wal.files.unsynced == {}
    requires |s2.wal.files.closed| == 2 && forall f <- s2.wal.files.closed :: MaxSeq(f) <= 2
    ensures s3 == Step(WITNESS, s2, Flush("t/b/d", true)) && s4 == Step(WITNESS, s3, Take)
    ensures s5 == Step(WITNESS, s4, Attempt(0, true, {})) && Unsettled(s3) && Unsettled(s4)
    ensures |s5.tasks.done| == 1 && s5.tasks.done[0].rows == [b] && s5.tasks.lost == [] && s5.removed == multiset{}
    ensures s5.wal.files.closed == [] && s5.wal.files.open == [] && s5.wal.files.unsynced == {}
  {
    var t := TaskOf(WITNESS, s2, "t/b/d");
    assert t.maxSeq == 2 && t.rows == [b];
    hide Step, MaxSeq, Elsewhere, Marked, TaskOf;
    FlushedBatch(s2, "t/b/d");
    s3 := Step(WITNESS, s2, Flush("t/b/d", true));
    TakenBatch(s3, t);
    s4 := Step(WITNESS, s3, Take);
    StoredBatch(s4, t);
    s5 := Step(WITNESS, s4, Attempt(0, true, {}));
  }

  lemma OthersSettled(s: State, row: DataRow)
    requires s.removed == multiset{} && s.tasks.lost == [] && |s.tasks.done| == 1 && row !in s.tasks.done[0].rows
    ensures row !in Settled(s)
  {
  }

  /**
   * With files of the default size: two rows of different buckets that each fill a file, the flush of the second,
   * and a crash. The first row was accepted with a synced record and is neither settled nor recovered.
   */
  lemma TruncationCanLoseAnotherBucket(a: DataRow, b: DataRow)
    requires a.id == "a" && b.id == "b" && a.table == b.table == "t"
    ensures var acts := [Do(Event.Add(a, "d", FULL)), Do(Event.Add(b, "d", FULL)), Do(Flush("t/b/d", true)), Do(Take),
                         Do(Attempt(0, true, {})), Crash({})];
            var h := Life(WITNESS, FRESH, acts);
            && a in h.stored && a !in h.settled && a !in h.dropped
            && h.state.buffer == map[] && h.state.Records() == []
  {
    hide Start, Step, Life, Left, Opened, MaxSeq, At, Settled, Forgotten, BufferDurability.Torn;
    var acts := [Do(Event.Add(a, "d", FULL)), Do(Event.Add(b, "d", FULL)), Do(Flush("t/b/d", true)), Do(Take),
                 Do(Attempt(0, true, {})), Crash({})];
    var s1, s2 := TwoAdds(a, b);
    var s3, s4, s5 := SecondStored(s2, a, b);
    var h4 := FourActs(FRESH, acts, s1, s2, s3, s4);
    LifeStep(WITNESS, FRESH, acts, 4);
    LifeStep(WITNESS, FRESH, acts, 5);
    OthersSettled(s5, a);
    EmptyRestart(s5.wal.files);
    NothingLost(s5);
    NothingForgotten(s5);
    assert acts[..6] == acts;
  }

  /** Four steps in which nothing is settled. */
  lemma FourActs(h: Span, acts: seq<Action>, s1: State, s2: State, s3: State, s4: State) returns (h4: Span)
    requires |acts| >= 4 && forall i | 0 <= i < 4 :: acts[i].Do?
    requires s1 == Step(WITNESS, h.state, acts[0].e) && s2 == Step(WITNESS, s1, acts[1].e)
    requires s3 == Step(WITNESS, s2, acts[2].e) && s4 == Step(WITNESS, s3, acts[3].e)
    requires Unsettled(s1) && Unsettled(s2) && Unsettled(s3) && Unsettled(s4)
    ensures h4 == Life(WITNESS, h, acts[..4]) && h4.state == s4
    ensures h4.settled == h.settled && h4.dropped == h.dropped && h.stored <= h4.stored
    ensures acts[0].e.Add? && Secured(WITNESS, acts[0].e.write) ==> acts[0].e.row in h4.stored
  {
    hide Step, Settled, Unsettled;
    assert acts[..0] == [] && Life(WITNESS, h, []) == h;
    hide Life;
    LifeStep(WITNESS, h, acts, 0);
    LifeStep(WITNESS, h, acts, 1);
    LifeStep(WITNESS, h, acts, 2);
    LifeStep(WITNESS, h, acts, 3);
    NothingSettled(s1);
    NothingSettled(s2);
    NothingSettled(s3);
    NothingSettled(s4);
    h4 := Life(WITNESS, h, acts[..4]);
  }

  lemma NothingForgotten(s: State)
    ensures Forgotten(s, []) == {}
  {
  }

  // Lost with the truncation after recovery

  lemma Restarted(row: DataRow, key: string, f: Files<Payload>) returns (s: State)
    requires f.closed == [] && f.open == [Record(1, RECORD_TYPE_DATA, 0, Row(key, row))] && f.unsynced == {}
    ensures s == Start(Opened(Left(f, {})))
    ensures s.buffer == map[key := [row]] && s.recoveryMaxSeq == 1 && s.wal.files == Opened([f.open])
    ensures Unsettled(s) && s.tasks.queue == s.tasks.busy == []
    ensures Concat(Left(f, {})) == f.open && 1 in LiveLog(f.open)
  {
    WithoutNone(f.open, {} * f.unsynced);
    assert Left(f, {}) == [f.open];
    OneFile(f.open);
    ConcatLast([], f.open);
    assert [] + [f.open] == [f.open] && [] + f.open == f.open;
    ReplayOne(f.open, key, row);
    hide Left, Without, Concat, RecordsOf, ReplayLog, LiveLog;
    s := Start(Opened(Left(f, {})));
  }

  lemma ReplayOne(log: Log<Payload>, key: string, row: DataRow)
    requires log == [Record(1, RECORD_TYPE_DATA, 0, Row(key, row))]
    ensures ReplayLog(log) == Recovery(map[key := [row]], map[key := 1], {}, 1, 0, 1) && 1 in LiveLog(log)
  {
    assert log[..0] == [] && ReplayLog([]) == Recovery(map[], map[], {}, 0, 0, 0);
    assert [] + [row] == [row];
  }

  lemma RecordsTruncated(s: State, r: Record<Payload>)
    requires s.buffer == map[] && s.tasks.queue == [] && s.recoveryMaxSeq == 1
    requires s.wal.files == Opened([[r]]) && r.seqNum == 1
    ensures var t := Step(WITNESS, s, TruncateRecovered({}));
            && t.wal.files.closed == [] && t.wal.files.open == [] && t.wal.files.unsynced == {}
            && t.tasks == s.tasks && t.removed == s.removed
  {
    assert MaxSeq([r]) == 1;
    hide MaxSeq;
    assert Goes([[r]], 0, 2, {});
    assert Kept([[r]], 0, 2, {}) == [];
  }

  /**
   * A row with a synced record, a crash, the flush of the recovered row, a failed attempt, and, while the batch
   * sleeps before its retry, the truncation after recovery; another crash. The row is neither settled nor recovered.
   */
  lemma RecoveryTruncationCanLoseARetry(row: DataRow)
    requires row.id == "a" && row.table == "t"
    ensures var acts := [Do(Event.Add(row, "d", SMALL)), Crash({}), Do(Flush("t/a/d", true)), Do(Take),
                         Do(Attempt(0, false, {})), Do(TruncateRecovered({})), Crash({})];
            var h := Life(WITNESS, FRESH, acts);
            && row in h.stored && row !in h.settled && row !in h.dropped
            && h.state.buffer == map[] && h.state.Records() == []
  {
    hide Start, Step, Life, Left, Opened, Settled, Forgotten, BufferDurability.Torn;
    var acts := [Do(Event.Add(row, "d", SMALL)), Crash({}), Do(Flush("t/a/d", true)), Do(Take),
                 Do(Attempt(0, false, {})), Do(TruncateRecovered({})), Crash({})];
    var h2 := AddedAndCrashed(row);
    var s3, s4, s5, s6 := FlushedAndTruncated(h2.state, row);
    var h6 := FourActs(h2, acts[2..], s3, s4, s5, s6);
    assert acts[..2] == [Do(Event.Add(row, "d", SMALL)), Crash({})];
    LifeConcat(WITNESS, FRESH, acts[..2], acts[2..][..4]);
    assert acts[..2] + acts[2..][..4] == acts[..6];
    LifeStep(WITNESS, FRESH, acts, 6);
    EmptyRestart(s6.wal.files);
    NothingLost(s6);
    NothingForgotten(s6);
    assert acts[..7] == acts;
  }

  lemma {:induction false} LifeConcat(c: Config, h: Span, a: seq<Action>, b: seq<Action>)
    ensures Life(c, h, a + b) == Life(c, Life(c, h, a), b)
  {
    hide Act;
    if b == [] {
      assert a + b == a;
    } else {
      var k := |b| - 1;
      assert (a + b)[..|a| + k] == a + b[..k];
      LifeConcat(c, h, a, b[..k]);
    }
  }

  lemma AddedAndCrashed(row: DataRow) returns (h: Span)
    requires row.id == "a" && row.table == "t"
    ensures h == Life(WITNESS, FRESH, [Do(Event.Add(row, "d", SMALL)), Crash({})])
    ensures row in h.stored && h.settled == {} && h.dropped == {}
    ensures h.state.buffer == map["t/a/d" := [row]] && h.state.recoveryMaxSeq == 1
    ensures h.state.wal.files == Opened([[Record(1, RECORD_TYPE_DATA, 0, Row("t/a/d", row))]])
    ensures Unsettled(h.state) && h.state.tasks.queue == h.state.tasks.busy == []
  {
    hide Start, Step, Life, Left, Opened, Settled, Forgotten, BufferDurability.Torn, LiveLog, BufferKey, Unsettled,
         Secured;
    var acts := [Do(Event.Add(row, "d", SMALL)), Crash({})];
    assert Life(WITNESS, FRESH, acts[..0]) == FRESH by { NoActs(); }
    KeyOfRow(row);
    SmallAdd(row, "t/a/d");
    assert Secured(WITNESS, SMALL) by { SmallIsSecured(); }
    var s1 := Step(WITNESS, FRESH.state, Event.Add(row, "d", SMALL));
    var s2 := Restarted(row, "t/a/d", s1.wal.files);
    LifeStep(WITNESS, FRESH, acts, 0);
    LifeStep(WITNESS, FRESH, acts, 1);
    NothingSettled(s1);
    NothingLost(s1);
    AllRemembered(s1, s1.wal.files.open);
    assert acts[..2] == acts;
    h := Life(WITNESS, FRESH, acts);
  }

  lemma NoActs()
    ensures Life(WITNESS, FRESH, []) == FRESH
  {
  }

  lemma KeyOfRow(row: DataRow)
    requires row.id == "a" && row.table == "t"
    ensures BufferKey(row, "t", "d") == "t/a/d"
  {
  }

  lemma SmallIsSecured()
    ensures Secured(WITNESS, SMALL)
  {
  }

  lemma AllRemembered(s: State, log: Log<Payload>)
    requires |log| == 1 && log[0].seqNum in LiveLog(log)
    ensures Forgotten(s, log) == {}
  {
    hide LiveLog;
  }

  lemma FlushedAndTruncated(s2: State, row: DataRow) returns (s3: State, s4: State, s5: State, s6: State)
    requires s2.buffer == map["t/a/d" := [row]] && s2.recoveryMaxSeq == 1
    requires s2.wal.files == Opened([[Record(1, RECORD_TYPE_DATA, 0, Row("t/a/d", row))]])
    requires Unsettled(s2) && s2.tasks.queue == s2.tasks.busy == []
    ensures s3 == Step(WITNESS, s2, Flush("t/a/d", true)) && s4 == Step(WITNESS, s3, Take)
    ensures s5 == Step(WITNESS, s4, Attempt(0, false, {})) && s6 == Step(WITNESS, s5, TruncateRecovered({}))
    ensures Unsettled(s3) && Unsettled(s4) && Unsettled(s5) && Unsettled(s6)
    ensures s6.wal.files.closed == [] && s6.wal.files.open == [] && s6.wal.files.unsynced == {}
  {
    var t := TaskOf(WITNESS, s2, "t/a/d");
    assert t.rows == [row] && t.retries == 0;
    hide Step, Elsewhere, Marked, TaskOf, Opened;
    FlushedBatch(s2, "t/a/d");
    s3 := Step(WITNESS, s2, Flush("t/a/d", true));
    TakenBatch(s3, t);
    s4 := Step(WITNESS, s3, Take);
    FailedBatch(s4, t);
    s5 := Step(WITNESS, s4, Attempt(0, false, {}));
    RecordsTruncated(s5, Record(1, RECORD_TYPE_DATA, 0, Row("t/a/d", row)));
    s6 := Step(WITNESS, s5, TruncateRecovered({}));
  }

  // Back with a lost tombstone

  const TORN := Some(Io(0, Unsynced, true))

  lemma RemovedOnly(s: State, row: DataRow, r: Record<Payload>)
    requires row.id == "a" && s.buffer == map["t/a/d" := [row]] && s.wal.files.unsynced == {} && s.wal.files.top == 1
    requires s.wal.files.closed == [] && s.wal.files.open == [r]
    ensures var t := Step(WITNESS, s, Event.Remove("t", "a", TORN));
            && t.buffer == map[] && t.wal.files.closed == [] && t.wal.files.unsynced == {2}
            && t.wal.files.open == [r, Record(2, RECORD_TYPE_TOMBSTONE, 0, Tombstone("t", "a"))]
  {
    hide Purge, Removes, RemoveRows;
    OnlyRowPurged(s.buffer, row);
    assert NoEmptyBucket(s);
    RemoveUnfolds(WITNESS, s, "t", "a", TORN);
    TornTombstone(s.wal, r);
    hide Logged, NoEmptyBucket;
  }

  lemma OnlyRowPurged(b: Buffer, row: DataRow)
    requires row.id == "a" && b == map["t/a/d" := [row]]
    ensures Purge(b, "t", "a") == map[] && Removes(b, "t", "a")
  {
    assert InTable("t/a/d", "t") by { assert "t/a/d"[..2] == "t/"; }
    assert Keep([row], "a") == [] by { assert [row][..0] == []; }
    hide InTable, Keep;
  }

  lemma TornTombstone(w: LogState, r: Record<Payload>)
    requires w.files.unsynced == {} && w.files.top == 1 && w.files.closed == [] && w.files.open == [r]
    ensures var f := Logged(WITNESS, w, RECORD_TYPE_TOMBSTONE, Tombstone("t", "a"), TORN).files;
            && f.closed == [] && f.unsynced == {2}
            && f.open == [r, Record(2, RECORD_TYPE_TOMBSTONE, 0, Tombstone("t", "a"))]
  {
  }

  lemma TombstoneTorn(f: Files<Payload>, r: Record<Payload>, tomb: Record<Payload>)
    requires f.closed == [] && f.open == [r, tomb] && f.unsynced == {2} && r.seqNum == 1 && tomb.seqNum == 2
    ensures RecordsOf(Opened(Left(f, {2}))) == [r]
  {
    assert f.open == [r] + [tomb] && {2} * f.unsynced == {2};
    WithoutConcat([r], [tomb], {2});
    WithoutNone([r], {2});
    WithoutAll([tomb], {2});
    hide Without;
    assert Left(f, {2}) == [[r]];
    OneFile([r]);
  }

  /** A removal does not wait for its tombstone to be synced: if a crash loses it, the removed row comes back. */
  lemma LostTombstoneBringsRowBack(row: DataRow)
    requires row.id == "a" && row.table == "t"
    ensures var s1 := Step(WITNESS, Start(Opened([])), Event.Add(row, "d", SMALL));
            var s2 := Step(WITNESS, s1, Event.Remove("t", "a", TORN));
            s2.buffer == map[] && Start(Opened(Left(s2.wal.files, {2}))).buffer == map["t/a/d" := [row]]
  {
    hide Step, Left, Opened, ReplayLog, RecordsOf, BufferKey, LiveLog;
    KeyOfRow(row);
    SmallAdd(row, "t/a/d");
    var s1 := Step(WITNESS, Start(Opened([])), Event.Add(row, "d", SMALL));
    var r := Record(1, RECORD_TYPE_DATA, 0, Row("t/a/d", row));
    RemovedOnly(s1, row, r);
    var s2 := Step(WITNESS, s1, Event.Remove("t", "a", TORN));
    TombstoneTorn(s2.wal.files, r, Record(2, RECORD_TYPE_TOMBSTONE, 0, Tombstone("t", "a")));
    ReplayOne([r], "t/a/d", row);
  }
}
