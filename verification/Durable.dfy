/**
 * The single-table durable buffer: points are logged, buffered, handed to a flush function and
 * then truncated from the log. A flush is split at its lock boundaries, so adds, clears and
 * crashes may fall between the buffer swap and the truncation.
 */
module Durable {
  import opened Prelude
  import opened WalCodec
  import opened Wal

  datatype Point = Point(id: string, data: seq<byte>, timestamp: int)

  /** The payload of a log record; records that do not parse are skipped by recovery. */
  datatype WalRecord = Parsed(point: Point, table: string) | Unparsable

  /** A flush between its buffer swap and its outcome. `seqs` are the log numbers of `data`. */
  datatype Flight = Flight(data: seq<Point>, seqBefore: nat, seqs: seq<nat>)

  /**
   * The manager and its log. `bufferSeqs`, `accepted`, `flushed`, `cleared` and `dropped` are history: the log
   * numbers of the buffered points, and how often callers, the store, `Clear` and crashes that lost an unsynced
   * record have seen each point.
   */
  datatype State = State(
    table: string,
    maxSize: nat,
    setup: Setup,
    wal: Files<WalRecord>,
    buffer: seq<Point>,
    lastFlushedSeq: nat,
    flight: Option<Flight>,
    bufferSeqs: seq<nat>,
    accepted: multiset<Point>,
    flushed: multiset<Point>,
    cleared: multiset<Point>,
    dropped: multiset<Point>)
  {
    function Records(): Log<WalRecord> {
      RecordsOf(wal)
    }
  }

  datatype Event =
    | Add(point: Point, at: int, io: Io)
    | BeginFlush
    | FlushFails
    | FlushDone(stuck: set<nat>)
    | Clear
    | Crash(lost: set<nat>)

  // Recovery

  /** The records recovery turns into points: data records that parse and are not of another table. */
  predicate Mine(table: string, r: Record<WalRecord>): (mine: bool)
    ensures mine ==> r.data.Parsed?
  {
    && r.kind == RECORD_TYPE_DATA
    && r.data.Parsed?
    && (table == "" || r.data.table == "" || r.data.table == table)
  }

  /** A recovered point and the number of its record. */
  datatype Entry = Entry(n: nat, point: Point)

  function Mined(table: string, log: Log<WalRecord>, above: int): seq<Entry> {
    if log == [] then []
    else
      var r := log[|log| - 1];
      Mined(table, log[..|log| - 1], above) +
      (if Mine(table, r) && r.seqNum > above then [Entry(r.seqNum, r.data.point)] else [])
  }

  function PointsOf(es: seq<Entry>): (ps: seq<Point>)
    ensures |ps| == |es|
  {
    seq(|es|, i requires 0 <= i < |es| => es[i].point)
  }

  function SeqsOf(es: seq<Entry>): (ns: seq<nat>)
    ensures |ns| == |es|
  {
    seq(|es|, i requires 0 <= i < |es| => es[i].n)
  }

  function Highest(es: seq<Entry>): nat {
    if es == [] then 0
    else
      var h, n := Highest(es[..|es| - 1]), es[|es| - 1].n;
      if n > h then n else h
  }

  /** What replaying the log would put into the buffer. */
  function Replay(table: string, log: Log<WalRecord>): seq<Point> {
    PointsOf(Mined(table, log, -1))
  }

  /** The state after opening the files found; only the history is carried over. */
  function Recovered(s: State, found: seq<Log<WalRecord>>): State {
    var mine := Mined(s.table, Concat(found), -1);
    s.(wal := Opened(found), flight := None,
       buffer := PointsOf(mine), bufferSeqs := SeqsOf(mine), lastFlushedSeq := Highest(mine))
  }

  function Blank(table: string, maxSize: nat, setup: Setup): State {
    State(table, maxSize, setup, Opened([]), [], 0, None, [], multiset{}, multiset{}, multiset{}, multiset{})
  }

  function Start(table: string, maxSize: nat, setup: Setup, found: seq<Log<WalRecord>>): State {
    Recovered(Blank(table, maxSize, setup), found)
  }

  // Steps

  ghost function Step(s: State, e: Event): State {
    match e
    case Add(p, at, io) =>
      if |s.buffer| >= s.maxSize then s
      else
        var t := s.(wal := Written(s.wal, s.setup, RECORD_TYPE_DATA, at, Parsed(p, s.table), io));
        if !Numbered(s.setup, io) then t
        else t.(buffer := s.buffer + [p], bufferSeqs := s.bufferSeqs + [t.wal.top],
                lastFlushedSeq := t.wal.top, accepted := s.accepted + multiset{p})
    case BeginFlush =>
      if s.buffer == [] || s.flight.Some? then s
      else s.(flight := Some(Flight(s.buffer, s.lastFlushedSeq, s.bufferSeqs)), buffer := [], bufferSeqs := [])
    case FlushFails =>
      if s.flight.None? then s
      else
        var f := s.flight.value;
        s.(flight := None, buffer := f.data + s.buffer, bufferSeqs := f.seqs + s.bufferSeqs,
           lastFlushedSeq := f.seqBefore)
    case FlushDone(stuck) =>
      if s.flight.None? then s
      else s.(flight := None, flushed := s.flushed + multiset(s.flight.value.data),
              wal := Truncated(s.wal, s.lastFlushedSeq, stuck))
    case Clear => s.(buffer := [], bufferSeqs := [], cleared := s.cleared + multiset(s.buffer))
    case Crash(lost) => Recovered(Torn(s, lost), Left(s.wal, lost))
  }

  /** Points in memory whose records a crash loses, because they were never synced. */
  function Torn(s: State, lost: set<nat>): State {
    s.(dropped := s.dropped + Fallen(LiveSeqs(s), Live(s), lost * s.wal.unsynced))
  }

  function Fallen(ns: seq<nat>, ps: seq<Point>, gone: set<nat>): multiset<Point> {
    if ns == [] || |ns| != |ps| then multiset{}
    else
      var k := |ns| - 1;
      Fallen(ns[..k], ps[..k], gone) + (if ns[k] in gone then multiset{ps[k]} else multiset{})
  }

  function Elements<T>(s: seq<T>): set<T> {
    set x | x in s
  }

  ghost function Run(s: State, es: seq<Event>): State {
    if es == [] then s else Step(Run(s, es[..|es| - 1]), es[|es| - 1])
  }

  // What is promised

  /**
   * Every point was flushed, cleared, dropped by a crash before its record was synced, or is in the log, together at
   * least as often as a caller was told that it is stored.
   */
  ghost predicate AtLeastOnce(s: State) {
    forall p :: s.accepted[p] <= s.flushed[p] + s.cleared[p] + s.dropped[p]
                                 + multiset(Replay(s.table, s.Records()))[p]
  }

  function Live(s: State): seq<Point> {
    (if s.flight.Some? then s.flight.value.data else []) + s.buffer
  }

  function LiveSeqs(s: State): seq<nat> {
    (if s.flight.Some? then s.flight.value.seqs else []) + s.bufferSeqs
  }

  /** The points `ps` are recorded in the log under the numbers `ns`, in the same order. */
  ghost predicate Recorded(table: string, log: Log<WalRecord>, ns: seq<nat>, ps: seq<Point>) {
    && |ns| == |ps|
    && (forall i, j | 0 <= i < j < |ns| :: ns[i] < ns[j])
    && (forall i | 0 <= i < |ns| :: Backed(table, log, ns[i], ps[i]))
  }

  ghost predicate Backed(table: string, log: Log<WalRecord>, n: nat, p: Point) {
    exists r <- log :: Mine(table, r) && r.seqNum == n && r.data.point == p
  }

  ghost predicate LiveRecorded(s: State) {
    Recorded(s.table, s.Records(), LiveSeqs(s), Live(s))
  }

  /** If every write is synced, so are the records of all points in memory, and no crash has dropped a point. */
  ghost predicate LiveSynced(s: State) {
    s.setup.syncOnWrite ==> s.dropped == multiset{} && forall n <- LiveSeqs(s) :: n !in s.wal.unsynced
  }

  ghost predicate LogSound(s: State) {
    Sound(s.wal) && s.lastFlushedSeq <= s.wal.top
  }

  ghost predicate Shape(s: State) {
    && |s.buffer| == |s.bufferSeqs|
    && (s.flight.Some? ==>
          var f := s.flight.value;
          && |f.data| == |f.seqs| && f.seqBefore <= s.wal.top
          && (forall n <- s.bufferSeqs :: f.seqBefore < n)
          && (s.buffer != [] ==> s.lastFlushedSeq == s.bufferSeqs[|s.buffer| - 1]))
  }

  ghost predicate Accounted(s: State) {
    forall p :: s.accepted[p] <= s.flushed[p] + s.cleared[p] + s.dropped[p] + multiset(Live(s))[p]
  }

  ghost predicate Inv(s: State) {
    LogSound(s) && Shape(s) && LiveRecorded(s) && LiveSynced(s) && Accounted(s)
  }

  /** A truncation that removes no file with a record still in the buffer. Other steps are unrestricted. */
  ghost predicate Harmless(s: State, e: Event) {
    e.FlushDone? && s.flight.Some? ==> !Endangered(s.wal, Elements(s.bufferSeqs), s.lastFlushedSeq, e.stuck)
  }

  ghost predicate HarmlessRun(s: State, es: seq<Event>) {
    forall i | 0 <= i < |es| :: Harmless(Run(s, es[..i]), es[i])
  }

  // Recovery establishes the invariant

  lemma {:induction false} MinedRecorded(table: string, log: Log<WalRecord>, above: int)
    requires Increasing(log)
    ensures var mine := Mined(table, log, above); Recorded(table, log, SeqsOf(mine), PointsOf(mine))
  {
    hide Mine, Increasing, Bounded, Recorded;
    if log != [] {
      var front, r := log[..|log| - 1], log[|log| - 1];
      assert log == front + [r];
      var fore, mine := Mined(table, front, above), Mined(table, log, above);
      FrontBelow(front, r);
      MinedRecorded(table, front, above);
      if mine == fore {
        RecordedInLonger(table, front, [r], SeqsOf(fore), PointsOf(fore));
      } else {
        RecordedNewest(table, front, SeqsOf(fore), PointsOf(fore), r);
        assert SeqsOf(mine) == SeqsOf(fore) + [r.seqNum] && PointsOf(mine) == PointsOf(fore) + [r.data.point];
      }
    } else {
      assert Recorded(table, [], [], []) by { NothingRecorded(table); }
    }
  }

  lemma NothingRecorded(table: string)
    ensures Recorded(table, [], [], [])
  {
  }

  lemma {:induction false} HighestBelow(es: seq<Entry>, top: nat)
    requires forall e <- es :: e.n <= top
    ensures Highest(es) <= top
  {
    if es != [] {
      HighestBelow(es[..|es| - 1], top);
    }
  }

  lemma RecordedBelow(table: string, log: Log<WalRecord>, top: nat, es: seq<Entry>)
    requires Recorded(table, log, SeqsOf(es), PointsOf(es)) && Bounded(log, top)
    ensures Highest(es) <= top
  {
    forall e | e in es ensures e.n <= top {
      var i :| 0 <= i < |es| && es[i] == e;
      assert Backed(table, log, SeqsOf(es)[i], PointsOf(es)[i]);
    }
    HighestBelow(es, top);
  }

  lemma FrontBelow(front: Log<WalRecord>, r: Record<WalRecord>)
    requires Increasing(front + [r])
    ensures Increasing(front) && Bounded(front, r.seqNum - 1)
  {
    var log := front + [r];
    assert log[|front|] == r;
    forall q | q in front ensures q.seqNum < r.seqNum {
      var i :| 0 <= i < |front| && front[i] == q;
      assert log[i] == q;
    }
    assert forall i | 0 <= i < |front| :: log[i] == front[i];
  }

  lemma MaxSeqBounds(log: Log<WalRecord>)
    ensures Bounded(log, MaxSeq(log))
  {
  }

  lemma RecoveredInv(s: State, found: seq<Log<WalRecord>>)
    requires Increasing(Concat(found)) && (s.setup.syncOnWrite ==> s.dropped == multiset{})
    requires forall p :: s.accepted[p] <= s.flushed[p] + s.cleared[p] + s.dropped[p]
                                          + multiset(Replay(s.table, Concat(found)))[p]
    ensures Inv(Recovered(s, found))
  {
    hide Increasing, Bounded, Concat, Mined, Recorded, MaxSeq, Highest, RecordsOf;
    var log, t := Concat(found), Recovered(s, found);
    var mine := Mined(s.table, log, -1);
    assert Live(t) == PointsOf(mine) && LiveSeqs(t) == SeqsOf(mine);
    OpenedSound(found);
    MaxSeqBounds(log);
    MinedRecorded(s.table, log, -1);
    RecordedBelow(s.table, log, MaxSeq(log), mine);
    assert LogSound(t) && Shape(t) by { hide Live; }
    hide Live, LiveSeqs, Shape, Sound;
  }

  // Counting points in the log

  /** With points under strictly increasing numbers, at most the last one is the last record. */
  lemma RecordedFront(table: string, front: Log<WalRecord>, r: Record<WalRecord>, ns: seq<nat>, ps: seq<Point>)
    requires Increasing(front + [r]) && Recorded(table, front + [r], ns, ps) && forall n <- ns :: n != r.seqNum
    ensures Recorded(table, front, ns, ps)
  {
    hide Mine;
    forall i | 0 <= i < |ns| ensures Backed(table, front, ns[i], ps[i]) {
      assert Backed(table, front + [r], ns[i], ps[i]);
      assert ns[i] in ns;
    }
  }

  lemma RecordedLast(table: string, front: Log<WalRecord>, r: Record<WalRecord>, ns: seq<nat>, ps: seq<Point>)
    requires Increasing(front + [r]) && Recorded(table, front + [r], ns, ps) && r.seqNum in ns
    ensures var k := |ns| - 1;
            ns[k] == r.seqNum && Mine(table, r) && ps[k] == r.data.point && Recorded(table, front, ns[..k], ps[..k])
  {
    hide Mine;
    var k := |ns| - 1;
    FrontBelow(front, r);
    forall i | 0 <= i <= k ensures ns[i] <= r.seqNum {
      assert Backed(table, front + [r], ns[i], ps[i]);
    }
    assert ns[k] == r.seqNum;
    assert Backed(table, front + [r], ns[k], ps[k]);
    assert Recorded(table, front + [r], ns[..k], ps[..k]) by { hide Backed; }
    RecordedFront(table, front, r, ns[..k], ps[..k]);
  }

  lemma MinedAppend(table: string, log: Log<WalRecord>, r: Record<WalRecord>)
    ensures Mined(table, log + [r], -1) ==
            if Mine(table, r) then Mined(table, log, -1) + [Entry(r.seqNum, r.data.point)] else Mined(table, log, -1)
  {
    hide Mine;
    assert (log + [r])[..|log|] == log;
  }

  lemma MinedWithoutNext(table: string, front: Log<WalRecord>, r: Record<WalRecord>, gone: set<nat>)
    ensures var fore := Mined(table, Without(front, gone), -1);
            Mined(table, Without(front + [r], gone), -1) ==
            if r.seqNum !in gone && Mine(table, r) then fore + [Entry(r.seqNum, r.data.point)] else fore
  {
    hide Mine, Mined;
    WithoutConcat(front, [r], gone);
    if r.seqNum in gone {
      WithoutAll([r], gone);
    } else {
      WithoutNone([r], gone);
    }
    hide Without;
    assert Without(front, gone) + [] == Without(front, gone);
    MinedAppend(table, Without(front, gone), r);
  }

  lemma CountNext(es: seq<Entry>, e: Entry, p: Point)
    ensures multiset(PointsOf(es + [e]))[p] == multiset(PointsOf(es))[p] + (if e.point == p then 1 else 0)
  {
    assert PointsOf(es + [e]) == PointsOf(es) + [e.point];
  }

  /** Points recorded in a log are mined from what is left of it, except those whose records are gone. */
  lemma {:induction false} RecordedCounts(table: string, log: Log<WalRecord>, ns: seq<nat>, ps: seq<Point>,
                                          gone: set<nat>, p: Point)
    requires Increasing(log) && Recorded(table, log, ns, ps)
    ensures multiset(ps)[p] <=
            multiset(PointsOf(Mined(table, Without(log, gone), -1)))[p] + Fallen(ns, ps, gone)[p]
  {
    if log == [] {
      NothingBacked(table, ns, ps);
    } else {
      hide Mined, Without, Mine, Recorded, Increasing, Fallen;
      var front, r := log[..|log| - 1], log[|log| - 1];
      assert log == front + [r];
      FrontBelow(front, r);
      MinedWithoutNext(table, front, r, gone);
      var fore := Mined(table, Without(front, gone), -1);
      if Mine(table, r) { CountNext(fore, Entry(r.seqNum, r.data.point), p); }
      if r.seqNum in ns {
        RecordedLast(table, front, r, ns, ps);
        var k := |ns| - 1;
        RecordedCounts(table, front, ns[..k], ps[..k], gone, p);
        LastCounts(ns, ps, gone, p);
      } else {
        RecordedFront(table, front, r, ns, ps);
        RecordedCounts(table, front, ns, ps, gone, p);
      }
    }
  }

  lemma LastCounts(ns: seq<nat>, ps: seq<Point>, gone: set<nat>, p: Point)
    requires ns != [] && |ns| == |ps|
    ensures var k := |ns| - 1;
            && multiset(ps)[p] == multiset(ps[..k])[p] + (if ps[k] == p then 1 else 0)
            && Fallen(ns, ps, gone)[p] ==
               Fallen(ns[..k], ps[..k], gone)[p] + (if ns[k] in gone && ps[k] == p then 1 else 0)
  {
    var k := |ns| - 1;
    assert ps == ps[..k] + [ps[k]];
  }

  lemma NothingBacked(table: string, ns: seq<nat>, ps: seq<Point>)
    requires Recorded(table, [], ns, ps)
    ensures ps == []
  {
    if ns != [] { NotBacked(table, ns[0], ps[0]); }
  }

  lemma NotBacked(table: string, n: nat, p: Point)
    ensures !Backed(table, [], n, p)
  {
  }

  lemma {:induction false} NothingFalls(ns: seq<nat>, ps: seq<Point>, gone: set<nat>)
    requires forall n <- ns :: n !in gone
    ensures Fallen(ns, ps, gone) == multiset{}
  {
    if ns != [] && |ns| == |ps| {
      NothingFalls(ns[..|ns| - 1], ps[..|ns| - 1], gone);
    }
  }

  // Preservation, one step at a time

  lemma BackedInLonger(table: string, log: Log<WalRecord>, more: Log<WalRecord>, n: nat, p: Point)
    requires Backed(table, log, n, p)
    ensures Backed(table, log + more, n, p)
  {
    hide Mine;
    var r :| r in log && Mine(table, r) && r.seqNum == n && r.data.point == p;
    assert r in log + more;
  }

  lemma RecordedInLonger(table: string, log: Log<WalRecord>, more: Log<WalRecord>, ns: seq<nat>, ps: seq<Point>)
    requires Recorded(table, log, ns, ps)
    ensures Recorded(table, log + more, ns, ps)
  {
    hide Backed;
    forall i | 0 <= i < |ns| ensures Backed(table, log + more, ns[i], ps[i]) {
      BackedInLonger(table, log, more, ns[i], ps[i]);
    }
  }

  lemma RecordedNewest(table: string, log: Log<WalRecord>, ns: seq<nat>, ps: seq<Point>, r: Record<WalRecord>)
    requires Bounded(log, r.seqNum - 1) && Mine(table, r) && Recorded(table, log, ns, ps)
    ensures Recorded(table, log + [r], ns + [r.seqNum], ps + [r.data.point])
  {
    RecordedInLonger(table, log, [r], ns, ps);
    assert Backed(table, log + [r], r.seqNum, r.data.point) by {
      assert r in log + [r];
    }
    forall i | 0 <= i < |ns| ensures ns[i] < r.seqNum {
      assert Backed(table, log, ns[i], ps[i]);
    }
    hide Backed;
  }

  /** Whatever else it does, an add appends at most one point to those in memory. */
  lemma AddLive(s: State, e: Event)
    requires e.Add?
    ensures var t := Step(s, e);
            var grown := |s.buffer| < s.maxSize && Numbered(s.setup, e.io);
            && Live(t) == Live(s) + (if grown then [e.point] else [])
            && LiveSeqs(t) == LiveSeqs(s) + (if grown then [s.wal.top + 1] else [])
            && t.accepted == s.accepted + (if grown then multiset{e.point} else multiset{})
            && t.flushed == s.flushed && t.cleared == s.cleared && t.dropped == s.dropped
  {
    WrittenRecords(s.wal, s.setup, RECORD_TYPE_DATA, e.at, Parsed(e.point, s.table), e.io);
    hide Written, RecordsOf;
  }

  lemma AddRecorded(s: State, e: Event)
    requires LogSound(s) && LiveRecorded(s) && e.Add?
    ensures Sound(Step(s, e).wal) && LiveRecorded(Step(s, e))
  {
    AddLive(s, e);
    hide Mined, Recorded, RecordsOf, Written, Sound, Live, LiveSeqs;
    if |s.buffer| < s.maxSize {
      var r := Record(s.wal.top + 1, RECORD_TYPE_DATA, e.at, Parsed(e.point, s.table));
      WrittenRecords(s.wal, s.setup, RECORD_TYPE_DATA, e.at, Parsed(e.point, s.table), e.io);
      WrittenSound(s.wal, s.setup, RECORD_TYPE_DATA, e.at, Parsed(e.point, s.table), e.io);
      SoundMeans(s.wal);
      assert LiveSeqs(s) + [] == LiveSeqs(s) && Live(s) + [] == Live(s);
      if Numbered(s.setup, e.io) {
        RecordedNewest(s.table, s.Records(), LiveSeqs(s), Live(s), r);
      } else {
        RecordedInLonger(s.table, s.Records(), if Taken(e.io) then [r] else [], LiveSeqs(s), Live(s));
      }
    } else {
      assert LiveSeqs(s) + [] == LiveSeqs(s) && Live(s) + [] == Live(s);
    }
  }

  lemma AddSynced(s: State, e: Event)
    requires LogSound(s) && LiveRecorded(s) && LiveSynced(s) && e.Add?
    ensures LiveSynced(Step(s, e))
  {
    AddLive(s, e);
    BackedBelow(s);
    WrittenRecords(s.wal, s.setup, RECORD_TYPE_DATA, e.at, Parsed(e.point, s.table), e.io);
    hide Recorded, RecordsOf, Written, Sound, Live, LiveSeqs;
  }

  lemma AddShape(s: State, e: Event)
    requires LogSound(s) && Shape(s) && e.Add?
    ensures Shape(Step(s, e)) && Step(s, e).lastFlushedSeq <= Step(s, e).wal.top
  {
    WrittenRecords(s.wal, s.setup, RECORD_TYPE_DATA, e.at, Parsed(e.point, s.table), e.io);
    hide Written, RecordsOf, Sound;
  }

  lemma AddAccounted(s: State, e: Event)
    requires Accounted(s) && e.Add?
    ensures Accounted(Step(s, e))
  {
    AddLive(s, e);
    hide Step, Live, LiveSeqs;
  }

  lemma AddInv(s: State, e: Event)
    requires Inv(s) && e.Add?
    ensures Inv(Step(s, e))
  {
    hide Step, Shape, LiveRecorded, LiveSynced, Accounted, Sound;
    AddRecorded(s, e);
    AddSynced(s, e);
    AddShape(s, e);
    AddAccounted(s, e);
  }

  /** Steps that move points between the buffer and a flight. */
  lemma FlushStepsInv(s: State, e: Event)
    requires Inv(s) && (e.BeginFlush? || e.FlushFails?)
    ensures Inv(Step(s, e))
  {
    FlushStepsShape(s, e);
    FlushStepsLive(s, e);
    hide *;
    SameLive(s, Step(s, e));
    InvParts(Step(s, e));
  }

  lemma FlushStepsShape(s: State, e: Event)
    requires Inv(s) && (e.BeginFlush? || e.FlushFails?)
    ensures LogSound(Step(s, e)) && Shape(Step(s, e))
  {
    BackedBelow(s);
    BufferIsLive(s);
    hide LiveRecorded, LiveSynced, Accounted, Sound;
  }

  /** Without a flight the numbers in memory are the buffer's. */
  lemma BufferIsLive(s: State)
    requires Shape(s) && LiveRecorded(s)
    ensures s.flight.None? ==> forall n <- s.bufferSeqs :: n in LiveSeqs(s)
  {
    hide Recorded;
  }

  lemma FlushStepsLive(s: State, e: Event)
    requires Shape(s) && (e.BeginFlush? || e.FlushFails?)
    ensures var t := Step(s, e);
            && Live(t) == Live(s) && LiveSeqs(t) == LiveSeqs(s)
            && t.wal == s.wal && t.table == s.table && t.setup == s.setup && t.accepted == s.accepted
            && t.flushed == s.flushed && t.cleared == s.cleared && t.dropped == s.dropped
  {
  }

  lemma SameLive(s: State, t: State)
    requires Inv(s) && Live(t) == Live(s) && LiveSeqs(t) == LiveSeqs(s)
    requires t.wal == s.wal && t.table == s.table && t.setup == s.setup && t.accepted == s.accepted
    requires t.flushed == s.flushed && t.cleared == s.cleared && t.dropped == s.dropped
    ensures LiveRecorded(t) && LiveSynced(t) && Accounted(t)
  {
    hide Live, LiveSeqs, Recorded;
  }

  lemma InvParts(s: State)
    requires LogSound(s) && Shape(s) && LiveRecorded(s) && LiveSynced(s) && Accounted(s)
    ensures Inv(s)
  {
  }

  lemma BackedBelow(s: State)
    requires LiveRecorded(s) && LogSound(s)
    ensures forall n <- LiveSeqs(s) :: n <= s.wal.top
  {
    forall n | n in LiveSeqs(s) ensures n <= s.wal.top {
      var i :| 0 <= i < |LiveSeqs(s)| && LiveSeqs(s)[i] == n;
      assert Backed(s.table, s.Records(), n, Live(s)[i]);
    }
  }

  lemma RecordedSlice(table: string, log: Log<WalRecord>, ns: seq<nat>, ps: seq<Point>, k: nat)
    requires Recorded(table, log, ns, ps) && k <= |ns|
    ensures Recorded(table, log, ns[k..], ps[k..]) && Recorded(table, log, ns[..k], ps[..k])
  {
    hide Backed;
  }

  lemma RecordedWithout(table: string, log: Log<WalRecord>, ns: seq<nat>, ps: seq<Point>, removed: set<nat>)
    requires Recorded(table, log, ns, ps) && forall n <- ns :: n !in removed
    ensures Recorded(table, Without(log, removed), ns, ps)
  {
    forall i | 0 <= i < |ns| ensures Backed(table, Without(log, removed), ns[i], ps[i]) {
      assert Backed(table, log, ns[i], ps[i]);
      var r :| r in log && Mine(table, r) && r.seqNum == ns[i] && r.data.point == ps[i];
      WithoutKeeps(log, removed, r);
    }
    hide Backed;
  }

  lemma ClearInv(s: State)
    requires Inv(s)
    ensures Inv(Step(s, Clear))
  {
    var t := Step(s, Clear);
    var k := |Live(s)| - |s.buffer|;
    ClearShape(s);
    ClearLive(s);
    assert t.wal == s.wal && t.table == s.table && t.setup == s.setup && t.accepted == s.accepted;
    assert t.flushed == s.flushed && t.dropped == s.dropped && t.cleared == s.cleared + multiset(s.buffer);
    hide *;
    ClearParts(s, t, k);
    InvParts(t);
  }

  lemma ClearParts(s: State, t: State, k: nat)
    requires Inv(s) && k <= |Live(s)| == |LiveSeqs(s)|
    requires Live(t) == Live(s)[..k] && LiveSeqs(t) == LiveSeqs(s)[..k] && Live(s) == Live(t) + s.buffer
    requires t.wal == s.wal && t.table == s.table && t.setup == s.setup && t.accepted == s.accepted
    requires t.flushed == s.flushed && t.dropped == s.dropped && t.cleared == s.cleared + multiset(s.buffer)
    ensures LiveRecorded(t) && LiveSynced(t) && Accounted(t)
  {
    hide Live, LiveSeqs, Recorded, Shape, LogSound;
    RecordedSlice(s.table, s.Records(), LiveSeqs(s), Live(s), k);
    ClearAccounted(s, t);
    hide Accounted;
    assert forall n <- LiveSeqs(t) :: n in LiveSeqs(s);
  }

  lemma ClearLive(s: State)
    requires |s.buffer| == |s.bufferSeqs|
    requires s.flight.Some? ==> |s.flight.value.data| == |s.flight.value.seqs|
    ensures var t, k := Step(s, Clear), |Live(s)| - |s.buffer|;
            && 0 <= k && |Live(s)| == |LiveSeqs(s)|
            && Live(t) == Live(s)[..k] && LiveSeqs(t) == LiveSeqs(s)[..k] && Live(s) == Live(t) + s.buffer
  {
    if s.flight.Some? {
      Front(s.flight.value.data, s.buffer);
      Front(s.flight.value.seqs, s.bufferSeqs);
    } else {
      Front([], s.buffer);
      Front([], s.bufferSeqs);
    }
  }

  lemma Front<T>(a: seq<T>, b: seq<T>)
    ensures (a + b)[..|a|] == a && a + [] == a
  {
  }

  lemma ClearShape(s: State)
    requires LogSound(s) && Shape(s)
    ensures LogSound(Step(s, Clear)) && Shape(Step(s, Clear))
  {
    hide Sound;
  }

  lemma ClearAccounted(s: State, t: State)
    requires Accounted(s) && Live(s) == Live(t) + s.buffer && t.cleared == s.cleared + multiset(s.buffer)
    requires t.accepted == s.accepted && t.flushed == s.flushed && t.dropped == s.dropped
    ensures Accounted(t)
  {
    hide Live;
  }

  lemma HarmlessMeans(s: State, e: Event)
    requires e.FlushDone? && s.flight.Some? && Harmless(s, e)
    ensures forall n <- s.bufferSeqs :: n !in Removed(s.wal, s.lastFlushedSeq, e.stuck)
  {
    EndangeredIff(s.wal, Elements(s.bufferSeqs), s.lastFlushedSeq, e.stuck);
    hide Endangered, Removed;
    assert forall n <- s.bufferSeqs :: n in Elements(s.bufferSeqs);
  }

  lemma FlushDoneInv(s: State, e: Event)
    requires Inv(s) && e.FlushDone? && Harmless(s, e)
    ensures Inv(Step(s, e))
  {
    hide Recorded, Without, Sound, RecordsOf, Removed, Truncated;
    var t := Step(s, e);
    if s.flight.Some? {
      var removed := Removed(s.wal, s.lastFlushedSeq, e.stuck);
      var k := |s.flight.value.data|;
      TruncatedRecords(s.wal, s.lastFlushedSeq, e.stuck);
      TruncatedNumbers(s.wal, s.lastFlushedSeq, e.stuck);
      HarmlessMeans(s, e);
      hide Harmless, Elements;
      RecordedSlice(s.table, s.Records(), LiveSeqs(s), Live(s), k);
      assert Live(t) == Live(s)[k..] && LiveSeqs(t) == LiveSeqs(s)[k..];
      RecordedWithout(s.table, s.Records(), s.bufferSeqs, s.buffer, removed);
    }
  }

  lemma TruncatedNumbers(f: Files<WalRecord>, before: nat, stuck: set<nat>)
    ensures Truncated(f, before, stuck).top == f.top && Truncated(f, before, stuck).unsynced == f.unsynced
  {
  }

  lemma CrashInv(s: State, e: Event)
    requires Inv(s) && e.Crash?
    ensures Inv(Step(s, e))
  {
    hide Without, Sound, RecordsOf, Left, Concat, Fallen, Increasing, Mined, Recorded, Bounded, Shape, Live, LiveSeqs,
         Recovered;
    var gone, t := e.lost * s.wal.unsynced, Torn(s, e.lost);
    LeftRecords(s.wal, e.lost);
    SoundMeans(s.wal);
    forall p
      ensures t.accepted[p] <= t.flushed[p] + t.cleared[p] + t.dropped[p]
                               + multiset(Replay(t.table, Concat(Left(s.wal, e.lost))))[p]
    {
      RecordedCounts(s.table, s.Records(), LiveSeqs(s), Live(s), gone, p);
    }
    if s.setup.syncOnWrite {
      NothingFalls(LiveSeqs(s), Live(s), gone);
    }
    RecoveredInv(t, Left(s.wal, e.lost));
  }

  lemma StepInv(s: State, e: Event)
    requires Inv(s) && Harmless(s, e)
    ensures Inv(Step(s, e))
  {
    hide Inv, Step;
    match e
    case Add(_, _, _) => AddInv(s, e);
    case BeginFlush => FlushStepsInv(s, e);
    case FlushFails => FlushStepsInv(s, e);
    case FlushDone(_) => FlushDoneInv(s, e);
    case Clear => ClearInv(s);
    case Crash(_) => CrashInv(s, e);
  }

  lemma {:induction false} RunInv(s: State, es: seq<Event>)
    requires Inv(s) && HarmlessRun(s, es)
    ensures Inv(Run(s, es))
  {
    hide Inv, Step, Harmless;
    if es != [] {
      var k := |es| - 1;
      forall i | 0 <= i < k ensures Harmless(Run(s, es[..k][..i]), es[..k][i]) {
        assert es[..k][..i] == es[..i];
        assert Harmless(Run(s, es[..i]), es[i]);
      }
      RunInv(s, es[..k]);
      assert Harmless(Run(s, es[..k]), es[k]);
      StepInv(Run(s, es[..k]), es[k]);
    }
  }

  // Main results

  /** The end of a successful flush finds the buffer empty: nothing was added since the swap. */
  predicate Quiet(s: State, e: Event) {
    e.FlushDone? && s.flight.Some? ==> s.buffer == []
  }

  ghost predicate QuietRun(s: State, es: seq<Event>) {
    forall i | 0 <= i < |es| :: Quiet(Run(s, es[..i]), es[i])
  }

  lemma {:induction false} QuietIsHarmless(s: State, es: seq<Event>)
    requires Inv(s) && QuietRun(s, es)
    ensures HarmlessRun(s, es)
  {
    hide Inv, Step, Removed;
    if es != [] {
      var k := |es| - 1;
      assert forall i | 0 <= i < k :: es[..k][..i] == es[..i] && es[..k][i] == es[i];
      QuietIsHarmless(s, es[..k]);
      RunInv(s, es[..k]);
      var t := Run(s, es[..k]);
      assert Quiet(t, es[k]);
      assert t.buffer == [] ==> t.bufferSeqs == [] by { ShapeOf(t); }
      assert t.bufferSeqs == [] ==> Harmless(t, es[k]) by {
        assert t.bufferSeqs == [] ==> Elements(t.bufferSeqs) == {};
      }
      forall i | 0 <= i < |es| ensures Harmless(Run(s, es[..i]), es[i]) {
        if i < k { assert Harmless(Run(s, es[..k][..i]), es[..k][i]); }
      }
    }
  }

  lemma ShapeOf(s: State)
    requires Inv(s)
    ensures Shape(s)
  {
  }

  /**
   * At least once, under crashes at any step, from any log, along every run in which no add falls between the
   * buffer swap and the truncation of a successful flush: each point was flushed or cleared, dropped by a crash
   * before its record was synced, or is in the log, together at least as often as it was accepted; what is in memory
   * is recorded in the log in order; and if every write is synced, so are those records, and no point was dropped.
   */
  lemma AcceptedPointsSurvive(table: string, maxSize: nat, setup: Setup, found: seq<Log<WalRecord>>, es: seq<Event>)
    requires Increasing(Concat(found)) && QuietRun(Start(table, maxSize, setup, found), es)
    ensures var s := Run(Start(table, maxSize, setup, found), es); AtLeastOnce(s) && LiveRecorded(s) && LiveSynced(s)
  {
    RecoveredInv(Blank(table, maxSize, setup), found);
    QuietIsHarmless(Start(table, maxSize, setup, found), es);
    HarmlessRunsKeepPoints(table, maxSize, setup, found, es);
  }

  /** The same along every run whose truncations take no file that holds a buffered record. */
  lemma HarmlessRunsKeepPoints(table: string, maxSize: nat, setup: Setup, found: seq<Log<WalRecord>>,
                               es: seq<Event>)
    requires Increasing(Concat(found)) && HarmlessRun(Start(table, maxSize, setup, found), es)
    ensures var s := Run(Start(table, maxSize, setup, found), es); AtLeastOnce(s) && LiveRecorded(s) && LiveSynced(s)
  {
    RecoveredInv(Blank(table, maxSize, setup), found);
    RunInv(Start(table, maxSize, setup, found), es);
    var s := Run(Start(table, maxSize, setup, found), es);
    hide Run, Start, Recorded, Mine, RecordsOf, Mined;
    SoundMeans(s.wal);
    forall p ensures multiset(Live(s))[p] <= multiset(Replay(s.table, s.Records()))[p] {
      LiveCounts(s, p);
    }
  }

  lemma LiveCounts(s: State, p: Point)
    requires LiveRecorded(s) && Increasing(s.Records())
    ensures multiset(Live(s))[p] <= multiset(Replay(s.table, s.Records()))[p]
  {
    hide RecordsOf, Recorded, Mined, Increasing;
    RecordedCounts(s.table, s.Records(), LiveSeqs(s), Live(s), {}, p);
    NothingFalls(LiveSeqs(s), Live(s), {});
    WithoutNone(s.Records(), {});
  }

  /** A crash drops a point only if its record was never synced. */
  lemma DroppedWereUnsynced(s: State, lost: set<nat>, p: Point)
    requires |Live(s)| == |LiveSeqs(s)| && Step(s, Crash(lost)).dropped[p] > s.dropped[p]
    ensures exists i | 0 <= i < |Live(s)| ::
              Live(s)[i] == p && LiveSeqs(s)[i] in lost && LiveSeqs(s)[i] in s.wal.unsynced
  {
    FallenAre(LiveSeqs(s), Live(s), lost * s.wal.unsynced, p);
  }

  lemma {:induction false} FallenAre(ns: seq<nat>, ps: seq<Point>, gone: set<nat>, p: Point)
    requires |ns| == |ps| && Fallen(ns, ps, gone)[p] > 0
    ensures exists i | 0 <= i < |ns| :: ps[i] == p && ns[i] in gone
  {
    var k := |ns| - 1;
    if !(ps[k] == p && ns[k] in gone) {
      FallenAre(ns[..k], ps[..k], gone, p);
    }
  }

  /** Without a sync on every write: a point is accepted, and a crash drops it. */
  lemma UnsyncedPointCanBeLost(p: Point)
    ensures var s := Step(Start("t", 10, Setup(DEFAULT_FILE_SIZE, false), []), Add(p, 0, Io(0, Unsynced, true)));
            p in s.accepted && p in Step(s, Crash({1})).dropped && Step(s, Crash({1})).buffer == []
  {
    var s := UnsyncedAdd(p);
    hide Start;
    OnlyRecordTorn(s, p);
  }

  lemma UnsyncedAdd(p: Point) returns (s: State)
    ensures s == Step(Start("t", 10, Setup(DEFAULT_FILE_SIZE, false), []), Add(p, 0, Io(0, Unsynced, true)))
    ensures s.accepted == multiset{p} && Live(s) == [p] && LiveSeqs(s) == [1] && s.wal.unsynced == {1}
    ensures s.wal.closed == [] && s.wal.open == [Record(1, RECORD_TYPE_DATA, 0, Parsed(p, "t"))]
  {
    var start := EmptyStart(Setup(DEFAULT_FILE_SIZE, false));
    hide Start;
    s := Step(start, Add(p, 0, Io(0, Unsynced, true)));
  }

  lemma EmptyStart(setup: Setup) returns (s: State)
    ensures s == Start("t", 10, setup, [])
    ensures s == State("t", 10, setup, Files([], [], FILE_HEADER_SIZE, 0, {}),
                       [], 0, None, [], multiset{}, multiset{}, multiset{}, multiset{})
  {
    s := Start("t", 10, setup, []);
  }

  lemma OnlyRecordTorn(s: State, p: Point)
    requires s.wal.closed == [] && |s.wal.open| == 1 && s.wal.open[0].seqNum == 1 && s.wal.unsynced == {1}
    requires Live(s) == [p] && LiveSeqs(s) == [1]
    ensures p in Step(s, Crash({1})).dropped && Step(s, Crash({1})).buffer == []
  {
    assert {1} * s.wal.unsynced == {1};
    WithoutAll(s.wal.open, {1});
    hide Without;
    EmptyLog();
    assert Left(s.wal, {1}) == [[]];
    assert [1][..0] == [] && [p][..0] == [];
    assert Fallen([1], [p], {1}) == Fallen([], [], {1}) + multiset{p};
  }

  lemma EmptyLog()
    ensures Concat<Record<WalRecord>>([[]]) == []
  {
    var found: seq<Log<WalRecord>> := [[]];
    assert found[..0] == [];
  }

  /**
   * The code truncates at the current number. The buffered records survive the end of a flush exactly if none of
   * them lies in a closed file whose records are all numbered at most that number and that can be removed.
   */
  lemma TruncationKeepsBufferedIff(s: State, stuck: set<nat>)
    requires Inv(s) && s.flight.Some?
    ensures LiveRecorded(Step(s, FlushDone(stuck)))
            <==> !Endangered(s.wal, Elements(s.bufferSeqs), s.lastFlushedSeq, stuck)
  {
    EndangeredIff(s.wal, Elements(s.bufferSeqs), s.lastFlushedSeq, stuck);
    hide Endangered, Removed, RecordsOf, Truncated, Sound;
    var t := Step(s, FlushDone(stuck));
    var removed := Removed(s.wal, s.lastFlushedSeq, stuck);
    if !Endangered(s.wal, Elements(s.bufferSeqs), s.lastFlushedSeq, stuck) {
      FlushDoneInv(s, FlushDone(stuck));
    } else if LiveRecorded(t) {
      var n :| n in Elements(s.bufferSeqs) && n in removed;
      var k :| 0 <= k < |s.bufferSeqs| && s.bufferSeqs[k] == n;
      assert LiveSeqs(t)[k] == n;
      assert Backed(t.table, t.Records(), LiveSeqs(t)[k], Live(t)[k]);
      var r :| r in t.Records() && r.seqNum == n;
      TruncatedRecords(s.wal, s.lastFlushedSeq, stuck);
      WithoutKeeps(s.Records(), removed, r);
      assert false;
    }
  }

  /** As long as the buffered records are in the open file, nothing buffered is in danger. */
  lemma OpenFileIsSafe(s: State, stuck: set<nat>)
    requires Inv(s) && forall n <- s.bufferSeqs :: exists r <- s.wal.open :: r.seqNum == n
    ensures Harmless(s, FlushDone(stuck))
  {
    hide RecordsOf, Removed, Endangered;
    TruncatedRecords(s.wal, s.lastFlushedSeq, stuck);
    EndangeredIff(s.wal, Elements(s.bufferSeqs), s.lastFlushedSeq, stuck);
  }

  /** Truncating at the number saved before the swap would always keep them. */
  lemma TruncatingAtSavedNumberIsHarmless(s: State, stuck: set<nat>)
    requires Inv(s) && s.flight.Some?
    ensures !Endangered(s.wal, Elements(s.bufferSeqs), s.flight.value.seqBefore, stuck)
  {
    hide Removed, RecordsOf, Endangered;
    TruncatedRecords(s.wal, s.flight.value.seqBefore, stuck);
    EndangeredIff(s.wal, Elements(s.bufferSeqs), s.flight.value.seqBefore, stuck);
  }

  const DEFAULT_FILE_SIZE := 64 * 1024 * 1024

  /**
   * With files of the default size, a run that loses an accepted point: add a point that fills its file, swap, add
   * another such point, finish the flush of the first, crash.
   */
  lemma AddDuringFlushCanBeLost(a: Point, b: Point)
    requires a != b
    ensures var s1 := Step(Start("t", 10, Setup(DEFAULT_FILE_SIZE, true), []), Add(a, 0, FULL));
            var s2 := Step(Step(s1, BeginFlush), Add(b, 0, FULL));
            var s := Step(Step(s2, FlushDone({})), Crash({}));
            && b in s.accepted && b !in s.dropped && b !in s.flushed && b !in s.cleared
            && b !in Replay(s.table, s.Records()) && s.buffer == []
  {
    hide Recovered, Start, Step;
    AddDuringFlush(a, b);
    var s1 := Step(Start("t", 10, Setup(DEFAULT_FILE_SIZE, true), []), Add(a, 0, FULL));
    var s2 := Step(Step(s1, BeginFlush), Add(b, 0, FULL));
    FlushRemovesAll(s2);
    CrashWithEmptyLog(Step(s2, FlushDone({})));
  }

  const FULL := Io(MAX_RECORD_SIZE, Stored, true)

  /** Adding a point that fills a file of the default size. */
  lemma FullAdd(s: State, p: Point, at: int)
    requires |s.buffer| < s.maxSize && s.wal.open == [] && s.wal.unsynced == {}
    requires s.setup == Setup(DEFAULT_FILE_SIZE, true)
    ensures var n := s.wal.top + 1;
            var r := Record(n, RECORD_TYPE_DATA, at, Parsed(p, s.table));
            Step(s, Add(p, at, FULL)) ==
            s.(wal := Files(s.wal.closed + [[r]], [], FILE_HEADER_SIZE, n, {}), buffer := s.buffer + [p],
               bufferSeqs := s.bufferSeqs + [n], lastFlushedSeq := n, accepted := s.accepted + multiset{p})
  {
    var r := Record(s.wal.top + 1, RECORD_TYPE_DATA, at, Parsed(p, s.table));
    assert [] + [r] == [r];
    assert s.wal.unsynced - Seqs([r]) == {};
  }

  lemma AddDuringFlush(a: Point, b: Point)
    ensures var s1 := Step(Start("t", 10, Setup(DEFAULT_FILE_SIZE, true), []), Add(a, 0, FULL));
            var s2 := Step(Step(s1, BeginFlush), Add(b, 0, FULL));
            var ra, rb := Record(1, RECORD_TYPE_DATA, 0, Parsed(a, "t")),
                          Record(2, RECORD_TYPE_DATA, 0, Parsed(b, "t"));
            s2 == State("t", 10, Setup(DEFAULT_FILE_SIZE, true), Files([[ra], [rb]], [], FILE_HEADER_SIZE, 2, {}),
                        [b], 2, Some(Flight([a], 1, [1])), [2], multiset{a, b}, multiset{}, multiset{}, multiset{})
  {
    hide Start, Step;
    var start := EmptyStart(Setup(DEFAULT_FILE_SIZE, true));
    FullAdd(start, a, 0);
    var s1 := Step(start, Add(a, 0, FULL));
    assert s1.buffer == [a] && s1.bufferSeqs == [1];
    Swapped(s1);
    FullAdd(Step(s1, BeginFlush), b, 0);
    var ra, rb := Record(1, RECORD_TYPE_DATA, 0, Parsed(a, "t")), Record(2, RECORD_TYPE_DATA, 0, Parsed(b, "t"));
    assert [[ra]] + [[rb]] == [[ra], [rb]];
  }

  lemma Swapped(s: State)
    requires s.buffer != [] && s.flight.None?
    ensures Step(s, BeginFlush) ==
            s.(flight := Some(Flight(s.buffer, s.lastFlushedSeq, s.bufferSeqs)), buffer := [], bufferSeqs := [])
  {
  }

  lemma FlushRemovesAll(s: State)
    requires s.flight.Some? && s.wal.open == [] && |s.wal.closed| == 2
    requires forall f <- s.wal.closed :: MaxSeq(f) <= s.lastFlushedSeq
    ensures Step(s, FlushDone({})) ==
            s.(flight := None, wal := s.wal.(closed := []), flushed := s.flushed + multiset(s.flight.value.data))
  {
    hide MaxSeq;
    assert Goes(s.wal.closed, 0, s.lastFlushedSeq, {}) && Goes(s.wal.closed, 1, s.lastFlushedSeq, {});
    assert Kept(s.wal.closed, 0, s.lastFlushedSeq, {}) == [];
    assert Kept(s.wal.closed, 1, s.lastFlushedSeq, {}) == [];
  }

  lemma CrashWithEmptyLog(s: State)
    requires s.wal.open == [] && s.wal.closed == []
    ensures var t := Step(s, Crash({}));
            && t.accepted == s.accepted && t.flushed == s.flushed && t.cleared == s.cleared && t.dropped == s.dropped
            && t.buffer == [] && Replay(t.table, t.Records()) == []
  {
    NothingFalls(LiveSeqs(s), Live(s), {} * s.wal.unsynced);
    hide Fallen, LiveSeqs, Live;
    assert Left(s.wal, {}) == [[]];
    EmptyLog();
  }

  // The buffer as a suffix of the log

  /** What is in memory is exactly what replay would deliver from some number on. */
  ghost predicate Tail(s: State, above: int) {
    -1 <= above <= s.wal.top && Live(s) == PointsOf(Mined(s.table, s.Records(), above))
  }

  /**
   * Steps that keep the tail: no append that fails after it was taken, no clear during a flush, no add before its
   * truncation.
   */
  predicate Tidy(s: State, e: Event) {
    && !(e.Add? && Taken(e.io) && !Numbered(s.setup, e.io))
    && (e.Clear? ==> s.flight.None?)
    && (e.FlushDone? && s.flight.Some? ==> s.buffer == [])
  }

  ghost predicate TidyRun(s: State, es: seq<Event>) {
    forall i | 0 <= i < |es| :: Tidy(Run(s, es[..i]), es[i])
  }

  lemma {:induction false} NothingAbove(table: string, log: Log<WalRecord>, top: nat)
    requires Bounded(log, top)
    ensures Mined(table, log, top) == []
  {
    if log != [] {
      assert log[|log| - 1] in log;
      NothingAbove(table, log[..|log| - 1], top);
    }
  }

  lemma TidyIsHarmless(s: State, e: Event)
    requires Inv(s) && Tidy(s, e)
    ensures Harmless(s, e)
  {
    hide LogSound, LiveRecorded, Accounted, Goes;
    assert s.bufferSeqs == [] ==> Elements(s.bufferSeqs) == {};
  }

  lemma TidyStep(s: State, e: Event, above: int) returns (above': int)
    requires Inv(s) && Tail(s, above) && Tidy(s, e)
    ensures Inv(Step(s, e)) && Tail(Step(s, e), above')
  {
    hide Inv, RecordsOf, Mined, Highest, MaxSeq, Elements, Truncated, Written, Bounded;
    TidyIsHarmless(s, e);
    StepInv(s, e);
    var t := Step(s, e);
    InvBounds(t);
    above' := above;
    match e
    case Add(_, _, _) =>
      TidyAdd(s, e, above);
    case Crash(lost) =>
      above' := -1;
      CrashTail(s, lost);
    case BeginFlush =>
      assert Live(t) == Live(s);
    case FlushFails =>
      assert Live(t) == Live(s);
    case Clear =>
      above' := t.wal.top;
      NothingAbove(t.table, t.Records(), above');
    case FlushDone(_) =>
      if s.flight.Some? {
        above' := t.wal.top;
        NothingAbove(t.table, t.Records(), above');
      }
  }

  lemma InvBounds(s: State)
    requires Inv(s)
    ensures Bounded(s.Records(), s.wal.top)
  {
  }

  lemma CrashTail(s: State, lost: set<nat>)
    ensures Tail(Step(s, Crash(lost)), -1)
  {
    hide Mined, Highest, MaxSeq, Left, Concat;
    var found := Left(s.wal, lost);
    assert Concat(found) + [] == Concat(found);
  }

  lemma TidyAdd(s: State, e: Event, above: int)
    requires e.Add? && Tail(s, above) && Tidy(s, e)
    ensures Tail(Step(s, e), above)
  {
    hide RecordsOf;
    var t := Step(s, e);
    if |s.buffer| < s.maxSize && Numbered(s.setup, e.io) {
      var r := Record(s.wal.top + 1, RECORD_TYPE_DATA, e.at, Parsed(e.point, s.table));
      WrittenRecords(s.wal, s.setup, RECORD_TYPE_DATA, e.at, Parsed(e.point, s.table), e.io);
      assert t.Records() == s.Records() + [r];
      assert (s.Records() + [r])[..|s.Records()|] == s.Records();
      assert Live(t) == Live(s) + [e.point];
    }
  }

  lemma {:induction false} TidyRunTail(s: State, es: seq<Event>, above: int) returns (above': int)
    requires Inv(s) && Tail(s, above) && TidyRun(s, es)
    ensures Inv(Run(s, es)) && Tail(Run(s, es), above')
  {
    hide Inv, Tail, Step, Tidy;
    above' := above;
    if es != [] {
      var k := |es| - 1;
      forall i | 0 <= i < k ensures Tidy(Run(s, es[..k][..i]), es[..k][i]) {
        assert es[..k][..i] == es[..i];
        assert Tidy(Run(s, es[..i]), es[i]);
      }
      above' := TidyRunTail(s, es[..k], above);
      assert Tidy(Run(s, es[..k]), es[k]);
      above' := TidyStep(Run(s, es[..k]), es[k], above');
    }
  }

  lemma {:induction false} MinedSuffix(table: string, log: Log<WalRecord>, above: int)
    requires Increasing(log) && above >= -1
    ensures IsSuffix(Mined(table, log, above), Mined(table, log, -1))
  {
    if log != [] {
      var front, r := log[..|log| - 1], log[|log| - 1];
      MinedSuffix(table, front, above);
      if r.seqNum <= above {
        LastIsTop(log);
        NothingAbove(table, log, above);
      }
    }
  }

  lemma LastIsTop(log: Log<WalRecord>)
    requires Increasing(log) && log != []
    ensures Bounded(log, log[|log| - 1].seqNum)
  {
  }

  ghost predicate IsSuffix<T>(a: seq<T>, b: seq<T>) {
    |a| <= |b| && b[|b| - |a|..] == a
  }

  lemma SuffixTransitive<T>(a: seq<T>, b: seq<T>, c: seq<T>)
    requires IsSuffix(a, b) && IsSuffix(b, c)
    ensures IsSuffix(a, c)
  {
  }

  lemma PointsSuffix(some: seq<Entry>, all: seq<Entry>)
    requires IsSuffix(some, all)
    ensures IsSuffix(PointsOf(some), PointsOf(all))
  {
    var k := |all| - |some|;
    forall i | 0 <= i < |some| ensures PointsOf(all)[k..][i] == PointsOf(some)[i] {
      assert all[k..][i] == some[i];
    }
  }

  lemma TailIsSuffix(s: State, above: int)
    requires Increasing(s.Records()) && Tail(s, above)
    ensures IsSuffix(s.buffer, Replay(s.table, s.Records()))
  {
    MinedSuffix(s.table, s.Records(), above);
    hide Mined, Increasing;
    PointsSuffix(Mined(s.table, s.Records(), above), Mined(s.table, s.Records(), -1));
    assert IsSuffix(s.buffer, Live(s));
    hide IsSuffix;
    SuffixTransitive(s.buffer, Live(s), Replay(s.table, s.Records()));
  }

  /** Along every tidy run the buffer is a suffix of what replaying the log would deliver. */
  lemma BufferIsReplaySuffix(table: string, maxSize: nat, setup: Setup, found: seq<Log<WalRecord>>, es: seq<Event>)
    requires Increasing(Concat(found)) && TidyRun(Start(table, maxSize, setup, found), es)
    ensures var s := Run(Start(table, maxSize, setup, found), es);
            IsSuffix(s.buffer, Replay(s.table, s.Records()))
  {
    RecoveredInv(Blank(table, maxSize, setup), found);
    OpenedSound(found);
    hide Run, MaxSeq, Highest, Mined, TidyRun, LiveRecorded, Replay, RecordsOf, Sound, Concat;
    var start := Start(table, maxSize, setup, found);
    assert Tail(start, -1);
    var above := TidyRunTail(start, es, -1);
    assert Increasing(Run(start, es).Records()) by { SoundMeans(Run(start, es).wal); }
    TailIsSuffix(Run(start, es), above);
  }

  lemma SoundMeans(f: Files<WalRecord>)
    requires Sound(f)
    ensures Increasing(RecordsOf(f)) && Bounded(RecordsOf(f), f.top)
  {
  }

  lemma NothingMined(table: string)
    ensures Mined(table, [], -1) == [] && Highest([]) == 0
  {
  }

  lemma MinedNext(table: string, rs: Log<WalRecord>, i: nat)
    requires i < |rs|
    ensures var fore, next := Mined(table, rs[..i], -1), Mined(table, rs[..i + 1], -1);
            var n := rs[i].seqNum;
            if Mine(table, rs[i]) then
              && PointsOf(next) == PointsOf(fore) + [rs[i].data.point]
              && SeqsOf(next) == SeqsOf(fore) + [n]
              && Highest(next) == (if n > Highest(fore) then n else Highest(fore))
            else next == fore
  {
    assert rs[..i + 1][..i] == rs[..i];
    var fore, next := Mined(table, rs[..i], -1), Mined(table, rs[..i + 1], -1);
    if Mine(table, rs[i]) {
      assert next[..|fore|] == fore;
    }
  }

  // What recovery and a flush achieve

  /** A data record that parses and names this table or none, and what it is recovered as. */
  ghost predicate Gives(table: string, r: Record<WalRecord>, e: Entry) {
    && r.kind == 1 && r.data.Parsed? && (table == "" || r.data.table == "" || r.data.table == table)
    && e == Entry(r.seqNum, r.data.point)
  }

  /** Recovery takes exactly such records. */
  lemma {:induction false} RecoversExactly(table: string, log: Log<WalRecord>, e: Entry)
    ensures e in Mined(table, log, -1) <==> exists r <- log :: Gives(table, r, e)
  {
    if log != [] {
      var front, r := log[..|log| - 1], log[|log| - 1];
      assert log == front + [r];
      RecoversExactly(table, front, e);
      assert e in Mined(table, log, -1) <==> e in Mined(table, front, -1) || Gives(table, r, e);
      hide Mined, Gives;
      assert (exists q <- log :: Gives(table, q, e))
             <==> (exists q <- front :: Gives(table, q, e)) || Gives(table, r, e);
    }
  }

  /** Numbering resumes after the highest number recovered. */
  lemma {:induction false} HighestMeans(es: seq<Entry>) returns (k: nat)
    ensures forall i | 0 <= i < |es| :: es[i].n <= Highest(es)
    ensures if es == [] then Highest(es) == 0 else k < |es| && es[k].n == Highest(es)
  {
    k := 0;
    if es != [] {
      var last := |es| - 1;
      var front := es[..last];
      k := HighestMeans(front);
      var h := Highest(front);
      assert Highest(es) == if es[last].n > h then es[last].n else h;
      assert forall i | 0 <= i < last :: front[i] == es[i];
      hide Highest;
      if front == [] || es[last].n > h { k := last; }
    }
  }

  /** What a restart finds in memory: the point of each such record under the record's number. */
  lemma RecoveredPoints(s: State, found: seq<Log<WalRecord>>, n: nat, p: Point)
    ensures var t := Recovered(s, found);
            && |t.buffer| == |t.bufferSeqs| && t.flight == None
            && ((exists i | 0 <= i < |t.buffer| :: t.bufferSeqs[i] == n && t.buffer[i] == p) <==>
                exists r <- Concat(found) :: Gives(s.table, r, Entry(n, p)))
  {
    var log, t := Concat(found), Recovered(s, found);
    var mine, e := Mined(s.table, log, -1), Entry(n, p);
    RecoversExactly(s.table, log, e);
    hide Mined, Highest, Gives, Concat, Opened;
    if i :| 0 <= i < |t.buffer| && t.bufferSeqs[i] == n && t.buffer[i] == p {
      assert mine[i] == e;
    }
    if e in mine {
      var i :| 0 <= i < |mine| && mine[i] == e;
      assert t.bufferSeqs[i] == n && t.buffer[i] == p;
    }
  }

  /** The points are in the order of their numbers, and the last of these, or zero, is the number to resume from. */
  lemma RecoveredOrder(s: State, found: seq<Log<WalRecord>>)
    requires Increasing(Concat(found))
    ensures var t := Recovered(s, found);
            && (forall i, j | 0 <= i < j < |t.bufferSeqs| :: t.bufferSeqs[i] < t.bufferSeqs[j])
            && t.lastFlushedSeq == if t.bufferSeqs == [] then 0 else t.bufferSeqs[|t.bufferSeqs| - 1]
  {
    var mine := Mined(s.table, Concat(found), -1);
    MinedRecorded(s.table, Concat(found), -1);
    var k := HighestMeans(mine);
    hide Mined, Highest, Increasing, Concat, Opened, Backed;
    var ns := SeqsOf(mine);
    if mine != [] {
      assert ns[|ns| - 1] == mine[|ns| - 1].n <= mine[k].n == ns[k];
      assert k == |ns| - 1;
    }
  }

  /** A flush that fails leaves everything as it was, with points added meanwhile behind the batch. */
  lemma FailedFlushUndone(s: State, e: Event)
    requires s.flight.None? && |s.buffer| == |s.bufferSeqs|
    ensures Step(Step(s, BeginFlush), FlushFails) == s
    ensures e.Add? && s.buffer != [] && s.maxSize > 0 && Numbered(s.setup, e.io) ==>
              var t := Step(Step(Step(s, BeginFlush), e), FlushFails);
              && t.buffer == s.buffer + [e.point] && t.flight == None && t.lastFlushedSeq == s.lastFlushedSeq
              && t.wal == Step(Step(s, BeginFlush), e).wal && t.flushed == s.flushed
  {
    hide Written;
    assert s.buffer + [] == s.buffer && s.bufferSeqs + [] == s.bufferSeqs;
  }

  /** From any state, giving up a pending flush and flushing once more stores every point in memory, once each. */
  lemma EverythingCanBeFlushed(s: State, stuck: set<nat>)
    ensures var t := Step(Step(Step(s, FlushFails), BeginFlush), FlushDone(stuck));
            && t.flushed == s.flushed + multiset(Live(s)) && t.buffer == [] && t.flight == None
            && t.accepted == s.accepted && t.cleared == s.cleared && t.dropped == s.dropped
  {
    assert Step(s, FlushFails).buffer == Live(s) by { assert [] + s.buffer == s.buffer; }
    FlushRound(Step(s, FlushFails), stuck);
    hide Truncated, Written, Recovered, Torn, Live;
  }

  lemma FlushRound(s: State, stuck: set<nat>)
    requires s.flight.None?
    ensures var t := Step(Step(s, BeginFlush), FlushDone(stuck));
            && t.flushed == s.flushed + multiset(s.buffer) && t.buffer == [] && t.flight == None
            && t.accepted == s.accepted && t.cleared == s.cleared && t.dropped == s.dropped
  {
    hide Truncated, Written, Recovered, Torn;
  }

  // The manager itself

  class Manager {
    const table: string
    const maxSize: nat
    const wal: Wal<WalRecord>
    var buffer: seq<Point>
    var lastFlushedSeq: nat
    ghost var flight: Option<Flight>
    ghost var bufferSeqs: seq<nat>
    ghost var accepted: multiset<Point>
    ghost var flushed: multiset<Point>
    ghost var cleared: multiset<Point>
    ghost var dropped: multiset<Point>

    ghost function Abs(): State
      reads this, wal
    {
      State(table, maxSize, wal.setup, wal.View(), buffer, lastFlushedSeq,
            flight, bufferSeqs, accepted, flushed, cleared, dropped)
    }

    /** Replays the reopened log into the buffer; `before` carries the history over a crash. */
    constructor (table: string, maxSize: nat, wal: Wal<WalRecord>, ghost found: seq<Log<WalRecord>>,
                 ghost before: State)
      requires wal.View() == Opened(found)
      requires before.table == table && before.maxSize == maxSize && before.setup == wal.setup
      ensures this.wal == wal && Abs() == Recovered(before, found)
    {
      this.table, this.maxSize, this.wal := table, maxSize, wal;
      assert wal.Records() == Concat(found) by { assert Concat(found) + [] == Concat(found); }
      var points, last, seqs := Recover(table, wal.Records());
      buffer, lastFlushedSeq := points, last;
      flight, bufferSeqs := None, seqs;
      accepted, flushed := before.accepted, before.flushed;
      cleared, dropped := before.cleared, before.dropped;
      hide Mined, Highest, MaxSeq, Concat;
    }

    static method Recover(table: string, rs: Log<WalRecord>)
        returns (points: seq<Point>, last: nat, ghost seqs: seq<nat>)
      ensures points == Replay(table, rs)
      ensures seqs == SeqsOf(Mined(table, rs, -1)) && last == Highest(Mined(table, rs, -1))
    {
      hide Mined, Highest, MaxSeq, Mine;
      points, last, seqs := [], 0, [];
      assert Mined(table, [], -1) == [] && Highest([]) == 0 by { NothingMined(table); }
      var i := 0;
      while i < |rs|
        invariant 0 <= i <= |rs|
        invariant points == PointsOf(Mined(table, rs[..i], -1))
        invariant seqs == SeqsOf(Mined(table, rs[..i], -1))
        invariant last == Highest(Mined(table, rs[..i], -1))
      {
        MinedNext(table, rs, i);
        if Mine(table, rs[i]) {
          points := points + [rs[i].data.point];
          seqs := seqs + [rs[i].seqNum];
          if rs[i].seqNum > last { last := rs[i].seqNum; }
        }
        i := i + 1;
      }
      assert rs[..i] == rs;
    }

    /** Logs the point first and buffers it only if the log took it. */
    method Add(p: Point, at: int, io: Io) returns (added: bool)
      modifies this, wal
      ensures Abs() == Step(old(Abs()), Event.Add(p, at, io))
      ensures added <==> old(|buffer|) < maxSize && Numbered(wal.setup, io)
      ensures buffer == old(buffer) + if added then [p] else []
    {
      hide Recovered, Elements, Truncated;
      if |buffer| >= maxSize { return false; }
      var n := wal.Append(RECORD_TYPE_DATA, Parsed(p, table), at, io);
      if n.None? { return false; }
      buffer := buffer + [p];
      lastFlushedSeq := n.value;
      bufferSeqs, accepted := bufferSeqs + [n.value], accepted + multiset{p};
      return true;
    }

    /** The first critical section of a flush: take the batch and remember the number. */
    method BeginFlush() returns (data: seq<Point>, seqBefore: nat)
      requires flight.None?
      modifies this
      ensures Abs() == Step(old(Abs()), Event.BeginFlush)
      ensures data == old(buffer) && seqBefore == old(lastFlushedSeq)
      ensures data != [] ==> flight == Some(Flight(data, seqBefore, old(bufferSeqs)))
      ensures buffer == []
    {
      data, seqBefore := buffer, lastFlushedSeq;
      if data == [] { return; }
      flight := Some(Flight(data, seqBefore, bufferSeqs));
      buffer, bufferSeqs := [], [];
    }

    /** After the flush function returned: put the batch back, or truncate at the current number. */
    method FinishFlush(data: seq<Point>, seqBefore: nat, ok: bool, stuck: set<nat>)
      requires flight.Some? && data == flight.value.data && seqBefore == flight.value.seqBefore
      modifies this, wal
      ensures Abs() == Step(old(Abs()), if ok then FlushDone(stuck) else FlushFails)
      ensures buffer == (if ok then [] else data) + old(buffer)
      ensures lastFlushedSeq == (if ok then old(lastFlushedSeq) else seqBefore)
      ensures !ok ==> wal.View() == old(wal.View())
    {
      hide Truncated, Written, Recovered, Torn;
      if ok {
        flushed := flushed + multiset(data);
        assert [] + buffer == buffer;
        wal.Truncate(lastFlushedSeq, stuck);
      } else {
        buffer := data + buffer;
        lastFlushedSeq := seqBefore;
        bufferSeqs := flight.value.seqs + bufferSeqs;
      }
      flight := None;
    }

    method Clear()
      modifies this
      ensures Abs() == Step(old(Abs()), Event.Clear)
      ensures buffer == [] && wal.View() == old(wal.View()) && cleared == old(cleared) + multiset(old(buffer))
    {
      cleared := cleared + multiset(buffer);
      buffer, bufferSeqs := [], [];
    }
  }
}
