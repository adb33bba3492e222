/** The write-ahead log: its on-disk record format and the log of numbered records built on it. */

/** Byte format of one log file: a six-byte file header followed by length-prefixed, checksummed records. */
module WalCodec {
  type byte = x: int | 0 <= x < 256
  type uint32 = x: int | 0 <= x < 0x1_0000_0000

  const RECORD_TYPE_DATA: byte := 1
  const RECORD_TYPE_TOMBSTONE: byte := 4
  const HEADER_SIZE := 13
  const MAX_RECORD_SIZE := 64 * 1024 * 1024
  const CURRENT_VERSION := 1
  const TWO_64 := 0x1_0000_0000_0000_0000
  const MAGIC: seq<byte> := [77, 87, 65, 76]  // "MWAL"

  datatype Record<P> = Record(seqNum: nat, kind: byte, timestamp: int, data: P)

  /** What `Append` accepts: the size limit, and numbers that fit their fixed-width fields. */
  predicate Storable(r: Record<seq<byte>>) {
    && |r.data| <= MAX_RECORD_SIZE
    && r.seqNum < TWO_64
    && -TWO_64 <= 2 * r.timestamp < TWO_64
  }

  function Pow256(k: nat): (p: nat)
    ensures p > 0
  {
    if k == 0 then 1 else 256 * Pow256(k - 1)
  }

  // Big-endian fixed-width numbers

  function PutBig(n: nat, width: nat): (bs: seq<byte>)
    ensures |bs| == width
    decreases width
  {
    if width == 0 then [] else PutBig(n / 256, width - 1) + [n % 256]
  }

  function GetBig(bs: seq<byte>): nat {
    if bs == [] then 0 else 256 * GetBig(bs[..|bs| - 1]) + bs[|bs| - 1]
  }

  lemma {:induction false} BigEndianRoundTrip(n: nat, width: nat)
    requires n < Pow256(width)
    ensures GetBig(PutBig(n, width)) == n
    decreases width
  {
    if width > 0 {
      BigEndianRoundTrip(n / 256, width - 1);
      var bs := PutBig(n, width);
      assert bs[..width - 1] == PutBig(n / 256, width - 1);
    }
  }

  // Two's complement view of a 64-bit timestamp

  function ToUint64(t: int): nat
    requires -TWO_64 <= 2 * t < TWO_64
  {
    if t < 0 then t + TWO_64 else t
  }

  function ToInt64(u: nat): int {
    if 2 * u >= TWO_64 then u - TWO_64 else u
  }

  // Records

  function Header(r: Record<seq<byte>>): (h: seq<byte>)
    ensures |h| == HEADER_SIZE
  {
    PutBig(|r.data|, 4) + [r.kind] + PutBig(r.seqNum, 8)
  }

  function Encode(crc: seq<byte> -> uint32, r: Record<seq<byte>>): (bs: seq<byte>)
    requires Storable(r)
    ensures |bs| == HEADER_SIZE + 12 + |r.data|
  {
    var stamp := PutBig(ToUint64(r.timestamp), 8);
    Header(r) + PutBig(crc(Header(r) + stamp + r.data), 4) + stamp + r.data
  }

  datatype ReadResult = Stop | Read(record: Record<seq<byte>>, size: nat)

  /** Reads one record from the front of `bs`; `Stop` covers end of file, a torn tail and a bad checksum. */
  function ReadRecord(crc: seq<byte> -> uint32, bs: seq<byte>, newFormat: bool): (r: ReadResult)
    ensures r.Read? ==> HEADER_SIZE < r.size <= |bs|
  {
    if |bs| < HEADER_SIZE then Stop else
    var dataLen := GetBig(bs[..4]);
    if dataLen > MAX_RECORD_SIZE || |bs| < HEADER_SIZE + 12 + dataLen then Stop else
    var size := HEADER_SIZE + 12 + dataLen;
    var stamp, data := bs[17..25], bs[25..size];
    var covered := if newFormat then bs[..13] + stamp + data else data;
    if crc(covered) != GetBig(bs[13..17]) then Stop
    else Read(Record(GetBig(bs[5..13]), bs[4], ToInt64(GetBig(stamp)), data), size)
  }

  function ReadAll(crc: seq<byte> -> uint32, bs: seq<byte>, newFormat: bool): seq<Record<seq<byte>>>
    decreases |bs|
  {
    match ReadRecord(crc, bs, newFormat)
    case Stop => []
    case Read(r, size) => [r] + ReadAll(crc, bs[size..], newFormat)
  }

  // Files

  const FILE_HEADER: seq<byte> := MAGIC + PutBig(CURRENT_VERSION, 2)

  function EncodeAll(crc: seq<byte> -> uint32, rs: seq<Record<seq<byte>>>): seq<byte>
    requires forall r <- rs :: Storable(r)
  {
    if rs == [] then [] else Encode(crc, rs[0]) + EncodeAll(crc, rs[1..])
  }

  /** The records a file yields on replay; a file without the magic number is in the old format. */
  function ReplayOf(crc: seq<byte> -> uint32, file: seq<byte>): seq<Record<seq<byte>>> {
    if |file| < 4 || file[..4] != MAGIC then ReadAll(crc, file, false)
    else if |file| < 6 || GetBig(file[4..6]) > CURRENT_VERSION then []
    else ReadAll(crc, file[6..], true)
  }

  method ReplayFile(crc: seq<byte> -> uint32, file: seq<byte>) returns (records: seq<Record<seq<byte>>>)
    ensures records == ReplayOf(crc, file)
  {
    hide ReadRecord, GetBig;
    var hasHeader := |file| >= 4 && file[..4] == MAGIC;
    var rest := file;
    if hasHeader {
      if |file| < 6 || GetBig(file[4..6]) > CURRENT_VERSION { return []; }
      rest := file[6..];
    }
    records := [];
    ghost var all := ReadAll(crc, rest, hasHeader);
    while true
      invariant records + ReadAll(crc, rest, hasHeader) == all
      decreases |rest|
    {
      var next := ReadRecord(crc, rest, hasHeader);
      if next.Stop? { return; }
      records := records + [next.record];
      rest := rest[next.size..];
    }
  }

  // A record that was written whole is read back; a torn one stops the scan.

  lemma {:induction false} ReadBack(crc: seq<byte> -> uint32, r: Record<seq<byte>>, tail: seq<byte>)
    requires Storable(r)
    ensures ReadRecord(crc, Encode(crc, r) + tail, true) == Read(r, |Encode(crc, r)|)
  {
    hide PutBig, GetBig, Pow256;
    var bs := Encode(crc, r) + tail;
    var stamp := PutBig(ToUint64(r.timestamp), 8);
    Powers();
    BigEndianRoundTrip(|r.data|, 4);
    BigEndianRoundTrip(r.seqNum, 8);
    BigEndianRoundTrip(ToUint64(r.timestamp), 8);
    BigEndianRoundTrip(crc(Header(r) + stamp + r.data), 4);
    assert bs[..4] == PutBig(|r.data|, 4);
    assert bs[5..13] == PutBig(r.seqNum, 8);
    assert bs[..13] == Header(r);
    assert bs[13..17] == PutBig(crc(Header(r) + stamp + r.data), 4);
    assert bs[17..25] == stamp;
    assert bs[25..25 + |r.data|] == r.data;
  }

  lemma Powers()
    ensures Pow256(2) == 0x1_0000 && Pow256(4) == 0x1_0000_0000
    ensures Pow256(8) == TWO_64
  {
    assert Pow256(1) == 256 && Pow256(3) == 0x100_0000;
    assert Pow256(5) == 0x100_0000_0000 && Pow256(6) == 0x1_0000_0000_0000 && Pow256(7) == 0x100_0000_0000_0000;
  }

  lemma {:induction false} TornRecordStops(crc: seq<byte> -> uint32, r: Record<seq<byte>>, tail: seq<byte>, n: nat)
    requires Storable(r) && n < |Encode(crc, r)|
    ensures ReadRecord(crc, (Encode(crc, r) + tail)[..n], true) == Stop
  {
    hide PutBig, GetBig, Pow256;
    var bs := (Encode(crc, r) + tail)[..n];
    if n >= HEADER_SIZE {
      Powers();
      BigEndianRoundTrip(|r.data|, 4);
      assert bs[..4] == PutBig(|r.data|, 4);
    }
  }

  // The format, byte by byte

  lemma FourBytes(a: byte, b: byte, c: byte, d: byte)
    ensures GetBig([a, b, c, d]) == 0x100_0000 * a + 0x1_0000 * b + 0x100 * c + d
  {
    OneMoreByte([], a);
    OneMoreByte([a], b);
    OneMoreByte([a, b], c);
    OneMoreByte([a, b, c], d);
    assert GetBig([]) == 0;
    hide GetBig;
    assert [] + [a] == [a] && [a] + [b] == [a, b] && [a, b] + [c] == [a, b, c] && [a, b, c] + [d] == [a, b, c, d];
  }

  lemma OneMoreByte(bs: seq<byte>, b: byte)
    ensures GetBig(bs + [b]) == 256 * GetBig(bs) + b
  {
    assert (bs + [b])[..|bs|] == bs;
  }

  /** A longer number starts with its more significant bytes. */
  lemma {:induction false} MoreBytes(a: seq<byte>, b: seq<byte>)
    ensures GetBig(a + b) == GetBig(a) * Pow256(|b|) + GetBig(b)
  {
    if b == [] {
      assert a + b == a;
    } else {
      var front, last := b[..|b| - 1], b[|b| - 1];
      MoreBytes(a, front);
      assert (a + b)[..|a + b| - 1] == a + front && (a + b)[|a + b| - 1] == last;
      var x, p, y := GetBig(a), Pow256(|front|), GetBig(front);
      var whole := x * p + y;
      assert GetBig(a + front) == whole;
      assert GetBig(a + b) == 256 * whole + last && Pow256(|b|) == 256 * p && GetBig(b) == 256 * y + last;
      hide *;
      ShiftByte(x, p, y);
    }
  }

  lemma ShiftByte(x: nat, p: nat, y: nat)
    ensures 256 * (x * p + y) == x * (256 * p) + 256 * y
  {
  }

  /**
   * Where a record's parts stand: length, kind, number, checksum, time and data. The checksum covers everything but
   * itself.
   */
  lemma RecordLayout(crc: seq<byte> -> uint32, r: Record<seq<byte>>)
    requires Storable(r)
    ensures var bs := Encode(crc, r);
            && |bs| == 25 + |r.data| && GetBig(bs[..4]) == |r.data| && bs[4] == r.kind && GetBig(bs[5..13]) == r.seqNum
            && GetBig(bs[13..17]) == crc(bs[..13] + bs[17..])
            && GetBig(bs[17..25]) == (if r.timestamp < 0 then r.timestamp + 0x1_0000_0000_0000_0000 else r.timestamp)
            && bs[25..] == r.data
  {
    hide PutBig, GetBig, Pow256;
    var bs := Encode(crc, r);
    var stamp := PutBig(ToUint64(r.timestamp), 8);
    Powers();
    BigEndianRoundTrip(|r.data|, 4);
    BigEndianRoundTrip(r.seqNum, 8);
    BigEndianRoundTrip(ToUint64(r.timestamp), 8);
    BigEndianRoundTrip(crc(Header(r) + stamp + r.data), 4);
    assert bs[..4] == PutBig(|r.data|, 4) && bs[5..13] == PutBig(r.seqNum, 8);
    assert bs[13..17] == PutBig(crc(Header(r) + stamp + r.data), 4) && bs[17..25] == stamp;
    assert bs[..13] + bs[17..] == Header(r) + stamp + r.data;
  }

  lemma FileHeaderLayout()
    ensures FILE_HEADER == [77, 87, 65, 76, 0, 1]
  {
    assert PutBig(1, 2) == PutBig(0, 1) + [1] && PutBig(0, 1) == PutBig(0, 0) + [0] == [0];
  }

  /**
   * What is read: a record is taken exactly if it is whole, no larger than allowed, and its checksum is that of the
   * other bytes or, in the old format, of the data.
   */
  lemma ReadsIff(crc: seq<byte> -> uint32, bs: seq<byte>, newFormat: bool)
    ensures ReadRecord(crc, bs, newFormat).Read? <==>
            && |bs| >= 25 && GetBig(bs[..4]) <= 64 * 1024 * 1024 && |bs| >= 25 + GetBig(bs[..4])
            && var end := 25 + GetBig(bs[..4]);
               GetBig(bs[13..17]) == if newFormat then crc(bs[..13] + bs[17..end]) else crc(bs[25..end])
    ensures ReadRecord(crc, bs, newFormat).Read? ==>
              var end := 25 + GetBig(bs[..4]);
              var u := GetBig(bs[17..25]);
              ReadRecord(crc, bs, newFormat) ==
              Read(Record(GetBig(bs[5..13]), bs[4], if u < 0x8000_0000_0000_0000 then u else u - TWO_64, bs[25..end]),
                end)
  {
    hide GetBig;
    if |bs| >= 25 && |bs| >= 25 + GetBig(bs[..4]) {
      var end := 25 + GetBig(bs[..4]);
      assert bs[..13] + bs[17..25] + bs[25..end] == bs[..13] + bs[17..end];
    }
  }

  /** How many of the records are completely contained in the first `n` bytes of their encoding. */
  function CompleteCount(crc: seq<byte> -> uint32, rs: seq<Record<seq<byte>>>, n: int): (k: nat)
    requires forall r <- rs :: Storable(r)
    ensures k <= |rs|
  {
    if rs == [] || n < |Encode(crc, rs[0])| then 0
    else 1 + CompleteCount(crc, rs[1..], n - |Encode(crc, rs[0])|)
  }

  lemma {:induction false} TornScan(crc: seq<byte> -> uint32, rs: seq<Record<seq<byte>>>, n: nat)
    requires forall r <- rs :: Storable(r)
    requires n <= |EncodeAll(crc, rs)|
    ensures ReadAll(crc, EncodeAll(crc, rs)[..n], true) == rs[..CompleteCount(crc, rs, n)]
  {
    hide ReadRecord, Encode;
    if rs == [] {
    } else {
      var first, tail := Encode(crc, rs[0]), EncodeAll(crc, rs[1..]);
      if n < |first| {
        TornRecordStops(crc, rs[0], tail, n);
      } else {
        var rest := tail[..n - |first|];
        assert EncodeAll(crc, rs)[..n] == first + rest;
        ReadBack(crc, rs[0], rest);
        ScanStep(crc, first, rs[0], rest);
        TornScan(crc, rs[1..], n - |first|);
      }
    }
  }

  lemma ScanStep(crc: seq<byte> -> uint32, first: seq<byte>, r: Record<seq<byte>>, rest: seq<byte>)
    requires ReadRecord(crc, first + rest, true) == Read(r, |first|)
    ensures ReadAll(crc, first + rest, true) == [r] + ReadAll(crc, rest, true)
  {
    assert (first + rest)[|first|..] == rest;
  }

  /**
   * Crash safety of the file format. Cut a log file at any byte: replay returns exactly
   * the records that were completely written before the cut, in order, and nothing else.
   */
  lemma {:induction false} TornFileReplaysCompleteRecords(crc: seq<byte> -> uint32, rs: seq<Record<seq<byte>>>, n: nat)
    requires forall r <- rs :: Storable(r)
    requires n <= |FILE_HEADER + EncodeAll(crc, rs)|
    ensures ReplayOf(crc, (FILE_HEADER + EncodeAll(crc, rs))[..n]) == rs[..CompleteCount(crc, rs, n - |FILE_HEADER|)]
  {
    hide EncodeAll, CompleteCount;
    var body := EncodeAll(crc, rs);
    var file := (FILE_HEADER + body)[..n];
    assert |FILE_HEADER| == 6;
    if n < 6 {
      assert CompleteCount(crc, rs, n - 6) == 0 by { NothingBeforeTheBody(crc, rs, n - 6); }
    } else {
      hide ReadRecord, ReadAll;
      BodyFollowsHeader(body, n);
      TornScan(crc, rs, n - 6);
    }
  }

  lemma NothingBeforeTheBody(crc: seq<byte> -> uint32, rs: seq<Record<seq<byte>>>, n: int)
    requires n < 0 && forall r <- rs :: Storable(r)
    ensures CompleteCount(crc, rs, n) == 0
  {
    hide Encode;
  }

  lemma BodyFollowsHeader(body: seq<byte>, n: nat)
    requires 6 <= n <= |FILE_HEADER + body|
    ensures (FILE_HEADER + body)[..n][..4] == MAGIC
    ensures (FILE_HEADER + body)[..n][6..] == body[..n - 6]
    ensures GetBig((FILE_HEADER + body)[..n][4..6]) == CURRENT_VERSION
  {
    Powers();
    BigEndianRoundTrip(CURRENT_VERSION, 2);
    assert (FILE_HEADER + body)[..n][4..6] == PutBig(CURRENT_VERSION, 2);
  }
}

/** The log as its users see it: numbered records in a list of files, the last of which is open. */
module Wal {
  import opened Prelude
  import opened WalCodec

  type Log<P> = seq<Record<P>>

  ghost predicate Increasing<P>(log: Log<P>) {
    forall i, j | 0 <= i < j < |log| :: log[i].seqNum < log[j].seqNum
  }

  ghost predicate Bounded<P>(log: Log<P>, top: int) {
    forall r <- log :: r.seqNum <= top
  }

  ghost function Seqs<P>(log: Log<P>): set<nat> {
    set r | r in log :: r.seqNum
  }

  /** The log after some of its records are gone; what is left keeps its order. */
  function Without<P>(log: Log<P>, removed: set<nat>): Log<P> {
    if log == [] then []
    else (if log[0].seqNum in removed then [] else [log[0]]) + Without(log[1..], removed)
  }

  lemma {:induction false} WithoutConcat<P>(a: Log<P>, b: Log<P>, removed: set<nat>)
    ensures Without(a + b, removed) == Without(a, removed) + Without(b, removed)
  {
    if a == [] {
      assert a + b == b;
    } else {
      assert (a + b)[1..] == a[1..] + b;
      WithoutConcat(a[1..], b, removed);
    }
  }

  /** Exactly the records whose number was not removed are left. */
  lemma {:induction false} WithoutKeeps<P>(log: Log<P>, removed: set<nat>, r: Record<P>)
    ensures r in Without(log, removed) <==> r in log && r.seqNum !in removed
  {
    if log != [] {
      WithoutKeeps(log[1..], removed, r);
      assert log == [log[0]] + log[1..];
    }
  }

  lemma {:induction false} WithoutIncreasing<P>(log: Log<P>, removed: set<nat>)
    requires Increasing(log)
    ensures Increasing(Without(log, removed))
  {
    if log != [] {
      WithoutIncreasing(log[1..], removed);
      var rest := Without(log[1..], removed);
      forall r | r in rest ensures log[0].seqNum < r.seqNum {
        WithoutKeeps(log[1..], removed, r);
        var i :| 0 <= i < |log[1..]| && log[1..][i] == r;
        assert log[i + 1] == r;
      }
    }
  }

  lemma {:induction false} WithoutNone<P>(log: Log<P>, removed: set<nat>)
    requires forall r <- log :: r.seqNum !in removed
    ensures Without(log, removed) == log
  {
    if log != [] {
      WithoutNone(log[1..], removed);
    }
  }

  lemma {:induction false} WithoutAll<P>(log: Log<P>, removed: set<nat>)
    requires forall r <- log :: r.seqNum in removed
    ensures Without(log, removed) == []
  {
    if log != [] {
      WithoutAll(log[1..], removed);
    }
  }

  /** Removing numbers that do not occur changes nothing. */
  lemma {:induction false} WithoutMore<P>(log: Log<P>, removed: set<nat>, more: set<nat>)
    requires forall r <- log :: r.seqNum !in more
    ensures Without(log, removed + more) == Without(log, removed)
  {
    if log != [] {
      WithoutMore(log[1..], removed, more);
    }
  }

  lemma AppendIncreasing<P>(log: Log<P>, top: nat, r: Record<P>)
    requires Increasing(log) && Bounded(log, top) && top < r.seqNum
    ensures Increasing(log + [r]) && Bounded(log + [r], r.seqNum)
  {
  }

  /** The largest number in a file, zero for a file without records. */
  function MaxSeq<P>(file: Log<P>): (m: nat)
    ensures forall r <- file :: r.seqNum <= m
    ensures m == 0 || exists r <- file :: r.seqNum == m
  {
    if file == [] then 0
    else
      var last, front := file[|file| - 1].seqNum, file[..|file| - 1];
      assert file == front + [file[|file| - 1]];
      var m := MaxSeq(front);
      if last > m then last else m
  }

  lemma {:induction false} MaxSeqConcat<P>(a: Log<P>, b: Log<P>)
    ensures MaxSeq(a + b) == if MaxSeq(a) > MaxSeq(b) then MaxSeq(a) else MaxSeq(b)
  {
    if b == [] {
      assert a + b == a;
    } else {
      assert (a + b)[..|a + b| - 1] == a + b[..|b| - 1];
      MaxSeqConcat(a, b[..|b| - 1]);
    }
  }

  /** How a log is set up: when a file is full, and whether every write waits for the disk. */
  datatype Setup = Setup(maxFileSize: nat, syncOnWrite: bool)

  /** What became of an append: stored and synced, refused, or taken into the file without reaching the disk. */
  datatype Device = Stored | Refused | Unsynced

  /**
   * A write as the world sees it: the size of its data, the device's answer, and whether a full file can be rotated.
   */
  datatype Io = Io(size: nat, device: Device, rotates: bool)

  /** The record is in the log. */
  predicate Taken(io: Io) {
    io.size <= MAX_RECORD_SIZE && io.device != Refused
  }

  /** The record is in the log and synced, with everything before it in its file. */
  predicate Synced(io: Io) {
    io.size <= MAX_RECORD_SIZE && io.device == Stored
  }

  /** The record's number is returned: the record is synced, or need not be. */
  predicate Numbered(w: Setup, io: Io) {
    Taken(io) && (Synced(io) || !w.syncOnWrite)
  }

  // The log as files

  /**
   * Closed files and the open one, its size, and the last number given. `unsynced` is history: records with
   * these numbers were never synced and may be gone after a crash.
   */
  datatype Files<P> = Files(closed: seq<Log<P>>, open: Log<P>, size: nat, top: nat, unsynced: set<nat>)

  const FILE_HEADER_SIZE := 6

  /** Everything replay would deliver, in delivery order. */
  function RecordsOf<P>(f: Files<P>): Log<P> {
    Concat(f.closed) + f.open
  }

  ghost predicate Sound<P>(f: Files<P>) {
    Increasing(RecordsOf(f)) && Bounded(RecordsOf(f), f.top)
  }

  /** Appends to the open file and closes it once it is full. Closing does not sync; a sync covers the open file. */
  ghost function Written<P>(f: Files<P>, w: Setup, kind: byte, at: int, data: P, io: Io): Files<P> {
    if !Taken(io) then f
    else
      var n := f.top + 1;
      var open, size := f.open + [Record(n, kind, at, data)], f.size + HEADER_SIZE + 12 + io.size;
      var unsynced := if Synced(io) then f.unsynced - Seqs(open) else f.unsynced + {n};
      if Numbered(w, io) && size >= w.maxFileSize && io.rotates
      then Files(f.closed + [open], [], FILE_HEADER_SIZE, n, unsynced)
      else Files(f.closed, open, size, n, unsynced)
  }

  /** Whether truncation removes the closed file at index `i`; `stuck` are those the file system keeps. */
  predicate Goes<P>(closed: seq<Log<P>>, i: nat, before: nat, stuck: set<nat>)
    requires i < |closed|
  {
    MaxSeq(closed[i]) <= before && i !in stuck
  }

  function Kept<P>(closed: seq<Log<P>>, n: nat, before: nat, stuck: set<nat>): seq<Log<P>>
    requires n <= |closed|
  {
    if n == 0 then []
    else Kept(closed, n - 1, before, stuck) + (if Goes(closed, n - 1, before, stuck) then [] else [closed[n - 1]])
  }

  /** Truncation works by whole closed files; the open file is never touched. */
  function Truncated<P>(f: Files<P>, before: nat, stuck: set<nat>): Files<P> {
    f.(closed := Kept(f.closed, |f.closed|, before, stuck))
  }

  /** The numbers of the records that go with those files. */
  ghost function Gone<P>(closed: seq<Log<P>>, n: nat, before: nat, stuck: set<nat>): set<nat>
    requires n <= |closed|
  {
    if n == 0 then {}
    else Gone(closed, n - 1, before, stuck) + (if Goes(closed, n - 1, before, stuck) then Seqs(closed[n - 1]) else {})
  }

  ghost function Removed<P>(f: Files<P>, before: nat, stuck: set<nat>): set<nat> {
    Gone(f.closed, |f.closed|, before, stuck)
  }

  /** What a crash leaves on disk: some records that were never synced may be missing. */
  function Left<P>(f: Files<P>, lost: set<nat>): seq<Log<P>> {
    Sifted(f.closed, lost * f.unsynced) + [Without(f.open, lost * f.unsynced)]
  }

  function Sifted<P>(files: seq<Log<P>>, gone: set<nat>): seq<Log<P>> {
    if files == [] then [] else Sifted(files[..|files| - 1], gone) + [Without(files[|files| - 1], gone)]
  }

  /** Opening closes every file found and resumes numbering after the largest number. */
  function Opened<P>(found: seq<Log<P>>): Files<P> {
    Files(found, [], FILE_HEADER_SIZE, MaxSeq(Concat(found)), {})
  }

  lemma ConcatLast<T>(files: seq<seq<T>>, last: seq<T>)
    ensures Concat(files + [last]) == Concat(files) + last
  {
    assert (files + [last])[..|files|] == files;
  }

  lemma WrittenRecords<P>(f: Files<P>, w: Setup, kind: byte, at: int, data: P, io: Io)
    ensures var g := Written(f, w, kind, at, data, io);
            && RecordsOf(g) == RecordsOf(f) + (if Taken(io) then [Record(f.top + 1, kind, at, data)] else [])
            && g.top == f.top + (if Taken(io) then 1 else 0)
            && g.unsynced <= f.unsynced + {f.top + 1} && (Synced(io) ==> g.unsynced <= f.unsynced - {f.top + 1})
            && f.closed <= g.closed
  {
    hide Concat;
    if Taken(io) {
      var r := Record(f.top + 1, kind, at, data);
      var open := f.open + [r];
      ConcatLast(f.closed, open);
      assert Concat(f.closed) + open == RecordsOf(f) + [r];
      assert Concat(f.closed) + open + [] == Concat(f.closed) + open;
      assert r in open && r.seqNum in Seqs(open);
    } else {
      assert RecordsOf(f) + [] == RecordsOf(f);
    }
  }

  lemma WrittenSound<P>(f: Files<P>, w: Setup, kind: byte, at: int, data: P, io: Io)
    requires Sound(f)
    ensures Sound(Written(f, w, kind, at, data, io))
  {
    if Taken(io) {
      WrittenRecords(f, w, kind, at, data, io);
      AppendIncreasing(RecordsOf(f), f.top, Record(f.top + 1, kind, at, data));
      hide Concat, Increasing, Written, RecordsOf;
    }
  }

  /** Exactly the records of closed files with no number above `before` go, if the file system lets them. */
  lemma {:induction false} GoneMembers<P>(closed: seq<Log<P>>, n: nat, before: nat, stuck: set<nat>, x: nat)
    requires n <= |closed|
    ensures x in Gone(closed, n, before, stuck) <==>
            exists i | 0 <= i < n :: Goes(closed, i, before, stuck) && x in Seqs(closed[i])
  {
    hide Goes, Seqs;
    if n > 0 {
      GoneMembers(closed, n - 1, before, stuck, x);
    }
  }

  lemma {:induction false} GoneBelow<P>(closed: seq<Log<P>>, n: nat, before: nat, stuck: set<nat>)
    requires n <= |closed|
    ensures forall x <- Gone(closed, n, before, stuck) :: x <= before
    ensures Gone(closed, n, before, stuck) <= Seqs(Concat(closed[..n]))
  {
    if n > 0 {
      GoneBelow(closed, n - 1, before, stuck);
      assert closed[..n][..n - 1] == closed[..n - 1];
    }
  }

  lemma {:induction false} KeptRecords<P>(closed: seq<Log<P>>, n: nat, before: nat, stuck: set<nat>)
    requires n <= |closed| && Increasing(Concat(closed[..n]))
    ensures Concat(Kept(closed, n, before, stuck)) == Without(Concat(closed[..n]), Gone(closed, n, before, stuck))
  {
    hide Without, Goes, Increasing;
    if n == 0 {
      NothingKept(closed, before, stuck);
    } else {
      var done, last := Concat(closed[..n - 1]), closed[n - 1];
      assert closed[..n] == closed[..n - 1] + [last];
      ConcatLast(closed[..n - 1], last);
      ConcatLast(Kept(closed, n - 1, before, stuck), last);
      SplitIncreasing(done, last);
      KeptRecords(closed, n - 1, before, stuck);
      GoneBelow(closed, n - 1, before, stuck);
      var gone := Gone(closed, n - 1, before, stuck);
      var more := if Goes(closed, n - 1, before, stuck) then Seqs(last) else {};
      WithoutConcat(done, last, gone + more);
      WithoutMore(done, gone, more);
      if Goes(closed, n - 1, before, stuck) {
        WithoutAll(last, gone + more);
        assert Kept(closed, n, before, stuck) == Kept(closed, n - 1, before, stuck);
        assert Without(done, gone) + [] == Without(done, gone);
      } else {
        WithoutNone(last, gone + more);
      }
    }
  }

  lemma NothingKept<P>(closed: seq<Log<P>>, before: nat, stuck: set<nat>)
    ensures Concat(Kept(closed, 0, before, stuck)) == Without(Concat(closed[..0]), Gone(closed, 0, before, stuck))
  {
  }

  /** Records of a later part of an increasing log have numbers of their own. */
  lemma SplitIncreasing<P>(a: Log<P>, b: Log<P>)
    requires Increasing(a + b)
    ensures Increasing(a) && Increasing(b)
    ensures forall r <- b :: r.seqNum !in Seqs(a)
    ensures forall r <- a :: r.seqNum !in Seqs(b)
  {
    var all := a + b;
    assert forall i | 0 <= i < |a| :: all[i] == a[i];
    assert forall i | 0 <= i < |b| :: all[|a| + i] == b[i];
    forall x, y | 0 <= x < |b| && 0 <= y < |a| ensures a[y].seqNum < b[x].seqNum {
      assert all[y] == a[y] && all[|a| + x] == b[x];
    }
  }

  /** Truncation takes away the records of the files that go, and nothing else; order is kept. */
  lemma TruncatedRecords<P>(f: Files<P>, before: nat, stuck: set<nat>)
    requires Sound(f)
    ensures RecordsOf(Truncated(f, before, stuck)) == Without(RecordsOf(f), Removed(f, before, stuck))
    ensures Sound(Truncated(f, before, stuck))
    ensures forall n <- Removed(f, before, stuck) :: n <= before
    ensures forall r <- f.open :: r.seqNum !in Removed(f, before, stuck)
  {
    var n, gone := |f.closed|, Removed(f, before, stuck);
    assert f.closed[..n] == f.closed;
    hide Without;
    SplitIncreasing(Concat(f.closed), f.open);
    GoneBelow(f.closed, n, before, stuck);
    KeptRecords(f.closed, n, before, stuck);
    WithoutConcat(Concat(f.closed), f.open, gone);
    WithoutNone(f.open, gone);
    WithoutIncreasing(RecordsOf(f), gone);
    hide Increasing, Concat, Kept, Gone;
    forall r | r in RecordsOf(Truncated(f, before, stuck)) ensures r in RecordsOf(f) {
      WithoutKeeps(RecordsOf(f), gone, r);
    }
    forall r | r in Concat(Kept(f.closed, n, before, stuck)) ensures r in Concat(f.closed) {
      WithoutKeeps(Concat(f.closed), gone, r);
    }
  }

  /** The open file is closed exactly if the append succeeds, the file is now full and a new one can be made. */
  lemma RotatesIff<P>(f: Files<P>, w: Setup, kind: byte, at: int, data: P, io: Io)
    ensures var g := Written(f, w, kind, at, data, io);
            var succeeds := io.size <= 64 * 1024 * 1024
                            && (io.device == Stored || (io.device == Unsynced && !w.syncOnWrite));
            var rotated := succeeds && f.size + 25 + io.size >= w.maxFileSize && io.rotates;
            && g.closed == (if rotated then f.closed + [f.open + [Record(f.top + 1, kind, at, data)]] else f.closed)
            && (rotated ==> g.open == [] && g.size == 6)
            && (g.closed == f.closed && g.top != f.top ==> g.size == f.size + 25 + io.size)
  {
  }

  lemma {:induction false} FilesApart<P>(closed: seq<Log<P>>, i: nat, j: nat, x: Record<P>, y: Record<P>)
    requires Increasing(Concat(closed)) && i < j < |closed| && x in closed[i] && y in closed[j]
    ensures x.seqNum < y.seqNum
    decreases |closed|
  {
    var k := |closed| - 1;
    assert closed == closed[..k] + [closed[k]];
    ConcatLast(closed[..k], closed[k]);
    var a, b := Concat(closed[..k]), closed[k];
    SplitIncreasing(a, b);
    if j < k {
      hide Increasing, Concat;
      FilesApart(closed[..k], i, j, x, y);
    } else {
      InConcat(closed[..k], i, x);
      var m :| 0 <= m < |a| && a[m] == x;
      var n :| 0 <= n < |b| && b[n] == y;
      assert (a + b)[m] == x && (a + b)[|a| + n] == y;
    }
  }

  lemma {:induction false} InConcat<T>(parts: seq<seq<T>>, i: nat, x: T)
    requires i < |parts| && x in parts[i]
    ensures x in Concat(parts)
  {
    var k := |parts| - 1;
    if i < k { InConcat(parts[..k], i, x); }
  }

  /** A record in a closed file survives truncation exactly if its file is stuck or holds a number above `before`. */
  lemma TruncationKeepsIff<P>(f: Files<P>, before: nat, stuck: set<nat>, i: nat, r: Record<P>)
    requires Sound(f) && i < |f.closed| && r in f.closed[i]
    ensures r in RecordsOf(Truncated(f, before, stuck)) <==> i in stuck || exists x <- f.closed[i] :: x.seqNum > before
  {
    InConcat(f.closed, i, r);
    TruncatedRecords(f, before, stuck);
    WithoutKeeps(RecordsOf(f), Removed(f, before, stuck), r);
    GoneMembers(f.closed, |f.closed|, before, stuck, r.seqNum);
    SplitIncreasing(Concat(f.closed), f.open);
    forall j | 0 <= j < |f.closed| && r.seqNum in Seqs(f.closed[j]) ensures j == i {
      var y :| y in f.closed[j] && y.seqNum == r.seqNum;
      if j < i { FilesApart(f.closed, j, i, y, r); } else if i < j { FilesApart(f.closed, i, j, r, y); }
    }
    hide Truncated, Removed, Without, Increasing, Concat, Sound;
    assert r.seqNum in Seqs(f.closed[i]);
    GoesIff(f.closed, i, before, stuck);
  }

  lemma GoesIff<P>(closed: seq<Log<P>>, i: nat, before: nat, stuck: set<nat>)
    requires i < |closed|
    ensures Goes(closed, i, before, stuck) <==> i !in stuck && forall x <- closed[i] :: x.seqNum <= before
  {
  }

  /** A closed file that the truncation removes and that holds a record with one of the numbers. */
  ghost predicate Endangers<P>(f: Files<P>, ns: set<nat>, i: nat, before: nat, stuck: set<nat>)
    requires i < |f.closed|
  {
    Goes(f.closed, i, before, stuck) && exists r <- f.closed[i] :: r.seqNum in ns
  }

  ghost predicate Endangered<P>(f: Files<P>, ns: set<nat>, before: nat, stuck: set<nat>) {
    exists i | 0 <= i < |f.closed| :: Endangers(f, ns, i, before, stuck)
  }

  lemma EndangeredIff<P>(f: Files<P>, ns: set<nat>, before: nat, stuck: set<nat>)
    ensures Endangered(f, ns, before, stuck) <==> exists n <- ns :: n in Removed(f, before, stuck)
  {
    forall n: nat ensures n in Removed(f, before, stuck) <==>
                          exists i | 0 <= i < |f.closed| :: Goes(f.closed, i, before, stuck) && n in Seqs(f.closed[i]) {
      GoneMembers(f.closed, |f.closed|, before, stuck, n);
    }
    hide Removed, Goes;
    forall i | 0 <= i < |f.closed| && Endangers(f, ns, i, before, stuck)
      ensures exists n <- ns :: n in Removed(f, before, stuck)
    {
      var r: Record<P> :| r in f.closed[i] && r.seqNum in ns;
      assert r.seqNum in Seqs(f.closed[i]);
    }
    forall n | n in ns && n in Removed(f, before, stuck) ensures Endangered(f, ns, before, stuck) {
      var i :| 0 <= i < |f.closed| && Goes(f.closed, i, before, stuck) && n in Seqs(f.closed[i]);
      assert Endangers(f, ns, i, before, stuck);
    }
  }

  lemma {:induction false} SiftedRecords<P>(files: seq<Log<P>>, gone: set<nat>)
    ensures Concat(Sifted(files, gone)) == Without(Concat(files), gone)
  {
    hide Without;
    if files == [] {
      WithoutNone<P>([], gone);
    } else {
      var k := |files| - 1;
      SiftedRecords(files[..k], gone);
      ConcatLast(Sifted(files[..k], gone), Without(files[k], gone));
      WithoutConcat(Concat(files[..k]), files[k], gone);
    }
  }

  /** A crash loses none of the synced records. */
  lemma LeftRecords<P>(f: Files<P>, lost: set<nat>)
    requires Sound(f)
    ensures Concat(Left(f, lost)) == Without(RecordsOf(f), lost * f.unsynced)
    ensures Increasing(Concat(Left(f, lost)))
  {
    hide Concat, Without, Increasing;
    var gone := lost * f.unsynced;
    ConcatLast(Sifted(f.closed, gone), Without(f.open, gone));
    SiftedRecords(f.closed, gone);
    WithoutConcat(Concat(f.closed), f.open, gone);
    WithoutIncreasing(RecordsOf(f), gone);
  }

  lemma OpenedSound<P>(found: seq<Log<P>>)
    requires Increasing(Concat(found))
    ensures Sound(Opened(found)) && RecordsOf(Opened(found)) == Concat(found)
  {
    hide Concat, Increasing;
    assert Concat(found) + [] == Concat(found);
  }

  class Wal<P> {
    var closed: seq<Log<P>>
    var current: Log<P>
    var seqNum: nat
    var currentSize: nat
    ghost var unsynced: set<nat>
    const setup: Setup

    ghost function View(): Files<P>
      reads this
    {
      Files(closed, current, currentSize, seqNum, unsynced)
    }

    function Records(): Log<P>
      reads this
    {
      Concat(closed) + current
    }

    /** Opens the log left behind by a crash: numbering resumes after the largest number found. */
    constructor (found: seq<Log<P>>, setup: Setup)
      ensures View() == Opened(found) && this.setup == setup
    {
      this.setup := setup;
      closed, current, currentSize := found, [], FILE_HEADER_SIZE;
      var top: nat := 0;
      var i := 0;
      while i < |found|
        invariant 0 <= i <= |found|
        invariant top == MaxSeq(Concat(found[..i]))
      {
        assert found[..i + 1][..i] == found[..i];
        MaxSeqConcat(Concat(found[..i]), found[i]);
        var m := MaxSeq(found[i]);
        if m > top { top := m; }
        i := i + 1;
      }
      assert found[..i] == found;
      seqNum, unsynced := top, {};
    }

    /**
     * Appends under the next number to the open file, and closes the file if that made it full. A refused write
     * gives its number back. If every write has to be synced, one that was not reports an error although the record
     * is in the log; otherwise its number is returned all the same.
     */
    method Append(kind: byte, data: P, timestamp: int, io: Io) returns (r: Option<nat>)
      modifies this
      ensures View() == Written(old(View()), setup, kind, timestamp, data, io)
      ensures r == if Numbered(setup, io) then Some(old(seqNum) + 1) else None
    {
      if io.size > MAX_RECORD_SIZE { return None; }
      seqNum := seqNum + 1;
      if io.device == Refused {
        seqNum := seqNum - 1;
        return None;
      }
      current := current + [Record(seqNum, kind, timestamp, data)];
      currentSize := currentSize + HEADER_SIZE + 12 + io.size;
      unsynced := if io.device == Stored then unsynced - Seqs(current) else unsynced + {seqNum};
      if setup.syncOnWrite && io.device == Unsynced { return None; }
      if currentSize >= setup.maxFileSize {
        if io.rotates {
          closed, current, currentSize := closed + [current], [], FILE_HEADER_SIZE;
        }
      }
      return Some(seqNum);
    }

    /** Removes every closed file whose records are all numbered at most `before`, unless the file system refuses. */
    method Truncate(before: nat, stuck: set<nat>)
      modifies this`closed
      ensures View() == Truncated(old(View()), before, stuck)
    {
      hide MaxSeq;
      var kept: seq<Log<P>> := [];
      for i := 0 to |closed|
        invariant kept == Kept(closed, i, before, stuck) && closed == old(closed)
      {
        if !(MaxSeq(closed[i]) <= before && i !in stuck) {
          kept := kept + [closed[i]];
        }
      }
      closed := kept;
    }
  }
}
