/** Rows, bucket keys, and the recovery of the concurrent buffer from its log. */

module BufferKeys {
  datatype Value = Text(text: string) | Number(number: real) | Flag(flag: bool) | Null

  datatype DataRow = DataRow(id: string, timestamp: int, table: string, fields: map<string, Value>)

  const EMPTY_ID_PLACEHOLDER := "_"

  /** The bucket of a row: table, identifier and day, joined by slashes. */
  function BufferKey(row: DataRow, defaultTable: string, day: string): string {
    var table := if row.table == "" then defaultTable else row.table;
    var idPart := if row.id == "" then EMPTY_ID_PLACEHOLDER else row.id;
    table + "/" + idPart + "/" + day
  }

  predicate InTable(key: string, table: string) {
    table + "/" <= key
  }

  predicate TableName(name: string) {
    name != "" && '/' !in name
  }

  function TombstoneKey(table: string, id: string): string {
    table + "/" + id
  }

  /** For proper table names a bucket key matches the prefix of its own table and of no other. */
  lemma PrefixIsOwnTable(table: string, rest: string, other: string)
    requires TableName(table) && TableName(other)
    ensures InTable(table + "/" + rest, other) <==> table == other
  {
    var key := table + "/" + rest;
    if table == other {
      assert key[..|other| + 1] == other + "/";
    } else if InTable(key, other) {
      SlashPosition(table, rest, other, key[|other| + 1..]);
    }
  }

  /**
   * Rows share a bucket exactly if they share table, identifier and day; a row without a table is in the default
   * table, and one without an identifier goes with those whose identifier is an underscore.
   */
  lemma SameBucketIff(a: DataRow, c: string, b: DataRow, d: string, defaultTable: string)
    requires '/' !in a.table && '/' !in b.table && '/' !in defaultTable && '/' !in a.id && '/' !in b.id
    ensures BufferKey(a, defaultTable, c) == BufferKey(b, defaultTable, d) <==>
            && (if a.table == "" then defaultTable else a.table) == (if b.table == "" then defaultTable else b.table)
            && (a.id == b.id || (a.id == "" && b.id == "_") || (a.id == "_" && b.id == ""))
            && c == d
  {
    var s, t := if a.table == "" then defaultTable else a.table, if b.table == "" then defaultTable else b.table;
    var x, y := if a.id == "" then "_" else a.id, if b.id == "" then "_" else b.id;
    assert BufferKey(a, defaultTable, c) == s + "/" + (x + "/" + c);
    assert BufferKey(b, defaultTable, d) == t + "/" + (y + "/" + d);
    if BufferKey(a, defaultTable, c) == BufferKey(b, defaultTable, d) {
      SlashPosition(s, x + "/" + c, t, y + "/" + d);
      SlashPosition(x, c, y, d);
    }
  }

  /** A slash-free name in front of the first slash can be read back. */
  lemma {:induction false} SlashPosition(a: string, x: string, b: string, y: string)
    requires '/' !in a && '/' !in b
    requires a + "/" + x == b + "/" + y
    ensures a == b && x == y
  {
    var s := a + "/" + x;
    assert s[1..] == (if a == [] then x else a[1..] + "/" + x);
    assert s[1..] == (if b == [] then y else b[1..] + "/" + y);
    assert s[0] == (if a == [] then '/' else a[0]);
    assert s[0] == (if b == [] then '/' else b[0]);
    if a != [] && b != [] {
      SlashPosition(a[1..], x, b[1..], y);
      assert a == [a[0]] + a[1..] && b == [b[0]] + b[1..];
    }
  }
}

module BufferReplay {
  import opened Prelude
  import opened WalCodec
  import opened Wal
  import opened BufferKeys

  /** What a log record holds; payloads that do not parse are passed over. */
  datatype Payload = Row(key: string, row: DataRow) | Tombstone(table: string, id: string) | Unparsable

  type Buffer = map<string, seq<DataRow>>

  // Removal of an identifier from a table's buckets

  function Keep(rows: seq<DataRow>, id: string): seq<DataRow> {
    if rows == [] then []
    else Keep(rows[..|rows| - 1], id) + (if rows[|rows| - 1].id != id then [rows[|rows| - 1]] else [])
  }

  /** The buckets without the rows of `id` in `table`; buckets left empty are dropped. */
  function Purge(b: Buffer, table: string, id: string): Buffer {
    map k | k in b && (InTable(k, table) ==> Keep(b[k], id) != []) ::
      if InTable(k, table) then Keep(b[k], id) else b[k]
  }

  method KeepRows(rows: seq<DataRow>, id: string) returns (kept: seq<DataRow>)
    ensures kept == Keep(rows, id)
  {
    kept := [];
    for i := 0 to |rows|
      invariant kept == Keep(rows[..i], id)
    {
      assert rows[..i + 1][..i] == rows[..i];
      if rows[i].id != id { kept := kept + [rows[i]]; }
    }
    assert rows[..|rows|] == rows;
  }

  lemma {:induction false} KeepDropsSomething(rows: seq<DataRow>, id: string)
    ensures Keep(rows, id) != rows ==> |Keep(rows, id)| < |rows|
    ensures |Keep(rows, id)| <= |rows|
    ensures Keep(rows, id) == rows <==> forall row <- rows :: row.id != id
  {
    if rows != [] {
      var front, last := rows[..|rows| - 1], rows[|rows| - 1];
      assert rows == front + [last];
      KeepDropsSomething(front, id);
    }
  }

  lemma ReplaceBucket(b: Buffer, k: string, rows: seq<DataRow>)
    requires k in b
    ensures |Flatten(if rows == [] then b - {k} else b[k := rows])| == |Flatten(b)| - |b[k]| + |rows|
  {
    hide Flatten;
    FlattenPick(b, k);
    FlattenPut(b, k, rows);
  }

  /** Goes through the buckets in any order, as ranging over a map does, and counts what it removes. */
  method PurgeBuckets(b: Buffer, table: string, id: string) returns (r: Buffer, removed: nat)
    ensures r == Purge(b, table, id)
    ensures removed + |Flatten(r)| == |Flatten(b)|
  {
    hide Keep, Flatten, InTable;
    r, removed := b, 0;
    var todo := b.Keys;
    while todo != {}
      invariant todo <= b.Keys
      invariant forall k <- todo :: k in r && r[k] == b[k]
      invariant forall k <- b.Keys - todo :: k in r <==> k in Purge(b, table, id)
      invariant forall k <- b.Keys - todo :: k in r ==> r[k] == Purge(b, table, id)[k]
      invariant r.Keys <= b.Keys
      invariant removed + |Flatten(r)| == |Flatten(b)|
      decreases |todo|
    {
      var k :| k in todo;
      todo := todo - {k};
      if InTable(k, table) {
        var kept := KeepRows(b[k], id);
        KeepDropsSomething(b[k], id);
        ReplaceBucket(r, k, kept);
        removed := removed + (|b[k]| - |kept|);
        r := if kept == [] then r - {k} else r[k := kept];
      }
    }
    assert r.Keys == Purge(b, table, id).Keys;
  }

  // Replay

  /** Recovery's working state: buckets, per-bucket numbers, tombstones seen, rows counted. */
  datatype Recovery = Recovery(
    buffer: Buffer, lastSeq: map<string, nat>, tombstones: set<string>, recovered: nat, buried: nat, maxSeq: nat)

  function At(m: map<string, nat>, k: string): nat {
    if k in m then m[k] else 0
  }

  function RowsAt(b: Buffer, k: string): seq<DataRow> {
    if k in b then b[k] else []
  }

  function ReplayRecord(m: Recovery, r: Record<Payload>): Recovery {
    var m1 := m.(maxSeq := if r.seqNum > m.maxSeq then r.seqNum else m.maxSeq);
    match r.data
    case Unparsable => m1
    case Row(key, row) =>
      if TombstoneKey(row.table, row.id) in m.tombstones then m1
      else m1.(buffer := m.buffer[key := RowsAt(m.buffer, key) + [row]],
               lastSeq := if r.seqNum > At(m.lastSeq, key) then m.lastSeq[key := r.seqNum] else m.lastSeq,
               recovered := m.recovered + 1)
    case Tombstone(table, id) =>
      m1.(tombstones := m.tombstones + {TombstoneKey(table, id)},
          buffer := Purge(m.buffer, table, id), buried := m.buried + 1)
  }

  function ReplayLog(log: Log<Payload>): Recovery {
    if log == [] then Recovery(map[], map[], {}, 0, 0, 0)
    else ReplayRecord(ReplayLog(log[..|log| - 1]), log[|log| - 1])
  }

  method Replay(log: Log<Payload>) returns (m: Recovery)
    ensures m == ReplayLog(log)
  {
    hide Purge;
    m := Recovery(map[], map[], {}, 0, 0, 0);
    for i := 0 to |log|
      invariant m == ReplayLog(log[..i])
    {
      assert log[..i + 1][..i] == log[..i];
      var r := log[i];
      if r.seqNum > m.maxSeq { m := m.(maxSeq := r.seqNum); }
      match r.data
      case Unparsable =>
      case Row(key, row) =>
        if TombstoneKey(row.table, row.id) !in m.tombstones {
          m := m.(buffer := m.buffer[key := RowsAt(m.buffer, key) + [row]]);
          if r.seqNum > At(m.lastSeq, key) { m := m.(lastSeq := m.lastSeq[key := r.seqNum]); }
          m := m.(recovered := m.recovered + 1);
        }
      case Tombstone(table, id) =>
        m := m.(tombstones := m.tombstones + {TombstoneKey(table, id)});
        var purged, _ := PurgeBuckets(m.buffer, table, id);
        m := m.(buffer := purged, buried := m.buried + 1);
    }
    assert log[..|log|] == log;
  }

  // Which rows survive

  /** The row at `i` was not dropped on sight: no earlier tombstone has its table and identifier. */
  ghost predicate Unburied(log: Log<Payload>, i: nat)
    requires i < |log| && log[i].data.Row?
  {
    forall j | 0 <= j < i && log[j].data.Tombstone? ::
      TombstoneKey(log[j].data.table, log[j].data.id) != TombstoneKey(log[i].data.row.table, log[i].data.row.id)
  }

  /** The row at `i` was not removed afterwards: no later tombstone covers its bucket and identifier. */
  ghost predicate Untouched(log: Log<Payload>, i: nat)
    requires i < |log| && log[i].data.Row?
  {
    forall j | i < j < |log| && log[j].data.Tombstone? ::
      !(InTable(log[i].data.key, log[j].data.table) && log[i].data.row.id == log[j].data.id)
  }

  /** The untouched rows of a bucket among the first `n` records; with `strict`, the unburied of those. */
  ghost function Surviving(log: Log<Payload>, key: string, n: nat, strict: bool): seq<DataRow>
    requires n <= |log|
  {
    if n == 0 then []
    else
      Surviving(log, key, n - 1, strict) +
      (if && log[n - 1].data.Row? && log[n - 1].data.key == key && Untouched(log, n - 1)
          && (strict ==> Unburied(log, n - 1))
       then [log[n - 1].data.row] else [])
  }

  /** `b` holds exactly the surviving rows, in log order per bucket, and no empty bucket. */
  ghost predicate HoldsSurviving(b: Buffer, log: Log<Payload>, strict: bool) {
    && (forall k <- b :: b[k] != [])
    && (forall k :: RowsAt(b, k) == Surviving(log, k, |log|, strict))
  }

  lemma {:induction false} SurvivingAppendOther(log: Log<Payload>, r: Record<Payload>, key: string, n: nat,
                                                strict: bool)
    requires n <= |log| && !r.data.Tombstone?
    ensures Surviving(log + [r], key, n, strict) == Surviving(log, key, n, strict)
  {
    if n > 0 {
      SurvivingAppendOther(log, r, key, n - 1, strict);
      assert (log + [r])[n - 1] == log[n - 1];
      if log[n - 1].data.Row? {
        SameFate(log, r, n - 1);
      }
    }
  }

  lemma SameFate(log: Log<Payload>, r: Record<Payload>, i: nat)
    requires i < |log| && log[i].data.Row?
    ensures Unburied(log + [r], i) == Unburied(log, i)
    ensures Untouched(log + [r], i) ==
            (Untouched(log, i) &&
             !(r.data.Tombstone? && InTable(log[i].data.key, r.data.table) && log[i].data.row.id == r.data.id))
  {
    var log' := log + [r];
    assert log'[|log|] == r;
    assert forall j | 0 <= j < |log| :: log'[j] == log[j];
  }

  lemma {:induction false} SurvivingAppendTombstone(log: Log<Payload>, r: Record<Payload>, key: string, n: nat,
                                                    strict: bool)
    requires n <= |log| && r.data.Tombstone?
    ensures Surviving(log + [r], key, n, strict) ==
            (if InTable(key, r.data.table) then Keep(Surviving(log, key, n, strict), r.data.id)
             else Surviving(log, key, n, strict))
  {
    hide Untouched, Unburied, InTable, Keep;
    if n > 0 {
      SurvivingAppendTombstone(log, r, key, n - 1, strict);
      assert (log + [r])[n - 1] == log[n - 1];
      var s := Surviving(log, key, n - 1, strict);
      assert s + [] == s;
      if log[n - 1].data.Row? {
        SameFate(log, r, n - 1);
        KeepNext(s, log[n - 1].data.row, r.data.id);
      }
    } else {
      assert Keep([], r.data.id) == [] by { KeepNone(r.data.id); }
    }
  }

  lemma KeepNext(rows: seq<DataRow>, row: DataRow, id: string)
    ensures Keep(rows + [row], id) == Keep(rows, id) + (if row.id != id then [row] else [])
  {
    assert (rows + [row])[..|rows|] == rows;
  }

  lemma KeepNone(id: string)
    ensures Keep([], id) == []
  {
  }

  // Replay keeps exactly the surviving rows

  ghost predicate TombstonesSeen(m: Recovery, log: Log<Payload>) {
    forall t :: t in m.tombstones <==>
      exists j | 0 <= j < |log| && log[j].data.Tombstone? :: TombstoneKey(log[j].data.table, log[j].data.id) == t
  }

  lemma PurgeHoldsSurviving(b: Buffer, log: Log<Payload>, r: Record<Payload>, strict: bool)
    requires HoldsSurviving(b, log, strict) && r.data.Tombstone?
    ensures HoldsSurviving(Purge(b, r.data.table, r.data.id), log + [r], strict)
  {
    var table, id := r.data.table, r.data.id;
    var b' := Purge(b, table, id);
    KeepNone(id);
    hide Keep, InTable;
    forall k ensures RowsAt(b', k) == Surviving(log + [r], k, |log + [r]|, strict) {
      SurvivingAppendTombstone(log, r, k, |log|, strict);
      assert RowsAt(b, k) == Surviving(log, k, |log|, strict);
    }
  }

  lemma AppendHoldsSurviving(b: Buffer, log: Log<Payload>, r: Record<Payload>, strict: bool)
    requires HoldsSurviving(b, log, strict) && r.data.Row?
    requires strict ==> Unburied(log + [r], |log|)
    ensures HoldsSurviving(b[r.data.key := RowsAt(b, r.data.key) + [r.data.row]], log + [r], strict)
  {
    hide Untouched, Unburied, Surviving;
    var b' := b[r.data.key := RowsAt(b, r.data.key) + [r.data.row]];
    forall k ensures RowsAt(b', k) == Surviving(log + [r], k, |log + [r]|, strict) {
      SurvivingLast(log, r, k, strict);
      assert RowsAt(b, k) == Surviving(log, k, |log|, strict);
    }
  }

  lemma SkipHoldsSurviving(b: Buffer, log: Log<Payload>, r: Record<Payload>, strict: bool)
    requires HoldsSurviving(b, log, strict) && !r.data.Tombstone?
    requires r.data.Row? ==> strict && !Unburied(log + [r], |log|)
    ensures HoldsSurviving(b, log + [r], strict)
  {
    hide Untouched, Unburied, Surviving;
    forall k ensures RowsAt(b, k) == Surviving(log + [r], k, |log + [r]|, strict) {
      SurvivingLast(log, r, k, strict);
      assert RowsAt(b, k) == Surviving(log, k, |log|, strict);
    }
  }

  lemma SurvivingLast(log: Log<Payload>, r: Record<Payload>, key: string, strict: bool)
    requires !r.data.Tombstone?
    ensures Surviving(log + [r], key, |log| + 1, strict) ==
            Surviving(log, key, |log|, strict) +
            (if r.data.Row? && r.data.key == key && (strict ==> Unburied(log + [r], |log|)) then [r.data.row] else [])
  {
    SurvivingAppendOther(log, r, key, |log|, strict);
    assert (log + [r])[|log|] == r;
    assert r.data.Row? ==> Untouched(log + [r], |log|);
    hide Unburied, Untouched;
  }

  lemma SeenMeansBuried(m: Recovery, log: Log<Payload>, r: Record<Payload>)
    requires TombstonesSeen(m, log) && r.data.Row?
    ensures Unburied(log + [r], |log|) <==> TombstoneKey(r.data.row.table, r.data.row.id) !in m.tombstones
  {
    var log' := log + [r];
    assert log'[|log|] == r;
    assert forall j | 0 <= j < |log| :: log'[j] == log[j];
  }

  lemma SeenNext(log: Log<Payload>, r: Record<Payload>)
    requires TombstonesSeen(ReplayLog(log), log)
    ensures TombstonesSeen(ReplayRecord(ReplayLog(log), r), log + [r])
  {
    hide Purge;
    var m, m', log' := ReplayLog(log), ReplayRecord(ReplayLog(log), r), log + [r];
    assert log'[|log|] == r;
    assert forall j | 0 <= j < |log| :: log'[j] == log[j];
    forall t | t in m'.tombstones
      ensures exists j | 0 <= j < |log'| && log'[j].data.Tombstone? ::
                TombstoneKey(log'[j].data.table, log'[j].data.id) == t
    {
      if t in m.tombstones {
        var j :| 0 <= j < |log| && log[j].data.Tombstone? && TombstoneKey(log[j].data.table, log[j].data.id) == t;
        assert log'[j] == log[j];
      }
    }
  }

  /**
   * Recovery, for every log. After replay each bucket holds exactly those of its data records
   * that no earlier tombstone names and no later tombstone covers, in log order; no bucket is empty.
   */
  lemma {:induction false} ReplayKeepsSurvivors(log: Log<Payload>)
    ensures HoldsSurviving(ReplayLog(log).buffer, log, true)
    ensures TombstonesSeen(ReplayLog(log), log)
  {
    hide Purge, HoldsSurviving, TombstonesSeen;
    if log == [] {
      EmptyHoldsNothing();
    } else {
      var front, r := log[..|log| - 1], log[|log| - 1];
      assert log == front + [r];
      var m := ReplayLog(front);
      ReplayKeepsSurvivors(front);
      SeenNext(front, r);
      match r.data
      case Unparsable => SkipHoldsSurviving(m.buffer, front, r, true);
      case Tombstone(_, _) => PurgeHoldsSurviving(m.buffer, front, r, true);
      case Row(key, row) =>
        SeenMeansBuried(m, front, r);
        if TombstoneKey(row.table, row.id) in m.tombstones {
          SkipHoldsSurviving(m.buffer, front, r, true);
        } else {
          AppendHoldsSurviving(m.buffer, front, r, true);
        }
    }
  }

  lemma EmptyHoldsNothing()
    ensures HoldsSurviving(map[], [], true) && HoldsSurviving(map[], [], false)
    ensures TombstonesSeen(ReplayLog([]), [])
  {
  }

  // The numbers replay keeps

  ghost function UnburiedRows(log: Log<Payload>): (rows: set<nat>)
    ensures forall i <- rows :: i < |log| && log[i].data.Row?
  {
    set i: nat | i < |log| && log[i].data.Row? && Unburied(log, i)
  }

  ghost function TombstoneRecords(log: Log<Payload>): set<nat> {
    set i: nat | i < |log| && log[i].data.Tombstone?
  }

  lemma UnburiedNext(log: Log<Payload>, r: Record<Payload>)
    ensures UnburiedRows(log + [r]) ==
            UnburiedRows(log) + (if r.data.Row? && Unburied(log + [r], |log|) then {|log|} else {})
    ensures TombstoneRecords(log + [r]) == TombstoneRecords(log) + (if r.data.Tombstone? then {|log|} else {})
  {
    assert (log + [r])[|log|] == r;
    forall i | 0 <= i < |log| && log[i].data.Row? ensures Unburied(log + [r], i) == Unburied(log, i) {
      SameFate(log, r, i);
    }
    hide Unburied;
  }

  /** The number kept for a bucket: the largest among its rows that were not dropped on sight, or zero. */
  ghost predicate LargestOfBucket(log: Log<Payload>, key: string, n: nat) {
    && (forall i <- UnburiedRows(log) | log[i].data.key == key :: log[i].seqNum <= n)
    && (n == 0 || exists i <- UnburiedRows(log) :: log[i].data.key == key && log[i].seqNum == n)
  }

  lemma LargestNext(log: Log<Payload>, r: Record<Payload>, key: string, n: nat)
    requires LargestOfBucket(log, key, n)
    ensures var mine := r.data.Row? && r.data.key == key && Unburied(log + [r], |log|);
            LargestOfBucket(log + [r], key, if mine && r.seqNum > n then r.seqNum else n)
  {
    UnburiedNext(log, r);
    hide UnburiedRows, Unburied;
    var more := log + [r];
    assert more[|log|] == r;
    if n != 0 {
      var i :| i in UnburiedRows(log) && log[i].data.key == key && log[i].seqNum == n;
      assert more[i] == log[i] && i in UnburiedRows(more);
    }
    assert r.data.Row? && Unburied(more, |log|) ==> |log| in UnburiedRows(more);
    forall i | i in UnburiedRows(more) && more[i].data.key == key && i < |log| ensures more[i].seqNum <= n {
      assert more[i] == log[i];
    }
  }

  /**
   * What replay counts: the rows not dropped on sight, the tombstones, each bucket's largest number among those rows,
   * and the largest number of all.
   */
  lemma {:induction false} ReplayNumbers(log: Log<Payload>)
    ensures var m := ReplayLog(log);
            && m.recovered == |UnburiedRows(log)| && m.buried == |TombstoneRecords(log)|
            && (forall key :: LargestOfBucket(log, key, At(m.lastSeq, key)))
            && m.maxSeq == MaxSeq(log)
  {
    if log == [] {
      assert UnburiedRows(log) == {} && TombstoneRecords(log) == {};
    } else {
      var front, r := log[..|log| - 1], log[|log| - 1];
      assert log == front + [r];
      var m := ReplayLog(front);
      ReplayNumbers(front);
      ReplayKeepsSurvivors(front);
      if r.data.Row? { SeenMeansBuried(m, front, r); }
      CountsNext(front, r);
      hide Purge, UnburiedRows, TombstoneRecords, LargestOfBucket, Unburied, HoldsSurviving, TombstonesSeen, MaxSeq;
      MaxNext(front, r);
      var last := ReplayRecord(m, r).lastSeq;
      forall key ensures LargestOfBucket(log, key, At(last, key)) {
        LargestNext(front, r, key, At(m.lastSeq, key));
      }
    }
  }

  lemma MaxNext(log: Log<Payload>, r: Record<Payload>)
    ensures MaxSeq(log + [r]) == if r.seqNum > MaxSeq(log) then r.seqNum else MaxSeq(log)
  {
    assert (log + [r])[..|log|] == log;
  }

  lemma CountsNext(log: Log<Payload>, r: Record<Payload>)
    ensures |UnburiedRows(log + [r])| ==
            |UnburiedRows(log)| + (if r.data.Row? && Unburied(log + [r], |log|) then 1 else 0)
    ensures |TombstoneRecords(log + [r])| == |TombstoneRecords(log)| + (if r.data.Tombstone? then 1 else 0)
  {
    UnburiedNext(log, r);
    assert |log| !in UnburiedRows(log) && |log| !in TombstoneRecords(log);
  }

  // Proper table names

  /** Row keys start with the row's own table, and table names are non-empty and slash-free. */
  predicate WellNamed(p: Payload) {
    match p
    case Row(key, row) => TableName(row.table) && InTable(key, row.table)
    case Tombstone(table, _) => TableName(table)
    case Unparsable => true
  }

  ghost predicate Tombstoned(log: Log<Payload>, row: DataRow) {
    exists j | 0 <= j < |log| && log[j].data.Tombstone? :: log[j].data.table == row.table && log[j].data.id == row.id
  }

  ghost function NotTombstoned(log: Log<Payload>, key: string, n: nat): seq<DataRow>
    requires n <= |log|
  {
    if n == 0 then []
    else
      NotTombstoned(log, key, n - 1) +
      (if log[n - 1].data.Row? && log[n - 1].data.key == key && !Tombstoned(log, log[n - 1].data.row)
       then [log[n - 1].data.row] else [])
  }

  lemma NamesAgree(p: Payload, q: Payload)
    requires p.Row? && q.Tombstone? && WellNamed(p) && WellNamed(q)
    ensures TombstoneKey(p.row.table, p.row.id) == TombstoneKey(q.table, q.id)
            <==> p.row.table == q.table && p.row.id == q.id
    ensures InTable(p.key, q.table) <==> p.row.table == q.table
  {
    if TombstoneKey(p.row.table, p.row.id) == TombstoneKey(q.table, q.id) {
      SlashPosition(p.row.table, p.row.id, q.table, q.id);
    }
    var rest := p.key[|p.row.table| + 1..];
    assert p.key == p.row.table + "/" + rest;
    PrefixIsOwnTable(p.row.table, rest, q.table);
  }

  lemma FateByName(log: Log<Payload>, i: nat)
    requires i < |log| && log[i].data.Row? && forall r <- log :: WellNamed(r.data)
    ensures Untouched(log, i) && Unburied(log, i) <==> !Tombstoned(log, log[i].data.row)
  {
    forall j | 0 <= j < |log| && log[j].data.Tombstone?
      ensures TombstoneKey(log[j].data.table, log[j].data.id) == TombstoneKey(log[i].data.row.table, log[i].data.row.id)
              <==> log[j].data.table == log[i].data.row.table && log[j].data.id == log[i].data.row.id
      ensures InTable(log[i].data.key, log[j].data.table) <==> log[j].data.table == log[i].data.row.table
    {
      NamesAgree(log[i].data, log[j].data);
    }
    hide InTable, TombstoneKey, WellNamed;
  }

  lemma {:induction false} SurvivingByName(log: Log<Payload>, key: string, n: nat)
    requires n <= |log| && forall r <- log :: WellNamed(r.data)
    ensures Surviving(log, key, n, true) == NotTombstoned(log, key, n)
  {
    hide Untouched, Unburied, Tombstoned, WellNamed;
    if n > 0 {
      SurvivingByName(log, key, n - 1);
      if log[n - 1].data.Row? {
        FateByName(log, n - 1);
      }
    }
  }

  /** With proper names, replay leaves exactly the rows whose table and identifier have no tombstone anywhere. */
  lemma ReplayDropsExactlyTheTombstoned(log: Log<Payload>, key: string)
    requires forall r <- log :: WellNamed(r.data)
    ensures RowsAt(ReplayLog(log).buffer, key) == NotTombstoned(log, key, |log|)
    ensures key in ReplayLog(log).buffer ==> ReplayLog(log).buffer[key] != []
  {
    ReplayKeepsSurvivors(log);
    SurvivingByName(log, key, |log|);
  }

  // Runs of adds and removes

  datatype Memory = Memory(buffer: Buffer, log: Log<Payload>)

  datatype Call = Add(row: DataRow, day: string) | Remove(table: string, id: string)

  predicate Removes(b: Buffer, table: string, id: string) {
    exists k <- b :: InTable(k, table) && Keep(b[k], id) != b[k]
  }

  /** Add and Remove when the log accepts every write and no bucket is flushed. */
  function CallStep(s: Memory, c: Call, defaultTable: string): Memory {
    match c
    case Add(row, day) =>
      var key := BufferKey(row, defaultTable, day);
      Memory(s.buffer[key := RowsAt(s.buffer, key) + [row]],
             s.log + [Record(|s.log| + 1, RECORD_TYPE_DATA, 0, Row(key, row))])
    case Remove(table, id) =>
      Memory(Purge(s.buffer, table, id),
             if Removes(s.buffer, table, id)
             then s.log + [Record(|s.log| + 1, RECORD_TYPE_TOMBSTONE, 0, Tombstone(table, id))] else s.log)
  }

  function Calls(cs: seq<Call>, defaultTable: string): Memory {
    if cs == [] then Memory(map[], [])
    else CallStep(Calls(cs[..|cs| - 1], defaultTable), cs[|cs| - 1], defaultTable)
  }

  /** The live buffer holds the rows no later tombstone covers: burial plays no part in it. */
  lemma {:induction false} LiveBufferIsUntouched(cs: seq<Call>, defaultTable: string)
    ensures var s := Calls(cs, defaultTable); HoldsSurviving(s.buffer, s.log, false)
  {
    hide HoldsSurviving, Purge, Removes, BufferKey;
    if cs == [] {
      EmptyHoldsNothing();
    } else {
      var front, c := cs[..|cs| - 1], cs[|cs| - 1];
      var s := Calls(front, defaultTable);
      LiveBufferIsUntouched(front, defaultTable);
      match c
      case Add(row, day) =>
        var r := Record(|s.log| + 1, RECORD_TYPE_DATA, 0, Row(BufferKey(row, defaultTable, day), row));
        AppendHoldsSurviving(s.buffer, s.log, r, false);
      case Remove(table, id) =>
        if Removes(s.buffer, table, id) {
          PurgeHoldsSurviving(s.buffer, s.log, Record(|s.log| + 1, RECORD_TYPE_TOMBSTONE, 0, Tombstone(table, id)),
                              false);
        } else {
          PurgeOfNothing(s.buffer, s.log, table, id);
        }
    }
  }

  lemma PurgeOfNothing(b: Buffer, log: Log<Payload>, table: string, id: string)
    requires HoldsSurviving(b, log, false) && !Removes(b, table, id)
    ensures Purge(b, table, id) == b
  {
    hide Keep, Surviving;
  }

  /** No row that is still buffered was added after a tombstone for its table and identifier. */
  ghost predicate NoReAddPending(log: Log<Payload>) {
    forall i | 0 <= i < |log| && log[i].data.Row? && Untouched(log, i) :: Unburied(log, i)
  }

  lemma {:induction false} StrictIsShorter(log: Log<Payload>, key: string, n: nat)
    requires n <= |log|
    ensures |Surviving(log, key, n, true)| <= |Surviving(log, key, n, false)|
    ensures (exists i | 0 <= i < n && log[i].data.Row? && log[i].data.key == key ::
               Untouched(log, i) && !Unburied(log, i))
            ==> |Surviving(log, key, n, true)| < |Surviving(log, key, n, false)|
  {
    hide Untouched, Unburied;
    if n > 0 {
      StrictIsShorter(log, key, n - 1);
    }
  }

  lemma {:induction false} StrictIsSame(log: Log<Payload>, key: string, n: nat)
    requires n <= |log| && NoReAddPending(log)
    ensures Surviving(log, key, n, true) == Surviving(log, key, n, false)
  {
    hide Untouched, Unburied;
    if n > 0 {
      StrictIsSame(log, key, n - 1);
    }
  }

  /**
   * After any run of adds and removes, a crash and replay rebuild the live buffer exactly, bucket
   * by bucket, if and only if no row still buffered was re-added after a removal of its identifier.
   */
  lemma ReplayRebuildsIffNoReAdd(cs: seq<Call>, defaultTable: string)
    ensures var s := Calls(cs, defaultTable);
            ReplayLog(s.log).buffer == s.buffer <==> NoReAddPending(s.log)
  {
    var s := Calls(cs, defaultTable);
    LiveBufferIsUntouched(cs, defaultTable);
    ReplayKeepsSurvivors(s.log);
    var b := ReplayLog(s.log).buffer;
    hide Calls, ReplayLog, Surviving;
    if NoReAddPending(s.log) {
      forall k ensures RowsAt(b, k) == RowsAt(s.buffer, k) {
        StrictIsSame(s.log, k, |s.log|);
      }
      SameBuckets(b, s.buffer);
    } else {
      hide Untouched, Unburied;
      var i :| 0 <= i < |s.log| && s.log[i].data.Row? && Untouched(s.log, i) && !Unburied(s.log, i);
      var k := s.log[i].data.key;
      StrictIsShorter(s.log, k, |s.log|);
      assert RowsAt(b, k) != RowsAt(s.buffer, k);
    }
  }

  /** Such a run: a row is added, removed and added again; it is buffered, but replay would drop it. */
  lemma ReAddedRowIsDropped(row: DataRow)
    requires row.table == "t" && row.id == "a"
    ensures var s := Calls([Add(row, "d"), Remove("t", "a"), Add(row, "d")], "t");
            ReplayLog(s.log).buffer != s.buffer
  {
    var cs := [Add(row, "d"), Remove("t", "a"), Add(row, "d")];
    ReplayRebuildsIffNoReAdd(cs, "t");
    var log := ReAddLog(row);
    hide ReplayLog, BufferKey, InTable, Calls;
    assert Untouched(log, 2) && !Unburied(log, 2);
  }

  lemma ReAddLog(row: DataRow) returns (log: Log<Payload>)
    requires row.table == "t" && row.id == "a"
    ensures log == Calls([Add(row, "d"), Remove("t", "a"), Add(row, "d")], "t").log
    ensures |log| == 3 && log[1].data == Tombstone("t", "a") && log[2].data == Row(BufferKey(row, "t", "d"), row)
  {
    var cs := [Add(row, "d"), Remove("t", "a"), Add(row, "d")];
    var key := BufferKey(row, "t", "d");
    assert InTable(key, "t") by { assert key == "t" + "/" + "a" + "/" + "d" && (key[..2] == "t" + "/"); }
    hide BufferKey, InTable;
    var none: Memory := Memory(map[], []);
    var s1 := CallStep(none, cs[0], "t");
    var s2 := CallStep(s1, cs[1], "t");
    assert s1.buffer == map[key := [row]] by { assert [] + [row] == [row]; }
    assert Keep([row], "a") == [] by { assert [row][..0] == []; }
    assert Removes(s1.buffer, "t", "a");
    assert s2.log == [s1.log[0], Record(2, RECORD_TYPE_TOMBSTONE, 0, Tombstone("t", "a"))];
    log := CallStep(s2, cs[2], "t").log;
    hide CallStep;
    assert cs[..2] == [cs[0], cs[1]] && [cs[0], cs[1]][..1] == [cs[0]] && [cs[0]][..0] == [];
    assert Calls([], "t") == none && Calls([cs[0]], "t") == s1 && Calls([cs[0], cs[1]], "t") == s2;
  }

  lemma SameBuckets(b: Buffer, c: Buffer)
    requires (forall k <- b :: b[k] != []) && (forall k <- c :: c[k] != [])
    requires forall k :: RowsAt(b, k) == RowsAt(c, k)
    ensures b == c
  {
    forall k ensures k in b <==> k in c {
      assert RowsAt(b, k) == RowsAt(c, k);
    }
    forall k | k in b ensures b[k] == c[k] {
      assert RowsAt(b, k) == RowsAt(c, k);
    }
  }
}
