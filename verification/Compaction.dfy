/** Tiered compaction: merging small objects of a table into larger ones, one upload or delete at a time. */
module Compaction {
  import opened Prelude

  type Path = string

  datatype FileInfo = FileInfo(path: Path, size: int, modTime: int)

  datatype Level = Level(name: string, maxFileSize: int, minFilesToMerge: int, cooldown: int)

  datatype Config = Config(levels: seq<Level>, maxFilesToMerge: nat, maxRowsPerFile: int)

  /** The table's objects in the bucket, each with the records it holds. */
  type Store<R> = map<Path, seq<R>>

  const DEFAULT_MAX_ROWS := 1_000_000

  function MaxRows(c: Config): (n: nat)
    ensures n > 0
  {
    if c.maxRowsPerFile <= 0 then DEFAULT_MAX_ROWS else c.maxRowsPerFile
  }

  // Levels

  function FileLevel(levels: seq<Level>, size: int): (name: string)
    ensures levels != [] ==> exists l <- levels :: l.name == name
  {
    if levels == [] then ""
    else if size <= levels[0].maxFileSize || |levels| == 1 then levels[0].name
    else
      var name := FileLevel(levels[1..], size);
      assert exists l <- levels[1..] :: l.name == name;
      name
  }

  /** A file belongs to the first level it fits into, or to the last if it fits into none. */
  lemma {:induction false} FirstLevelThatFits(levels: seq<Level>, size: int) returns (i: nat)
    requires levels != []
    ensures i < |levels| && FileLevel(levels, size) == levels[i].name
    ensures forall j | 0 <= j < i :: size > levels[j].maxFileSize
    ensures size <= levels[i].maxFileSize || i == |levels| - 1
  {
    if size <= levels[0].maxFileSize || |levels| == 1 {
      i := 0;
    } else {
      var k := FirstLevelThatFits(levels[1..], size);
      i := k + 1;
    }
  }

  function OfLevel(levels: seq<Level>, files: seq<FileInfo>, name: string): seq<FileInfo> {
    if files == [] then []
    else
      var f := files[|files| - 1];
      OfLevel(levels, files[..|files| - 1], name) + (if FileLevel(levels, f.size) == name then [f] else [])
  }

  lemma {:induction false} OfLevelMembers(levels: seq<Level>, files: seq<FileInfo>, name: string, f: FileInfo)
    ensures f in OfLevel(levels, files, name) <==> f in files && FileLevel(levels, f.size) == name
  {
    hide FileLevel;
    if files != [] {
      OfLevelMembers(levels, files[..|files| - 1], name, f);
      assert files == files[..|files| - 1] + [files[|files| - 1]];
    }
  }

  ghost predicate DistinctNames(levels: seq<Level>) {
    forall i, j | 0 <= i < j < |levels| :: levels[i].name != levels[j].name
  }

  ghost predicate DistinctPaths(files: seq<FileInfo>) {
    forall i, j | 0 <= i < j < |files| :: files[i].path != files[j].path
  }

  lemma {:induction false} OfLevelCount(levels: seq<Level>, files: seq<FileInfo>, name: string, f: FileInfo)
    ensures multiset(OfLevel(levels, files, name))[f] ==
            if FileLevel(levels, f.size) == name then multiset(files)[f] else 0
  {
    hide FileLevel;
    if files != [] {
      OfLevelCount(levels, files[..|files| - 1], name, f);
      assert files == files[..|files| - 1] + [files[|files| - 1]];
    }
  }

  /** The levels partition the files: `home` holds every occurrence of the file, and no other level holds any. */
  lemma LevelsPartitionFiles(levels: seq<Level>, files: seq<FileInfo>, f: FileInfo) returns (home: nat)
    requires DistinctNames(levels) && levels != []
    ensures home < |levels| && multiset(OfLevel(levels, files, levels[home].name))[f] == multiset(files)[f]
    ensures forall i | 0 <= i < |levels| && i != home :: f !in OfLevel(levels, files, levels[i].name)
  {
    home :| 0 <= home < |levels| && levels[home].name == FileLevel(levels, f.size);
    hide FileLevel, OfLevel;
    OfLevelCount(levels, files, levels[home].name, f);
    forall i | 0 <= i < |levels| && i != home ensures f !in OfLevel(levels, files, levels[i].name) {
      OfLevelCount(levels, files, levels[i].name, f);
    }
  }

  method ClassifyFilesByTier(levels: seq<Level>, files: seq<FileInfo>) returns (tiers: map<string, seq<FileInfo>>)
    ensures forall l <- levels :: l.name in tiers && tiers[l.name] == OfLevel(levels, files, l.name)
  {
    hide FileLevel;
    tiers := map[];
    for i := 0 to |levels|
      invariant forall l <- levels[..i] :: l.name in tiers
      invariant forall name <- tiers :: tiers[name] == []
    {
      tiers := tiers[levels[i].name := []];
      assert levels[..i + 1] == levels[..i] + [levels[i]];
    }
    assert levels[..|levels|] == levels;
    for j := 0 to |files|
      invariant forall l <- levels :: l.name in tiers && tiers[l.name] == OfLevel(levels, files[..j], l.name)
    {
      var name := FileLevel(levels, files[j].size);
      assert files[..j + 1][..j] == files[..j];
      if name in tiers {
        tiers := tiers[name := tiers[name] + [files[j]]];
      }
    }
    assert files[..|files|] == files;
  }

  // Candidates of a level

  predicate Before(a: FileInfo, b: FileInfo) {
    if a.size != b.size then a.size < b.size else a.modTime < b.modTime
  }

  predicate Eligible(f: FileInfo, level: Level, now: int) {
    now - f.modTime >= level.cooldown && f.size <= level.maxFileSize
  }

  ghost predicate Ordered(files: seq<FileInfo>) {
    forall i, j | 0 <= i < j < |files| :: !Before(files[j], files[i])
  }

  lemma InsertedOrdered(sorted: seq<FileInfo>, f: FileInfo, k: nat)
    requires Ordered(sorted) && k <= |sorted|
    requires k > 0 ==> !Before(f, sorted[k - 1])
    requires forall i | k <= i < |sorted| :: Before(f, sorted[i])
    ensures Ordered(sorted[..k] + [f] + sorted[k..])
  {
    var r := sorted[..k] + [f] + sorted[k..];
    assert forall i | 0 <= i < k :: r[i] == sorted[i];
    assert forall i | k < i < |r| :: r[i] == sorted[i - 1];
    forall i, j | 0 <= i < j < |r| ensures !Before(r[j], r[i]) {
      if j == k { assert i < k - 1 ==> !Before(sorted[k - 1], sorted[i]); }
    }
  }

  method InsertFile(sorted: seq<FileInfo>, f: FileInfo) returns (r: seq<FileInfo>)
    requires Ordered(sorted)
    ensures Ordered(r) && multiset(r) == multiset(sorted) + multiset{f}
  {
    hide Ordered, Before;
    var k := |sorted|;
    while k > 0 && Before(f, sorted[k - 1])
      invariant 0 <= k <= |sorted|
      invariant forall i | k <= i < |sorted| :: Before(f, sorted[i])
    {
      k := k - 1;
    }
    r := sorted[..k] + [f] + sorted[k..];
    InsertedOrdered(sorted, f, k);
    assert multiset(sorted) == multiset(sorted[..k]) + multiset(sorted[k..]) by {
      assert sorted == sorted[..k] + sorted[k..];
    }
  }

  /**
   * The eligible files, smallest and oldest first, cut to the configured number. `rest` is what was
   * eligible and not chosen: none of it comes before a chosen file, and there is some only if the cut was reached.
   */
  method SelectCandidates(files: seq<FileInfo>, level: Level, maxFiles: nat, now: int)
      returns (chosen: seq<FileInfo>, ghost rest: seq<FileInfo>)
    ensures Ordered(chosen) && |chosen| <= maxFiles && (rest != [] ==> |chosen| == maxFiles)
    ensures multiset(chosen) + multiset(rest) == multiset(Filtered(files, level, now))
    ensures forall a <- chosen, b <- rest :: !Before(b, a)
  {
    hide Ordered, Eligible, Before;
    var sorted: seq<FileInfo> := [];
    assert Ordered(sorted) by { NothingOrdered(); }
    for i := 0 to |files|
      invariant Ordered(sorted) && multiset(sorted) == multiset(Filtered(files[..i], level, now))
    {
      assert files[..i + 1][..i] == files[..i];
      if Eligible(files[i], level, now) {
        sorted := InsertFile(sorted, files[i]);
      }
    }
    assert files[..|files|] == files;
    var n := if |sorted| > maxFiles then maxFiles else |sorted|;
    chosen, rest := sorted[..n], sorted[n..];
    assert sorted == chosen + rest;
    CutOrdered(sorted, n);
  }

  lemma NothingOrdered()
    ensures Ordered([])
  {
  }

  lemma CutOrdered(sorted: seq<FileInfo>, n: nat)
    requires Ordered(sorted) && n <= |sorted|
    ensures Ordered(sorted[..n]) && forall a <- sorted[..n], b <- sorted[n..] :: !Before(b, a)
  {
    hide Before;
    forall a, b | a in sorted[..n] && b in sorted[n..] ensures !Before(b, a) {
      var i :| 0 <= i < n && sorted[i] == a;
      var j :| n <= j < |sorted| && sorted[j] == b;
    }
  }

  function Filtered(files: seq<FileInfo>, level: Level, now: int): seq<FileInfo> {
    if files == [] then []
    else
      var f := files[|files| - 1];
      Filtered(files[..|files| - 1], level, now) + (if Eligible(f, level, now) then [f] else [])
  }

  // Merging the chosen files

  /**
   * What the world outside does to one merge: which reads, writes, stats, uploads and deletes work, and
   * the object name each output gets.
   */
  datatype Env = Env(readOk: Path -> bool, writeOk: bool, statOk: nat -> bool, uploadOk: nat -> bool,
                     deleteOk: Path -> bool, nameOf: nat -> Path)

  ghost predicate AllStats(e: Env) {
    forall k: nat :: e.statOk(k)
  }

  ghost predicate AllDeletes(e: Env) {
    forall p: Path :: e.deleteOk(p)
  }

  ghost predicate AllUploads(e: Env) {
    forall k: nat :: e.uploadOk(k)
  }

  /** Object names carry a time stamp in nanoseconds: they are new and differ from each other. */
  ghost predicate Fresh<R>(s: Store<R>, e: Env) {
    && (forall k: nat :: e.nameOf(k) !in s)
    && (forall i: nat, j: nat | i < j :: e.nameOf(i) != e.nameOf(j))
  }

  /** The writer starts a new file as soon as one is full, so the last may be empty. */
  function Chunks<R>(records: seq<R>, n: nat): (files: seq<seq<R>>)
    requires n > 0
    ensures files != []
  {
    if |records| < n then [records] else [records[..n]] + Chunks(records[n..], n)
  }

  lemma FullChunk<R>(records: seq<R>, n: nat)
    requires 0 < n <= |records|
    ensures Chunks(records, n) == [records[..n]] + Chunks(records[n..], n)
  {
  }

  lemma LastChunk<R>(records: seq<R>, n: nat)
    requires |records| < n
    ensures Chunks(records, n) == [records]
  {
  }

  method WriteFiles<R>(records: seq<R>, n: nat) returns (files: seq<seq<R>>)
    requires n > 0
    ensures files == Chunks(records, n)
  {
    hide Chunks;
    files := [];
    var current: seq<R> := [];
    ghost var done := 0;
    assert records[0..] == records;
    for i := 0 to |records|
      invariant 0 <= done <= i && current == records[done..i] && |current| < n
      invariant files + Chunks(records[done..], n) == Chunks(records, n)
    {
      current := current + [records[i]];
      if |current| >= n {
        FullChunk(records[done..], n);
        assert records[done..][..n] == current && records[done..][n..] == records[i + 1..];
        files := files + [current];
        current := [];
        done := i + 1;
      }
    }
    assert records[done..] == current;
    LastChunk(current, n);
    files := files + [current];
  }

  /** All output files but the last have exactly the number of records asked for, and the last has fewer. */
  lemma {:induction false} ChunksAreFull<R>(records: seq<R>, n: nat)
    requires n > 0
    ensures var files := Chunks(records, n);
            |files[|files| - 1]| < n && forall i | 0 <= i < |files| - 1 :: |files[i]| == n
  {
    if |records| >= n {
      ChunksAreFull(records[n..], n);
    }
  }

  lemma {:induction false} ChunksKeepRecords<R>(records: seq<R>, n: nat)
    requires n > 0
    ensures Concat(Chunks(records, n)) == records
  {
    if |records| < n {
      ConcatOne(records);
    } else {
      ChunksKeepRecords(records[n..], n);
      ConcatFront(records[..n], Chunks(records[n..], n));
      assert records == records[..n] + records[n..];
    }
  }

  lemma ConcatOne<R>(a: seq<R>)
    ensures Concat([a]) == a
  {
    assert [a][..0] == [];
  }

  lemma {:induction false} ConcatFront<R>(a: seq<R>, rest: seq<seq<R>>)
    ensures Concat([a] + rest) == a + Concat(rest)
  {
    if rest == [] {
      assert [a] + rest == [a];
      ConcatOne(a);
    } else {
      var k := |rest| - 1;
      assert ([a] + rest)[..k + 1] == [a] + rest[..k];
      ConcatFront(a, rest[..k]);
    }
  }

  ghost predicate Present<R>(s: Store<R>, files: seq<FileInfo>) {
    forall f <- files :: f.path in s
  }

  /** The records of the files, in order. */
  function Input<R>(s: Store<R>, files: seq<FileInfo>): seq<R>
    requires Present(s, files)
  {
    if files == [] then [] else Input(s, files[..|files| - 1]) + s[files[|files| - 1].path]
  }

  /** The store once the first `k` outputs have been looked at; an output whose stat fails is passed over. */
  function Uploaded<R>(s: Store<R>, outputs: seq<seq<R>>, e: Env, k: nat): Store<R>
    requires k <= |outputs|
  {
    if k == 0 then s
    else
      var t := Uploaded(s, outputs, e, k - 1);
      if e.statOk(k - 1) then t[e.nameOf(k - 1) := outputs[k - 1]] else t
  }

  function Saved<R>(outputs: seq<seq<R>>, e: Env, k: nat): seq<R>
    requires k <= |outputs|
  {
    if k == 0 then [] else Saved(outputs, e, k - 1) + (if e.statOk(k - 1) then outputs[k - 1] else [])
  }

  function Skipped<R>(outputs: seq<seq<R>>, e: Env, k: nat): seq<R>
    requires k <= |outputs|
  {
    if k == 0 then [] else Skipped(outputs, e, k - 1) + (if e.statOk(k - 1) then [] else outputs[k - 1])
  }

  /** The store once deletion of the first `j` files has been tried. */
  function Removed<R>(s: Store<R>, files: seq<FileInfo>, e: Env, j: nat): Store<R>
    requires j <= |files|
  {
    if j == 0 then s
    else
      var t := Removed(s, files, e, j - 1);
      if e.deleteOk(files[j - 1].path) then t - {files[j - 1].path} else t
  }

  /** The records those deletions took away. */
  function Taken<R>(s: Store<R>, files: seq<FileInfo>, e: Env, j: nat): seq<R>
    requires j <= |files|
  {
    if j == 0 then []
    else
      var t := Removed(s, files, e, j - 1);
      var p := files[j - 1].path;
      Taken(s, files, e, j - 1) + (if e.deleteOk(p) && p in t then t[p] else [])
  }

  lemma {:induction false} UploadedKeys<R>(s: Store<R>, outputs: seq<seq<R>>, e: Env, k: nat)
    requires k <= |outputs| && Fresh(s, e)
    ensures forall p <- s :: p in Uploaded(s, outputs, e, k) && Uploaded(s, outputs, e, k)[p] == s[p]
    ensures forall i: nat | k <= i :: e.nameOf(i) !in Uploaded(s, outputs, e, k)
  {
    if k > 0 {
      UploadedKeys(s, outputs, e, k - 1);
    }
  }

  // Totals, counted for one record at a time

  lemma {:induction false} UploadedTotal<R>(s: Store<R>, outputs: seq<seq<R>>, e: Env, k: nat, r: R)
    requires k <= |outputs| && Fresh(s, e)
    ensures Held(Uploaded(s, outputs, e, k), r) == Held(s, r) + Times(Saved(outputs, e, k), r)
  {
    hide Held, Times, Fresh;
    TimesNone(r);
    if k > 0 {
      UploadedTotal(s, outputs, e, k - 1, r);
      UploadedKeys(s, outputs, e, k - 1);
      TimesConcat(Saved(outputs, e, k - 1), if e.statOk(k - 1) then outputs[k - 1] else [], r);
      if e.statOk(k - 1) {
        HeldPut(Uploaded(s, outputs, e, k - 1), e.nameOf(k - 1), outputs[k - 1], r);
      }
    }
  }

  lemma {:induction false} RemovedTotal<R>(s: Store<R>, files: seq<FileInfo>, e: Env, j: nat, r: R)
    requires j <= |files|
    ensures Held(Removed(s, files, e, j), r) + Times(Taken(s, files, e, j), r) == Held(s, r)
  {
    hide Held, Times;
    TimesNone(r);
    if j > 0 {
      RemovedTotal(s, files, e, j - 1, r);
      var t, p := Removed(s, files, e, j - 1), files[j - 1].path;
      TimesConcat(Taken(s, files, e, j - 1), if e.deleteOk(p) && p in t then t[p] else [], r);
      if p in t {
        HeldPick(t, p, r);
      } else {
        assert t - {p} == t;
      }
    }
  }

  lemma {:induction false} SavedAndSkipped<R>(outputs: seq<seq<R>>, e: Env, k: nat, r: R)
    requires k <= |outputs|
    ensures Times(Saved(outputs, e, k), r) + Times(Skipped(outputs, e, k), r) == Times(Concat(outputs[..k]), r)
  {
    hide Times;
    TimesNone(r);
    if k > 0 {
      SavedAndSkipped(outputs, e, k - 1, r);
      assert outputs[..k][..k - 1] == outputs[..k - 1];
      var here := e.statOk(k - 1);
      TimesConcat(Saved(outputs, e, k - 1), if here then outputs[k - 1] else [], r);
      TimesConcat(Skipped(outputs, e, k - 1), if here then [] else outputs[k - 1], r);
      TimesConcat(Concat(outputs[..k - 1]), outputs[k - 1], r);
    }
  }

  lemma {:induction false} RemovedKeeps<R>(s: Store<R>, files: seq<FileInfo>, e: Env, j: nat)
    requires j <= |files|
    ensures forall p <- Removed(s, files, e, j) :: p in s && s[p] == Removed(s, files, e, j)[p]
    ensures forall p <- s :: (forall i | 0 <= i < j :: files[i].path != p) ==> p in Removed(s, files, e, j)
  {
    if j > 0 {
      RemovedKeeps(s, files, e, j - 1);
    }
  }

  ghost predicate SameFiles<R>(s: Store<R>, t: Store<R>, files: seq<FileInfo>) {
    forall f <- files :: f.path in s && f.path in t && t[f.path] == s[f.path]
  }

  /** One deletion takes a file's records as they were read, or nothing. */
  lemma TakenNext<R>(s: Store<R>, t: Store<R>, files: seq<FileInfo>, e: Env, j: nat, r: R)
    requires 0 < j <= |files| && SameFiles(s, t, files)
    ensures Present(s, files[..j]) && Present(s, files[..j - 1])
    ensures Times(Input(s, files[..j]), r) == Times(Input(s, files[..j - 1]), r) + Times(s[files[j - 1].path], r)
    ensures Times(Taken(t, files, e, j), r) ==
            Times(Taken(t, files, e, j - 1), r)
            + (if e.deleteOk(files[j - 1].path) && files[j - 1].path in Removed(t, files, e, j - 1)
               then Times(s[files[j - 1].path], r) else 0)
  {
    hide Times;
    TimesNone(r);
    var p := files[j - 1].path;
    assert files[..j][..j - 1] == files[..j - 1] && files[j - 1] in files;
    TimesConcat(Input(s, files[..j - 1]), s[p], r);
    RemovedKeeps(t, files, e, j - 1);
    var u := Removed(t, files, e, j - 1);
    TimesConcat(Taken(t, files, e, j - 1), if e.deleteOk(p) && p in u then u[p] else [], r);
  }

  /** Deleting takes away no more than was read, even if a path is listed twice. */
  lemma {:induction false} TakenFromInput<R>(s: Store<R>, t: Store<R>, files: seq<FileInfo>, e: Env, j: nat, r: R)
    requires j <= |files| && SameFiles(s, t, files)
    ensures Present(s, files[..j]) && Times(Taken(t, files, e, j), r) <= Times(Input(s, files[..j]), r)
  {
    hide Times;
    if j > 0 {
      TakenFromInput(s, t, files, e, j - 1, r);
      TakenNext(s, t, files, e, j, r);
    }
  }

  /** If paths are distinct and every delete works, deleting takes away exactly what was read. */
  lemma {:induction false} TakenIsInput<R>(s: Store<R>, t: Store<R>, files: seq<FileInfo>, e: Env, j: nat, r: R)
    requires j <= |files| && SameFiles(s, t, files) && DistinctPaths(files) && AllDeletes(e)
    ensures Present(s, files[..j]) && Times(Taken(t, files, e, j), r) == Times(Input(s, files[..j]), r)
  {
    hide Times, Input, Taken;
    if j > 0 {
      TakenIsInput(s, t, files, e, j - 1, r);
      TakenNext(s, t, files, e, j, r);
      RemovedKeeps(t, files, e, j - 1);
      assert files[j - 1] in files;
    } else {
      NothingTaken(s, t, files, e);
    }
  }

  lemma NothingTaken<R>(s: Store<R>, t: Store<R>, files: seq<FileInfo>, e: Env)
    ensures Input(s, files[..0]) == Taken(t, files, e, 0) == []
  {
  }

  // One merge

  function Outputs<R>(s: Store<R>, files: seq<FileInfo>, c: Config): seq<seq<R>>
    requires Present(s, files)
  {
    Chunks(Input(s, files), MaxRows(c))
  }

  function Merged<R>(s: Store<R>, files: seq<FileInfo>, c: Config, e: Env): Store<R>
    requires Present(s, files)
  {
    var outputs := Outputs(s, files, c);
    Removed(Uploaded(s, outputs, e, |outputs|), files, e, |files|)
  }

  ghost predicate Uploading<R>(s: Store<R>, files: seq<FileInfo>, c: Config, e: Env, t: Store<R>, k: nat) {
    Present(s, files) && k <= |Outputs(s, files, c)| && t == Uploaded(s, Outputs(s, files, c), e, k)
  }

  ghost predicate Deleting<R>(s: Store<R>, files: seq<FileInfo>, c: Config, e: Env, t: Store<R>, j: nat) {
    Present(s, files) && j <= |files|
      && t == Removed(Uploaded(s, Outputs(s, files, c), e, |Outputs(s, files, c)|), files, e, j)
  }

  /** A store that a merge starting in `s` passes through. */
  ghost predicate Stage<R>(s: Store<R>, files: seq<FileInfo>, c: Config, e: Env, t: Store<R>) {
    t == s || (exists k :: Uploading(s, files, c, e, t, k)) || (exists j :: Deleting(s, files, c, e, t, j))
  }

  lemma {:induction false} NoneSkipped<R>(outputs: seq<seq<R>>, e: Env, k: nat)
    requires k <= |outputs| && AllStats(e)
    ensures Skipped(outputs, e, k) == []
  {
    if k > 0 {
      NoneSkipped(outputs, e, k - 1);
    }
  }

  lemma UploadingBounds<R>(s: Store<R>, files: seq<FileInfo>, c: Config, e: Env, k: nat, r: R)
    requires Fresh(s, e) && Present(s, files) && k <= |Outputs(s, files, c)|
    ensures Held(s, r) <= Held(Uploaded(s, Outputs(s, files, c), e, k), r) <= Held(s, r) + Times(Input(s, files), r)
  {
    hide Held, Times, Fresh;
    var outputs := Outputs(s, files, c);
    ChunksKeepRecords(Input(s, files), MaxRows(c));
    UploadedTotal(s, outputs, e, k, r);
    SavedAndSkipped(outputs, e, k, r);
    ConcatPrefix(outputs, k, r);
  }

  lemma {:induction false} ConcatPrefix<R>(a: seq<seq<R>>, k: nat, r: R)
    requires k <= |a|
    ensures Times(Concat(a[..k]), r) <= Times(Concat(a), r)
  {
    hide Times;
    if k < |a| {
      ConcatPrefix(a[..|a| - 1], k, r);
      assert a[..|a| - 1][..k] == a[..k];
      TimesConcat(Concat(a[..|a| - 1]), a[|a| - 1], r);
    } else {
      assert a[..k] == a;
    }
  }

  /**
   * The account of a merge while deleting: kept, plus outputs passed over, covers all there was; nothing is doubled
   * more than once.
   */
  lemma DeletingBounds<R>(s: Store<R>, files: seq<FileInfo>, c: Config, e: Env, j: nat, r: R)
    requires Fresh(s, e) && Present(s, files) && j <= |files|
    ensures var outputs := Outputs(s, files, c);
            var after := Uploaded(s, outputs, e, |outputs|);
            && SameFiles(s, after, files)
            && Held(Removed(after, files, e, j), r) + Times(Taken(after, files, e, j), r)
               + Times(Skipped(outputs, e, |outputs|), r)
               == Held(s, r) + Times(Input(s, files), r)
            && Times(Taken(after, files, e, j), r) <= Times(Input(s, files), r)
  {
    hide Held, Times, Fresh;
    var outputs := Outputs(s, files, c);
    var after := Uploaded(s, outputs, e, |outputs|);
    ChunksKeepRecords(Input(s, files), MaxRows(c));
    UploadedTotal(s, outputs, e, |outputs|, r);
    SavedAndSkipped(outputs, e, |outputs|, r);
    assert outputs[..|outputs|] == outputs;
    RemovedTotal(after, files, e, j, r);
    UploadedKeys(s, outputs, e, |outputs|);
    TakenFromInput(s, after, files, e, j, r);
    InputPrefix(s, files, j, r);
  }

  lemma {:induction false} InputPrefix<R>(s: Store<R>, files: seq<FileInfo>, j: nat, r: R)
    requires Present(s, files) && j <= |files|
    ensures Present(s, files[..j]) && Times(Input(s, files[..j]), r) <= Times(Input(s, files), r)
  {
    hide Times;
    if j < |files| {
      InputPrefix(s, files[..|files| - 1], j, r);
      assert files[..|files| - 1][..j] == files[..j];
      TimesConcat(Input(s, files[..|files| - 1]), s[files[|files| - 1].path], r);
    } else {
      assert files[..j] == files;
    }
  }

  /**
   * At every stage of a merge, whichever uploads and deletes fail: no record is lost if the outputs could be
   * stat'ed, and no record has more copies than it had plus those among the merged files.
   */
  lemma StageBounds<R>(s: Store<R>, files: seq<FileInfo>, c: Config, e: Env, t: Store<R>, r: R)
    requires Fresh(s, e) && Stage(s, files, c, e, t)
    ensures AllStats(e) ==> Held(s, r) <= Held(t, r)
    ensures if Present(s, files) then Held(t, r) <= Held(s, r) + Times(Input(s, files), r) else t == s
  {
    hide Held, Times, Fresh, Outputs, AllStats;
    if t == s {
    } else if k :| Uploading(s, files, c, e, t, k) {
      UploadingBounds(s, files, c, e, k, r);
    } else {
      var j :| Deleting(s, files, c, e, t, j);
      DeletingBounds(s, files, c, e, j, r);
      if AllStats(e) {
        NoneSkipped(Outputs(s, files, c), e, |Outputs(s, files, c)|);
        TimesNone(r);
      }
    }
  }

  /** A finished merge: what is gone is what was passed over, what is doubled is what was not deleted. */
  lemma MergeAccount<R>(s: Store<R>, files: seq<FileInfo>, c: Config, e: Env, r: R)
    requires Fresh(s, e) && Present(s, files) && DistinctPaths(files) && AllDeletes(e)
    ensures Held(Merged(s, files, c, e), r) + Times(Skipped(Outputs(s, files, c), e, |Outputs(s, files, c)|), r) ==
            Held(s, r)
  {
    hide Held, Times, Fresh, Outputs;
    DeletingBounds(s, files, c, e, |files|, r);
    var outputs := Outputs(s, files, c);
    TakenIsInput(s, Uploaded(s, outputs, e, |outputs|), files, e, |files|, r);
    assert files[..|files|] == files;
  }

  /** With every delete working, a merge keeps the records exactly if every output whose stat failed was empty. */
  lemma MergeIsExactIff<R>(s: Store<R>, files: seq<FileInfo>, c: Config, e: Env)
    requires Fresh(s, e) && Present(s, files) && DistinctPaths(files) && AllDeletes(e)
    ensures (forall r :: Held(Merged(s, files, c, e), r) == Held(s, r))
            <==> (forall k | 0 <= k < |Outputs(s, files, c)| :: Harmless(Outputs(s, files, c), e, k))
  {
    hide Held, Fresh, Outputs, Merged;
    var outputs := Outputs(s, files, c);
    var lost := Skipped(outputs, e, |outputs|);
    SkippedNothingIff(outputs, e, |outputs|);
    forall r ensures Held(Merged(s, files, c, e), r) + Times(lost, r) == Held(s, r) {
      MergeAccount(s, files, c, e, r);
    }
    if lost != [] {
      assert Times(lost, lost[0]) > 0;
      assert Held(Merged(s, files, c, e), lost[0]) != Held(s, lost[0]);
    }
  }

  /** Such a loss: one file of one record is merged, the output's stat fails, and the file is deleted all the same. */
  lemma FailedStatLosesRecords(c: Config, name: nat -> Path)
    ensures var s: Store<int>, files := map["t/a" := [7]], [FileInfo("t/a", 1, 0)];
            var e := Env(_ => true, true, _ => false, _ => true, _ => true, name);
            Present(s, files) && Held(s, 7) == 1 && Held(Merged(s, files, c, e), 7) == 0
  {
    var s: Store<int>, files := map["t/a" := [7]], [FileInfo("t/a", 1, 0)];
    var e := Env(_ => true, true, _ => false, _ => true, _ => true, name);
    var outputs := Outputs(s, files, c);
    NothingStated(s, outputs, e, |outputs|);
    assert Removed(s, files, e, 0) == s;
    assert Merged(s, files, c, e) == s - {"t/a"} == map[];
    HeldNothing(s - {"t/a"}, 7);
    HeldPick(s, "t/a", 7);
  }

  lemma {:induction false} NothingStated<R>(s: Store<R>, outputs: seq<seq<R>>, e: Env, k: nat)
    requires k <= |outputs| && forall i: nat :: !e.statOk(i)
    ensures Uploaded(s, outputs, e, k) == s
  {
    if k > 0 {
      NothingStated(s, outputs, e, k - 1);
    }
  }

  ghost predicate Harmless<R>(outputs: seq<seq<R>>, e: Env, i: nat)
    requires i < |outputs|
  {
    e.statOk(i) || outputs[i] == []
  }

  lemma {:induction false} SkippedNothingIff<R>(outputs: seq<seq<R>>, e: Env, k: nat)
    requires k <= |outputs|
    ensures Skipped(outputs, e, k) == [] <==> forall i | 0 <= i < k :: Harmless(outputs, e, i)
  {
    if k > 0 {
      SkippedNothingIff(outputs, e, k - 1);
      SkippedNext(outputs, e, k);
      hide Skipped, Harmless;
    }
  }

  lemma SkippedNext<R>(outputs: seq<seq<R>>, e: Env, k: nat)
    requires 0 < k <= |outputs|
    ensures Skipped(outputs, e, k) == [] <==> Skipped(outputs, e, k - 1) == [] && Harmless(outputs, e, k - 1)
  {
    var front, last := Skipped(outputs, e, k - 1), if e.statOk(k - 1) then [] else outputs[k - 1];
    assert Skipped(outputs, e, k) == front + last;
    assert |front + last| == |front| + |last|;
  }

  // A pass over all levels

  function Only<R>(s: Store<R>, paths: set<Path>): Store<R> {
    map p | p in s && p in paths :: s[p]
  }

  lemma {:induction false} OnlyIsLess<R>(s: Store<R>, paths: set<Path>, r: R)
    ensures Held(Only(s, paths), r) <= Held(s, r)
    decreases |paths|
  {
    hide Held, Times;
    if paths == {} {
      HeldNothing(Only(s, paths), r);
    } else {
      var p :| p in paths;
      if p in s {
        OnlyIsLess(s - {p}, paths - {p}, r);
        HeldPick(s, p, r);
        HeldPick(Only(s, paths), p, r);
        assert Only(s, paths) - {p} == Only(s - {p}, paths - {p});
      } else {
        OnlyIsLess(s, paths - {p}, r);
        assert Only(s, paths) == Only(s, paths - {p});
      }
    }
  }

  lemma HeldNothing<R>(s: Store<R>, r: R)
    requires s == map[]
    ensures Held(s, r) == 0
  {
  }

  function Paths(files: seq<FileInfo>): set<Path> {
    set f <- files :: f.path
  }

  /** The records of distinct files, counted on top of those of other paths. */
  lemma {:induction false} InputOnly<R>(s: Store<R>, paths: set<Path>, files: seq<FileInfo>, r: R)
    requires Present(s, files) && DistinctPaths(files) && Paths(files) !! paths
    ensures Held(Only(s, paths + Paths(files)), r) == Held(Only(s, paths), r) + Times(Input(s, files), r)
  {
    hide Held, Times;
    if files == [] {
      assert paths + Paths(files) == paths;
      TimesNone(r);
    } else {
      var k := |files| - 1;
      var f := files[k];
      assert files == files[..k] + [f];
      assert Paths(files) == Paths(files[..k]) + {f.path} && f.path !in Paths(files[..k]);
      InputOnly(s, paths, files[..k], r);
      var less, more := Only(s, paths + Paths(files[..k])), Only(s, paths + Paths(files));
      HeldPick(more, f.path, r);
      assert more - {f.path} == less;
      TimesConcat(Input(s, files[..k]), s[f.path], r);
    }
  }

  lemma SubDistinct(files: seq<FileInfo>, sub: seq<FileInfo>)
    requires DistinctPaths(files) && multiset(sub) <= multiset(files)
    ensures DistinctPaths(sub)
  {
    forall i, j | 0 <= i < j < |sub| ensures sub[i].path != sub[j].path {
      if sub[i].path == sub[j].path {
        assert sub[i] in multiset(sub) && sub[j] in multiset(sub);
        assert sub[i] in files && sub[j] in files;
        var a :| 0 <= a < |files| && files[a] == sub[i];
        var b :| 0 <= b < |files| && files[b] == sub[j];
        Twice(sub, i, j);
        Once(files, a);
      }
    }
  }

  lemma Twice(s: seq<FileInfo>, i: nat, j: nat)
    requires i < j < |s| && s[i] == s[j]
    ensures multiset(s)[s[i]] >= 2
  {
    assert s == s[..j] + s[j..];
  }

  lemma Once(s: seq<FileInfo>, a: nat)
    requires a < |s| && DistinctPaths(s)
    ensures multiset(s)[s[a]] == 1
  {
    assert s == s[..a] + [s[a]] + s[a + 1..];
  }

  lemma {:induction false} OfLevelWithin(levels: seq<Level>, files: seq<FileInfo>, name: string)
    ensures multiset(OfLevel(levels, files, name)) <= multiset(files)
  {
    hide FileLevel, OfLevel;
    forall f: FileInfo ensures multiset(OfLevel(levels, files, name))[f] <= multiset(files)[f] {
      OfLevelCount(levels, files, name, f);
    }
  }

  lemma {:induction false} FilteredWithin(files: seq<FileInfo>, level: Level, now: int)
    ensures multiset(Filtered(files, level, now)) <= multiset(files)
  {
    hide Eligible;
    if files != [] {
      var front, last := files[..|files| - 1], files[|files| - 1];
      FilteredWithin(front, level, now);
      assert files == front + [last];
      assert multiset(files) == multiset(front) + multiset{last};
    }
  }

  ghost predicate FreshPass<R>(s: Store<R>, envs: nat -> Env) {
    && (forall i: nat, k: nat :: envs(i).nameOf(k) !in s)
    && (forall i: nat, j: nat, k: nat, l: nat | envs(i).nameOf(k) == envs(j).nameOf(l) :: i == j && k == l)
  }

  /** From level `i` on, the pass has not used its names. */
  ghost predicate NamesAhead<R>(s: Store<R>, envs: nat -> Env, i: nat) {
    forall j: nat, k: nat | i <= j :: envs(j).nameOf(k) !in s
  }

  /** From level `i` on, the pass, which has merged the files under `done`, has not touched the listed files. */
  ghost predicate FilesAhead<R>(s: Store<R>, t: Store<R>, levels: seq<Level>, files: seq<FileInfo>, done: set<Path>,
                                i: nat) {
    forall j, f | i <= j < |levels| && f in OfLevel(levels, files, levels[j].name) ::
      && f.path !in done
      && (f.path in s <==> f.path in t)
      && (f.path in s ==> s[f.path] == t[f.path])
  }

  ghost predicate NotLess<R(!new)>(s: Store<R>, t: Store<R>) {
    forall r: R :: Held(s, r) <= Held(t, r)
  }

  /** Besides the copies in `s`, the store holds at most one more of each record found under the given paths. */
  ghost predicate AtMostDoubled<R(!new)>(s: Store<R>, paths: set<Path>, t: Store<R>) {
    forall r: R :: Held(t, r) <= Held(s, r) + Held(Only(s, paths), r)
  }

  ghost predicate AtMostTwice<R(!new)>(s: Store<R>, t: Store<R>) {
    forall r: R :: Held(t, r) <= 2 * Held(s, r)
  }

  ghost predicate SameRecords<R(!new)>(s: Store<R>, t: Store<R>) {
    forall r: R :: Held(s, r) == Held(t, r)
  }

  ghost predicate NoFailure(e: Env) {
    AllStats(e) && AllUploads(e) && AllDeletes(e)
  }

  ghost predicate AgreeBut<R>(s: Store<R>, t: Store<R>, p: Path) {
    s - {p} == t - {p}
  }

  /** Differs by no more than a single upload or deletion. */
  ghost predicate OneStep<R>(s: Store<R>, t: Store<R>) {
    exists p :: AgreeBut(s, t, p)
  }

  ghost predicate SingleSteps<R>(trace: seq<Store<R>>) {
    forall i, j | 0 <= i < |trace| && 0 <= j < |trace| && j == i + 1 :: OneStep(trace[i], trace[j])
  }

  lemma OneMoreStep<R>(trace: seq<Store<R>>, t: Store<R>, p: Path)
    requires trace != [] && SingleSteps(trace) && AgreeBut(trace[|trace| - 1], t, p)
    ensures SingleSteps(trace + [t])
  {
    assert OneStep(trace[|trace| - 1], t);
    hide OneStep;
  }

  lemma StepsJoin<R>(a: seq<Store<R>>, b: seq<Store<R>>)
    requires a != [] && b != [] && a[|a| - 1] == b[0] && SingleSteps(a) && SingleSteps(b)
    ensures SingleSteps(a + b[1..])
  {
    hide OneStep;
    var all := a + b[1..];
    forall i, j | 0 <= i < |all| && 0 <= j < |all| && j == i + 1 ensures OneStep(all[i], all[j]) {
      if j >= |a| {
        assert all[i] == b[i + 1 - |a|] && all[j] == b[j + 1 - |a|];
      }
    }
  }

  class Manager<R(!new)> {
    const config: Config
    var objects: Store<R>

    constructor (config: Config, objects: Store<R>)
      ensures this.config == config && this.objects == objects
    {
      this.config, this.objects := config, objects;
    }

    /** Downloads and reads the files; the first that is missing or unreadable ends the merge. */
    method ReadAll(files: seq<FileInfo>, e: Env) returns (records: Option<seq<R>>)
      ensures records.Some? ==> Present(objects, files) && records.value == Input(objects, files)
      ensures records.None? ==> !(Present(objects, files) && forall p: Path :: e.readOk(p))
    {
      var all: seq<R> := [];
      for i := 0 to |files|
        invariant Present(objects, files[..i]) && all == Input(objects, files[..i])
      {
        if files[i].path !in objects || !e.readOk(files[i].path) {
          return None;
        }
        assert files[..i + 1] == files[..i] + [files[i]] && files[..i + 1][..i] == files[..i];
        all := all + objects[files[i].path];
      }
      assert files[..|files|] == files;
      return Some(all);
    }

    /** One merge. `trace` is the store before, after each upload and after each deletion. */
    method CompactTieredFiles(files: seq<FileInfo>, e: Env) returns (ok: bool, ghost trace: seq<Store<R>>)
      modifies this
      ensures trace != [] && trace[0] == old(objects) && trace[|trace| - 1] == objects && SingleSteps(trace)
      ensures forall t <- trace :: Stage(old(objects), files, config, e, t)
      ensures ok ==> Present(old(objects), files) && objects == Merged(old(objects), files, config, e)
      ensures !ok && AllUploads(e) ==> objects == old(objects)
      ensures !ok ==> Untouched(old(objects), files, config, e, objects)
      ensures Present(old(objects), files) && (forall p: Path :: e.readOk(p)) && e.writeOk && AllUploads(e) ==> ok
    {
      ghost var s := objects;
      trace := [objects];
      assert SingleSteps(trace);
      hide Uploaded, Removed, Outputs, Input, SingleSteps;
      assert Untouched(s, files, config, e, s);
      var records := ReadAll(files, e);
      if records.None? || !e.writeOk {
        return false, trace;
      }
      var outputs := WriteFiles(records.value, MaxRows(config));
      assert outputs == Outputs(s, files, config) by { AreOutputs(s, files, config); }
      UploadedStart(s, outputs, e);
      for k := 0 to |outputs|
        invariant objects == Uploaded(s, outputs, e, k)
        invariant trace != [] && trace[0] == s && trace[|trace| - 1] == objects && SingleSteps(trace)
        invariant forall t <- trace :: Stage(s, files, config, e, t)
      {
        UploadedStep(s, outputs, e, k);
        assert Uploading(s, files, config, e, objects, k);
        if e.statOk(k) {
          if !e.uploadOk(k) {
            return false, trace;
          }
          objects := objects[e.nameOf(k) := outputs[k]];
          assert Uploading(s, files, config, e, objects, k + 1);
          assert AgreeBut(trace[|trace| - 1], objects, e.nameOf(k));
          OneMoreStep(trace, objects, e.nameOf(k));
          trace := trace + [objects];
        }
      }
      ghost var after := objects;
      RemovedStart(after, files, e);
      for j := 0 to |files|
        invariant objects == Removed(after, files, e, j)
        invariant trace != [] && trace[0] == s && trace[|trace| - 1] == objects && SingleSteps(trace)
        invariant forall t <- trace :: Stage(s, files, config, e, t)
      {
        RemovedStep(after, files, e, j);
        if e.deleteOk(files[j].path) {
          objects := objects - {files[j].path};
          assert Deleting(s, files, config, e, objects, j + 1);
          assert AgreeBut(trace[|trace| - 1], objects, files[j].path);
          OneMoreStep(trace, objects, files[j].path);
          trace := trace + [objects];
        }
      }
      ok := true;
    }

    /**
     * A pass over the levels, with the listing taken once at the start. `trace` runs through every store in
     * between. Nothing is ever lost if outputs can be stat'ed; with distinct level names no record ever has
     * more than twice its copies; and a pass without failures keeps the records exactly.
     */
    method CompactTableTiered(listing: Option<seq<FileInfo>>, envs: nat -> Env, now: nat -> int)
        returns (ok: bool, ghost trace: seq<Store<R>>)
      requires listing.Some? ==> DistinctPaths(listing.value) && Present(objects, listing.value)
      requires FreshPass(objects, envs)
      modifies this
      ensures ok == listing.Some? && (!ok ==> objects == old(objects))
      ensures trace != [] && trace[0] == old(objects) && trace[|trace| - 1] == objects && SingleSteps(trace)
      ensures (forall i: nat :: AllStats(envs(i))) ==> forall t <- trace :: NotLess(old(objects), t)
      ensures DistinctNames(config.levels) ==> forall t <- trace :: AtMostTwice(old(objects), t)
      ensures (forall i: nat :: NoFailure(envs(i))) ==> SameRecords(old(objects), objects)
      ensures ok && DistinctNames(config.levels) && (forall i: nat :: Working(envs(i))) ==>
                LevelsDone(config, listing.value, |config.levels|, now, objects)
    {
      hide SingleSteps, NotLess, AtMostTwice, AtMostDoubled, SameRecords, Held, DistinctNames, DistinctPaths, AllStats,
           AllUploads, AllDeletes,
        Stage, Fresh, FreshPass, NamesAhead, FilesAhead, FromLevel, Merged, Untouched, OfLevel, Filtered, Only,
        LevelsDone, RipeFiles, Ordered, Before;
      ghost var s0 := objects;
      trace := [objects];
      OneStore(objects);
      StartOfPass(s0, envs);
      if listing.None? {
        return false, trace;
      }
      var files := listing.value;
      ghost var done: set<Path> := {};
      StartAhead(s0, config.levels, files);
      NoLevelDone(config, files, now, objects);
      var tiers := ClassifyFilesByTier(config.levels, files);
      ghost var distinct := DistinctNames(config.levels);
      ghost var statsWork := forall i: nat :: AllStats(envs(i));
      ghost var allWork := forall i: nat :: NoFailure(envs(i));
      ghost var working := distinct && forall i: nat :: Working(envs(i));
      for i := 0 to |config.levels|
        invariant trace != [] && trace[0] == s0 && trace[|trace| - 1] == objects && SingleSteps(trace)
        invariant NamesAhead(objects, envs, i)
        invariant statsWork ==> NotLess(s0, objects) && forall t <- trace :: NotLess(s0, t)
        invariant distinct ==>
                  FilesAhead(s0, objects, config.levels, files, done, i) && AtMostDoubled(s0, done, objects)
        invariant distinct ==> forall t <- trace :: AtMostTwice(s0, t)
        invariant allWork ==> SameRecords(s0, objects)
        invariant working ==> LevelsDone(config, files, i, now, objects)
      {
        var level := config.levels[i];
        assert level in config.levels;
        var levelFiles := tiers[level.name];
        FreshForLevel(s0, objects, envs, i);
        SkipLevel(s0, objects, envs, config.levels, files, done, i);
        if |levelFiles| >= level.minFilesToMerge {
          ghost var rest;
          var chosen;
          chosen, rest := SelectCandidates(levelFiles, level, config.maxFilesToMerge, now(i));
          ChosenFromLevel(config.levels, files, i, chosen, rest, now(i));
          if |chosen| >= level.minFilesToMerge {
            ghost var s, was := objects, done;
            var e := envs(i);
            if working { ChosenPresent(s0, s, files, done, i, chosen, config.levels); }
            var merged;
            ghost var stages;
            merged, stages := CompactTieredFiles(chosen, e);
            assert objects in stages;
            NamesStayAhead(s0, s, chosen, config, envs, i, objects);
            if statsWork {
              forall t | t in stages ensures NotLess(s0, t) { StageNotLess(s0, s, chosen, config, e, t); }
            }
            if distinct {
              forall t | t in stages
                ensures AtMostTwice(s0, t)
              {
                StillAtMostDoubled(s0, s, files, done, i, chosen, config, e, t);
              }
              StillAtMostDoubled(s0, s, files, done, i, chosen, config, e, objects);
              ListedApart(s0, files, envs, i);
              FilesStayAhead(s0, s, files, done, i, chosen, config, envs, objects);
              LessDone(s0, objects, config.levels, files, done, Paths(chosen), i + 1);
              done := if Present(s, chosen) then done + Paths(chosen) else done;
            }
            if allWork {
              assert NoFailure(e);
              if merged { ChosenDistinct(config.levels, files, i, chosen); MergeSameRecords(s0, s, chosen, config, e); }
            }
            if working {
              assert Working(e);
              MergeDone(s0, s, files, was, i, chosen, rest, config, envs, now, objects);
            }
            StepsJoin(trace, stages);
            trace := trace + stages[1..];
          } else if working {
            TooFew(config.levels, files, i, chosen, rest, config.maxFilesToMerge, now(i));
            SkipDone(s0, objects, files, done, config, i, now);
          }
        } else if working {
          TooFewListed(config.levels, files, i, now(i));
          SkipDone(s0, objects, files, done, config, i, now);
        }
      }
      ok := true;
    }
  }

  // What a pass achieves

  ghost predicate Working(e: Env) {
    NoFailure(e) && e.writeOk && forall p: Path :: e.readOk(p)
  }

  /** Old enough for level `i`, small enough for it, and too large for every level before it. */
  ghost predicate Ripe(levels: seq<Level>, i: nat, f: FileInfo, now: int)
    requires i < |levels|
  {
    && now - f.modTime >= levels[i].cooldown && f.size <= levels[i].maxFileSize
    && forall j | 0 <= j < i :: f.size > levels[j].maxFileSize
  }

  ghost function RipeFiles(levels: seq<Level>, files: seq<FileInfo>, i: nat, now: int): set<FileInfo>
    requires i < |levels|
  {
    set f | f in files && Ripe(levels, i, f, now)
  }

  ghost function GoneFrom<R>(s: Store<R>, files: set<FileInfo>): set<FileInfo> {
    set f | f in files && f.path !in s
  }

  /**
   * Of the ripe files of a level, none is gone if they are fewer than a merge needs or a merge takes; otherwise as
   * many are gone as a merge takes, and each is smaller than every ripe file left, or as large and no younger.
   */
  ghost predicate LevelDone<R>(c: Config, files: seq<FileInfo>, i: nat, now: int, s: Store<R>)
    requires i < |c.levels|
  {
    var ripe := RipeFiles(c.levels, files, i, now);
    var gone, need := GoneFrom(s, ripe), c.levels[i].minFilesToMerge;
    if |ripe| < need || c.maxFilesToMerge < need then gone == {}
    else
      && |gone| == (if |ripe| < c.maxFilesToMerge then |ripe| else c.maxFilesToMerge)
      && forall f <- gone, g <- ripe - gone :: f.size < g.size || (f.size == g.size && f.modTime <= g.modTime)
  }

  ghost predicate LevelsDone<R>(c: Config, files: seq<FileInfo>, n: nat, now: nat -> int, s: Store<R>)
    requires n <= |c.levels|
  {
    forall i | 0 <= i < n :: LevelDone(c, files, i, now(i), s)
  }

  lemma NoLevelDone<R>(c: Config, files: seq<FileInfo>, now: nat -> int, s: Store<R>)
    ensures LevelsDone(c, files, 0, now, s)
  {
  }

  ghost function Members(files: seq<FileInfo>): set<FileInfo> {
    set f | f in files
  }

  lemma {:induction false} MembersCount(files: seq<FileInfo>)
    requires DistinctPaths(files)
    ensures |Members(files)| == |files|
  {
    if files != [] {
      var k := |files| - 1;
      MembersCount(files[..k]);
      assert files == files[..k] + [files[k]];
      assert Members(files) == Members(files[..k]) + {files[k]};
      assert files[k] !in files[..k];
    }
  }

  lemma {:induction false} FilteredMembers(files: seq<FileInfo>, level: Level, now: int, f: FileInfo)
    ensures f in Filtered(files, level, now) <==>
            f in files && now - f.modTime >= level.cooldown && f.size <= level.maxFileSize
  {
    if files != [] {
      FilteredMembers(files[..|files| - 1], level, now, f);
      assert files == files[..|files| - 1] + [files[|files| - 1]];
    }
  }

  /** The files a level selects from are the ripe ones. */
  lemma SelectedAreRipe(levels: seq<Level>, files: seq<FileInfo>, i: nat, now: int, f: FileInfo)
    requires DistinctNames(levels) && i < |levels|
    ensures f in Filtered(OfLevel(levels, files, levels[i].name), levels[i], now) <==>
            f in RipeFiles(levels, files, i, now)
  {
    hide Filtered, OfLevel, FileLevel;
    FilteredMembers(OfLevel(levels, files, levels[i].name), levels[i], now, f);
    OfLevelMembers(levels, files, levels[i].name, f);
    var k := FirstLevelThatFits(levels, f.size);
    if k < i && f.size <= levels[i].maxFileSize && f in files {
      assert levels[k].name != levels[i].name;
    }
  }

  lemma {:induction false} MembersJoin(a: seq<FileInfo>, b: seq<FileInfo>)
    requires DistinctPaths(a + b)
    ensures Members(a) !! Members(b) && Members(a + b) == Members(a) + Members(b)
    ensures |Members(a)| == |a| && |Members(a + b)| == |a| + |b|
  {
    var both := a + b;
    MembersCount(both);
    assert forall k | 0 <= k < |a| :: both[k] == a[k];
    MembersCount(a);
    forall i, j | 0 <= i < |a| && 0 <= j < |b| ensures a[i] != b[j] {
      assert both[i] == a[i] && both[|a| + j] == b[j];
    }
  }

  /** The chosen files and the rest are the ripe ones, each once. */
  lemma RipeCount(levels: seq<Level>, files: seq<FileInfo>, i: nat, chosen: seq<FileInfo>, rest: seq<FileInfo>,
                  now: int)
    requires DistinctNames(levels) && DistinctPaths(files) && i < |levels|
    requires multiset(chosen) + multiset(rest) ==
             multiset(Filtered(OfLevel(levels, files, levels[i].name), levels[i], now))
    ensures Members(chosen) !! Members(rest) && Members(chosen) + Members(rest) == RipeFiles(levels, files, i, now)
    ensures |Members(chosen)| == |chosen| && |RipeFiles(levels, files, i, now)| == |chosen| + |rest|
  {
    hide OfLevel, Filtered, DistinctNames, DistinctPaths, RipeFiles;
    var all, both := Filtered(OfLevel(levels, files, levels[i].name), levels[i], now), chosen + rest;
    FilteredWithin(OfLevel(levels, files, levels[i].name), levels[i], now);
    OfLevelWithin(levels, files, levels[i].name);
    assert multiset(both) == multiset(all);
    SubDistinct(files, both);
    MembersJoin(chosen, rest);
    forall f ensures f in both <==> f in RipeFiles(levels, files, i, now) {
      SelectedAreRipe(levels, files, i, now, f);
      assert f in both <==> f in multiset(both);
      assert f in all <==> f in multiset(all);
    }
    assert Members(both) == RipeFiles(levels, files, i, now);
  }

  lemma TooFew(levels: seq<Level>, files: seq<FileInfo>, i: nat, chosen: seq<FileInfo>, rest: seq<FileInfo>,
               most: nat, now: int)
    requires DistinctNames(levels) && DistinctPaths(files) && i < |levels|
    requires multiset(chosen) + multiset(rest) ==
             multiset(Filtered(OfLevel(levels, files, levels[i].name), levels[i], now))
    requires |chosen| < levels[i].minFilesToMerge && (rest != [] ==> |chosen| == most)
    ensures |RipeFiles(levels, files, i, now)| < levels[i].minFilesToMerge || most < levels[i].minFilesToMerge
  {
    hide OfLevel, Filtered, RipeFiles, DistinctPaths, DistinctNames;
    RipeCount(levels, files, i, chosen, rest, now);
  }

  lemma TooFewListed(levels: seq<Level>, files: seq<FileInfo>, i: nat, now: int)
    requires DistinctNames(levels) && DistinctPaths(files) && i < |levels|
    requires |OfLevel(levels, files, levels[i].name)| < levels[i].minFilesToMerge
    ensures |RipeFiles(levels, files, i, now)| < levels[i].minFilesToMerge
  {
    hide OfLevel, Filtered, RipeFiles, DistinctPaths, DistinctNames;
    var mine := OfLevel(levels, files, levels[i].name);
    var ripe := Filtered(mine, levels[i], now);
    RipeCount(levels, files, i, ripe, [], now);
    FilteredWithin(mine, levels[i], now);
    assert |multiset(ripe)| <= |multiset(mine)| by {
      assert multiset(mine) == multiset(ripe) + (multiset(mine) - multiset(ripe));
    }
  }

  /** Ripe files of a level that the pass has not reached are still there. */
  lemma RipeStillThere<R>(s0: Store<R>, s: Store<R>, files: seq<FileInfo>, done: set<Path>, levels: seq<Level>, i: nat,
                          now: int)
    requires DistinctNames(levels) && i < |levels| && Present(s0, files) && FilesAhead(s0, s, levels, files, done, i)
    ensures GoneFrom(s, RipeFiles(levels, files, i, now)) == {}
  {
    hide OfLevel, Filtered, DistinctNames;
    forall f | f in RipeFiles(levels, files, i, now) ensures f.path in s {
      SelectedAreRipe(levels, files, i, now, f);
      FilteredMembers(OfLevel(levels, files, levels[i].name), levels[i], now, f);
    }
  }

  lemma SkipDone<R>(s0: Store<R>, s: Store<R>, files: seq<FileInfo>, done: set<Path>, c: Config, i: nat,
                    now: nat -> int)
    requires DistinctNames(c.levels) && i < |c.levels| && Present(s0, files)
    requires FilesAhead(s0, s, c.levels, files, done, i)
    requires |RipeFiles(c.levels, files, i, now(i))| < c.levels[i].minFilesToMerge
             || c.maxFilesToMerge < c.levels[i].minFilesToMerge
    requires LevelsDone(c, files, i, now, s)
    ensures LevelsDone(c, files, i + 1, now, s)
  {
    RipeStillThere(s0, s, files, done, c.levels, i, now(i));
    hide GoneFrom, RipeFiles, FilesAhead, DistinctNames, Present;
    assert LevelDone(c, files, i, now(i), s);
    hide LevelDone;
  }

  lemma ChosenPresent<R>(s0: Store<R>, s: Store<R>, files: seq<FileInfo>, done: set<Path>, i: nat,
                         chosen: seq<FileInfo>, levels: seq<Level>)
    requires i < |levels| && Present(s0, files) && FilesAhead(s0, s, levels, files, done, i)
    requires FromLevel(levels, files, i, chosen)
    ensures Present(s, chosen)
  {
    forall f | f in chosen ensures f.path in s {
      OfLevelMembers(levels, files, levels[i].name, f);
    }
  }

  /** A merge whose deletes work leaves none of its files, and all others that were there. */
  lemma MergedGone<R>(s: Store<R>, chosen: seq<FileInfo>, c: Config, e: Env, f: FileInfo)
    requires Present(s, chosen) && Fresh(s, e) && AllDeletes(e) && f.path in s
    ensures f.path in Merged(s, chosen, c, e) <==> f.path !in Paths(chosen)
  {
    hide Input, Chunks;
    var outputs := Outputs(s, chosen, c);
    var after := Uploaded(s, outputs, e, |outputs|);
    UploadedKeys(s, outputs, e, |outputs|);
    RemovedKeeps(after, chosen, e, |chosen|);
    RemovedAll(after, chosen, e, |chosen|);
    hide Outputs, Uploaded, Removed, Fresh;
    if f.path in Paths(chosen) {
      var g :| g in chosen && g.path == f.path;
      var i :| 0 <= i < |chosen| && chosen[i] == g;
    } else {
      assert forall i | 0 <= i < |chosen| :: chosen[i] in chosen && chosen[i].path != f.path;
    }
  }

  lemma {:induction false} RemovedAll<R>(s: Store<R>, files: seq<FileInfo>, e: Env, j: nat)
    requires j <= |files| && AllDeletes(e)
    ensures forall i | 0 <= i < j :: files[i].path !in Removed(s, files, e, j)
  {
    if j > 0 {
      RemovedAll(s, files, e, j - 1);
    }
  }

  /** A merge that works takes exactly the chosen ones of the ripe files. */
  lemma GoneAreChosen<R>(s: Store<R>, files: seq<FileInfo>, i: nat, chosen: seq<FileInfo>, c: Config, e: Env, now: int)
    requires DistinctPaths(files) && i < |c.levels| && Fresh(s, e) && AllDeletes(e) && Present(s, chosen)
    requires GoneFrom(s, RipeFiles(c.levels, files, i, now)) == {}
    requires Members(chosen) <= RipeFiles(c.levels, files, i, now)
    ensures GoneFrom(Merged(s, chosen, c, e), RipeFiles(c.levels, files, i, now)) == Members(chosen)
  {
    hide DistinctPaths, Fresh, AllDeletes, Merged, RipeFiles;
    var ripe, t := RipeFiles(c.levels, files, i, now), Merged(s, chosen, c, e);
    forall f | f in ripe ensures f.path !in t <==> f in chosen {
      assert f !in GoneFrom(s, ripe);
      MergedGone(s, chosen, c, e, f);
      RipeByPath(c.levels, files, i, now, chosen, f);
    }
  }

  lemma LevelMerged<R>(s0: Store<R>, s: Store<R>, files: seq<FileInfo>, done: set<Path>, i: nat,
                       chosen: seq<FileInfo>, rest: seq<FileInfo>, c: Config, e: Env, now: int, t: Store<R>)
    requires DistinctNames(c.levels) && DistinctPaths(files) && i < |c.levels| && Present(s0, files)
    requires FilesAhead(s0, s, c.levels, files, done, i) && Fresh(s, e) && AllDeletes(e)
    requires multiset(chosen) + multiset(rest) ==
             multiset(Filtered(OfLevel(c.levels, files, c.levels[i].name), c.levels[i], now))
    requires c.levels[i].minFilesToMerge <= |chosen| <= c.maxFilesToMerge
    requires rest != [] ==> |chosen| == c.maxFilesToMerge
    requires forall a <- chosen, b <- rest :: !Before(b, a)
    requires Present(s, chosen) && t == Merged(s, chosen, c, e)
    ensures LevelDone(c, files, i, now, t)
  {
    hide Merged, Fresh, FilesAhead, RipeFiles, OfLevel, Filtered, DistinctNames, DistinctPaths, GoneFrom, AllDeletes,
      Before;
    var ripe := RipeFiles(c.levels, files, i, now);
    RipeCount(c.levels, files, i, chosen, rest, now);
    RipeStillThere(s0, s, files, done, c.levels, i, now);
    GoneAreChosen(s, files, i, chosen, c, e, now);
    assert ripe - Members(chosen) == Members(rest);
    SmallestFirst(chosen, rest);
    hide Members, Before, Present;
  }

  lemma SmallestFirst(chosen: seq<FileInfo>, rest: seq<FileInfo>)
    requires forall a <- chosen, b <- rest :: !Before(b, a)
    ensures forall f <- Members(chosen), g <- Members(rest) ::
              f.size < g.size || (f.size == g.size && f.modTime <= g.modTime)
  {
  }

  /** A merge of level `i` completes that level and leaves the levels before it as they are. */
  lemma MergeDone<R>(s0: Store<R>, s: Store<R>, files: seq<FileInfo>, done: set<Path>, i: nat, chosen: seq<FileInfo>,
                     rest: seq<FileInfo>, c: Config, envs: nat -> Env, now: nat -> int, t: Store<R>)
    requires DistinctNames(c.levels) && DistinctPaths(files) && i < |c.levels| && Present(s0, files)
    requires FilesAhead(s0, s, c.levels, files, done, i) && FreshPass(s0, envs) && NamesAhead(s, envs, i)
    requires Working(envs(i)) && FromLevel(c.levels, files, i, chosen) && Stage(s, chosen, c, envs(i), t)
    requires multiset(chosen) + multiset(rest) ==
             multiset(Filtered(OfLevel(c.levels, files, c.levels[i].name), c.levels[i], now(i)))
    requires c.levels[i].minFilesToMerge <= |chosen| <= c.maxFilesToMerge
    requires rest != [] ==> |chosen| == c.maxFilesToMerge
    requires forall a <- chosen, b <- rest :: !Before(b, a)
    requires Present(s, chosen) && t == Merged(s, chosen, c, envs(i))
    requires LevelsDone(c, files, i, now, s)
    ensures LevelsDone(c, files, i + 1, now, t)
  {
    hide Merged, Stage, Fresh, FreshPass, NamesAhead, FilesAhead, FromLevel, OfLevel, Filtered, DistinctNames,
      DistinctPaths, Before, LevelDone, AllDeletes, AllUploads, AllStats;
    FreshForLevel(s0, s, envs, i);
    LevelMerged(s0, s, files, done, i, chosen, rest, c, envs(i), now(i), t);
    forall k | 0 <= k < i ensures LevelDone(c, files, k, now(k), t) {
      LevelStays(s0, s, files, i, k, chosen, c, envs, now(k), t);
    }
  }

  lemma RipeByPath(levels: seq<Level>, files: seq<FileInfo>, i: nat, now: int, chosen: seq<FileInfo>, f: FileInfo)
    requires DistinctPaths(files) && i < |levels| && f in RipeFiles(levels, files, i, now)
    requires forall g <- chosen :: g in RipeFiles(levels, files, i, now)
    ensures f.path in Paths(chosen) <==> f in chosen
  {
    if f.path in Paths(chosen) {
      var g :| g in chosen && g.path == f.path;
      var a :| 0 <= a < |files| && files[a] == f;
      var b :| 0 <= b < |files| && files[b] == g;
    }
  }

  /** Merging one level leaves what was achieved for another. */
  lemma LevelStays<R>(s0: Store<R>, s: Store<R>, files: seq<FileInfo>, i: nat, k: nat, chosen: seq<FileInfo>, c: Config,
                      envs: nat -> Env, now: int, t: Store<R>)
    requires DistinctNames(c.levels) && DistinctPaths(files) && i < |c.levels| && k < |c.levels| && i != k
    requires Present(s0, files) && FreshPass(s0, envs) && NamesAhead(s, envs, i)
    requires FromLevel(c.levels, files, i, chosen) && Stage(s, chosen, c, envs(i), t)
    requires LevelDone(c, files, k, now, s)
    ensures LevelDone(c, files, k, now, t)
  {
    FreshForLevel(s0, s, envs, i);
    StageKeys(s, chosen, c, envs(i), t);
    ListedApart(s0, files, envs, i);
    var ripe := RipeFiles(c.levels, files, k, now);
    hide Stage, Fresh, FreshPass, NamesAhead;
    forall f | f in ripe ensures f.path in s <==> f.path in t {
      OtherLevel(c.levels, files, i, k, now, chosen, f);
    }
    hide RipeFiles, OfLevel, DistinctNames, DistinctPaths, FromLevel;
    assert GoneFrom(s, ripe) == GoneFrom(t, ripe);
  }

  lemma OtherLevel(levels: seq<Level>, files: seq<FileInfo>, i: nat, k: nat, now: int, chosen: seq<FileInfo>,
                   f: FileInfo)
    requires DistinctNames(levels) && DistinctPaths(files) && i < |levels| && k < |levels| && i != k
    requires FromLevel(levels, files, i, chosen) && f in RipeFiles(levels, files, k, now)
    ensures f.path !in Paths(chosen) && f in files
  {
    SelectedAreRipe(levels, files, k, now, f);
    FilteredMembers(OfLevel(levels, files, levels[k].name), levels[k], now, f);
    hide Filtered, OfLevel, DistinctNames, DistinctPaths, RipeFiles;
    forall g | g in chosen ensures g.path != f.path {
      LevelsApart(levels, files, i, k, g, f);
    }
    OfLevelMembers(levels, files, levels[k].name, f);
  }

  lemma OneStore<R>(s: Store<R>)
    ensures SingleSteps([s])
  {
  }

  lemma StartOfPass<R(!new)>(s: Store<R>, envs: nat -> Env)
    requires FreshPass(s, envs)
    ensures NamesAhead(s, envs, 0) && NotLess(s, s) && AtMostTwice(s, s) && SameRecords(s, s) && AtMostDoubled(s, {}, s)
  {
    hide Held;
  }

  lemma StartAhead<R>(s: Store<R>, levels: seq<Level>, files: seq<FileInfo>)
    ensures FilesAhead(s, s, levels, files, {}, 0)
  {
    hide OfLevel;
  }

  lemma SkipLevel<R>(s: Store<R>, t: Store<R>, envs: nat -> Env, levels: seq<Level>, files: seq<FileInfo>,
                     done: set<Path>, i: nat)
    ensures NamesAhead(t, envs, i) ==> NamesAhead(t, envs, i + 1)
    ensures FilesAhead(s, t, levels, files, done, i) ==> FilesAhead(s, t, levels, files, done, i + 1)
  {
    hide OfLevel;
  }

  lemma LessDone<R>(s: Store<R>, t: Store<R>, levels: seq<Level>, files: seq<FileInfo>, done: set<Path>,
                    more: set<Path>, i: nat)
    requires FilesAhead(s, t, levels, files, done + more, i)
    ensures FilesAhead(s, t, levels, files, done, i)
  {
    hide OfLevel;
  }

  lemma ListedApart<R>(s: Store<R>, files: seq<FileInfo>, envs: nat -> Env, i: nat)
    requires FreshPass(s, envs) && Present(s, files)
    ensures forall f <- files, k: nat :: envs(i).nameOf(k) != f.path
  {
  }

  lemma ChosenDistinct(levels: seq<Level>, files: seq<FileInfo>, i: nat, chosen: seq<FileInfo>)
    requires FromLevel(levels, files, i, chosen)
    ensures DistinctPaths(chosen)
  {
  }

  lemma ChosenFromLevel(levels: seq<Level>, files: seq<FileInfo>, i: nat, chosen: seq<FileInfo>, rest: seq<FileInfo>,
                        now: int)
    requires i < |levels| && DistinctPaths(files)
    requires multiset(chosen) + multiset(rest) ==
             multiset(Filtered(OfLevel(levels, files, levels[i].name), levels[i], now))
    ensures FromLevel(levels, files, i, chosen)
  {
    hide OfLevel, Filtered, DistinctPaths;
    var mine := OfLevel(levels, files, levels[i].name);
    FilteredWithin(mine, levels[i], now);
    OfLevelWithin(levels, files, levels[i].name);
    assert multiset(chosen) <= multiset(mine);
    SubDistinct(files, chosen);
    forall f | f in chosen ensures f in mine {
      assert f in multiset(chosen);
    }
  }

  /** A merge that gave up has deleted nothing. */
  ghost predicate Untouched<R>(s: Store<R>, files: seq<FileInfo>, c: Config, e: Env, t: Store<R>) {
    t == s || exists k :: Uploading(s, files, c, e, t, k)
  }

  /** The files a merge writes: all but the last hold the configured number of records, a million if none is set. */
  lemma OutputsAreFull<R>(s: Store<R>, files: seq<FileInfo>, c: Config)
    requires Present(s, files)
    ensures var outputs := Outputs(s, files, c);
            var most := if c.maxRowsPerFile > 0 then c.maxRowsPerFile else 1_000_000;
            && outputs != [] && |outputs[|outputs| - 1]| < most
            && forall i | 0 <= i < |outputs| - 1 :: |outputs[i]| == most
  {
    ChunksAreFull(Input(s, files), MaxRows(c));
  }

  lemma AreOutputs<R>(s: Store<R>, files: seq<FileInfo>, c: Config)
    requires Present(s, files)
    ensures Outputs(s, files, c) == Chunks(Input(s, files), MaxRows(c))
  {
  }

  lemma UploadedStart<R>(s: Store<R>, outputs: seq<seq<R>>, e: Env)
    ensures Uploaded(s, outputs, e, 0) == s
  {
  }

  lemma UploadedStep<R>(s: Store<R>, outputs: seq<seq<R>>, e: Env, k: nat)
    requires k < |outputs|
    ensures var t := Uploaded(s, outputs, e, k);
            Uploaded(s, outputs, e, k + 1) == if e.statOk(k) then t[e.nameOf(k) := outputs[k]] else t
  {
  }

  lemma RemovedStart<R>(s: Store<R>, files: seq<FileInfo>, e: Env)
    ensures Removed(s, files, e, 0) == s
  {
  }

  lemma RemovedStep<R>(s: Store<R>, files: seq<FileInfo>, e: Env, j: nat)
    requires j < |files|
    ensures var t := Removed(s, files, e, j);
            Removed(s, files, e, j + 1) == if e.deleteOk(files[j].path) then t - {files[j].path} else t
  {
  }

  lemma {:induction false} UploadedNames<R>(s: Store<R>, outputs: seq<seq<R>>, e: Env, k: nat)
    requires k <= |outputs|
    ensures forall p <- Uploaded(s, outputs, e, k) :: p in s || exists i: nat :: p == e.nameOf(i)
  {
    if k > 0 {
      UploadedNames(s, outputs, e, k - 1);
    }
  }

  /** A merge adds objects under its own names and takes away only the files it merges. */
  lemma StageKeys<R>(s: Store<R>, files: seq<FileInfo>, c: Config, e: Env, t: Store<R>)
    requires Fresh(s, e) && Stage(s, files, c, e, t)
    ensures forall p <- t :: p in s || exists k: nat :: p == e.nameOf(k)
    ensures forall p <- s :: p !in Paths(files) ==> p in t && t[p] == s[p]
  {
    hide Uploaded, Removed, Outputs, Input;
    if t == s {
    } else if k :| Uploading(s, files, c, e, t, k) {
      UploadedNames(s, Outputs(s, files, c), e, k);
      UploadedKeys(s, Outputs(s, files, c), e, k);
    } else {
      var j :| Deleting(s, files, c, e, t, j);
      var outputs := Outputs(s, files, c);
      UploadedNames(s, outputs, e, |outputs|);
      UploadedKeys(s, outputs, e, |outputs|);
      RemovedKeeps(Uploaded(s, outputs, e, |outputs|), files, e, j);
    }
  }

  lemma FreshForLevel<R>(s: Store<R>, t: Store<R>, envs: nat -> Env, i: nat)
    requires FreshPass(s, envs) && NamesAhead(t, envs, i)
    ensures Fresh(t, envs(i))
  {
  }

  lemma NamesStayAhead<R>(s0: Store<R>, s: Store<R>, files: seq<FileInfo>, c: Config, envs: nat -> Env, i: nat,
                          t: Store<R>)
    requires FreshPass(s0, envs) && NamesAhead(s, envs, i) && Stage(s, files, c, envs(i), t)
    ensures NamesAhead(t, envs, i + 1)
  {
    FreshForLevel(s0, s, envs, i);
    StageKeys(s, files, c, envs(i), t);
    hide Stage, Fresh;
  }

  /** A file of one level is not listed for another. */
  lemma LevelsApart(levels: seq<Level>, files: seq<FileInfo>, i: nat, j: nat, f: FileInfo, g: FileInfo)
    requires DistinctNames(levels) && DistinctPaths(files) && i < |levels| && j < |levels| && i != j
    requires f in OfLevel(levels, files, levels[i].name) && g in OfLevel(levels, files, levels[j].name)
    ensures f.path != g.path
  {
    OfLevelMembers(levels, files, levels[i].name, f);
    OfLevelMembers(levels, files, levels[j].name, g);
    hide OfLevel, FileLevel;
    assert forall a, b | 0 <= a < |files| && 0 <= b < |files| && files[a].path == files[b].path :: a == b;
  }

  ghost predicate FromLevel(levels: seq<Level>, files: seq<FileInfo>, i: nat, chosen: seq<FileInfo>) {
    && i < |levels|
    && DistinctPaths(chosen)
    && forall f <- chosen :: f in OfLevel(levels, files, levels[i].name)
  }

  lemma FilesStayAhead<R>(s0: Store<R>, s: Store<R>, files: seq<FileInfo>, done: set<Path>, i: nat,
                          chosen: seq<FileInfo>, c: Config, envs: nat -> Env, t: Store<R>)
    requires FilesAhead(s0, s, c.levels, files, done, i) && FromLevel(c.levels, files, i, chosen)
    requires DistinctNames(c.levels) && DistinctPaths(files)
    requires FreshPass(s0, envs) && NamesAhead(s, envs, i) && Stage(s, chosen, c, envs(i), t)
    requires forall f <- files, k: nat :: envs(i).nameOf(k) != f.path
    ensures FilesAhead(s0, t, c.levels, files, done + Paths(chosen), i + 1)
  {
    FreshForLevel(s0, s, envs, i);
    StageKeys(s, chosen, c, envs(i), t);
    hide Stage, Fresh, FreshPass, NamesAhead, DistinctNames, DistinctPaths, OfLevel;
    forall j, f | i + 1 <= j < |c.levels| && f in OfLevel(c.levels, files, c.levels[j].name)
      ensures f.path !in done + Paths(chosen)
      ensures f.path in s0 <==> f.path in t
      ensures f.path in s0 ==> s0[f.path] == t[f.path]
    {
      OfLevelMembers(c.levels, files, c.levels[j].name, f);
      forall g | g in chosen ensures g.path != f.path {
        LevelsApart(c.levels, files, i, j, g, f);
      }
    }
  }

  /** One more level keeps the bound: its files have been merged by no earlier level. */
  lemma StillAtMostDoubled<R(!new)>(s0: Store<R>, s: Store<R>, files: seq<FileInfo>, done: set<Path>, i: nat,
                                    chosen: seq<FileInfo>, c: Config, e: Env, t: Store<R>)
    requires FilesAhead(s0, s, c.levels, files, done, i) && FromLevel(c.levels, files, i, chosen)
    requires Fresh(s, e) && Stage(s, chosen, c, e, t) && AtMostDoubled(s0, done, s)
    ensures AtMostDoubled(s0, if Present(s, chosen) then done + Paths(chosen) else done, t)
    ensures AtMostTwice(s0, t)
  {
    hide Stage, Fresh, OfLevel, Held;
    var done' := if Present(s, chosen) then done + Paths(chosen) else done;
    forall r: R ensures Held(t, r) <= Held(s0, r) + Held(Only(s0, done'), r) {
      StageBounds(s, chosen, c, e, t, r);
      if Present(s, chosen) {
        assert SameFiles(s0, s, chosen);
        assert Paths(chosen) !! done;
        InputOnly(s0, done, chosen, r);
        SameInput(s0, s, chosen);
      }
    }
    forall r: R ensures Held(t, r) <= 2 * Held(s0, r) {
      OnlyIsLess(s0, done', r);
    }
  }

  lemma {:induction false} SameInput<R>(s: Store<R>, t: Store<R>, files: seq<FileInfo>)
    requires SameFiles(s, t, files)
    ensures Present(s, files) && Present(t, files) && Input(s, files) == Input(t, files)
  {
    if files != [] {
      assert files[|files| - 1] in files;
      SameInput(s, t, files[..|files| - 1]);
    }
  }

  lemma StageNotLess<R(!new)>(s0: Store<R>, s: Store<R>, files: seq<FileInfo>, c: Config, e: Env, t: Store<R>)
    requires NotLess(s0, s) && Fresh(s, e) && Stage(s, files, c, e, t) && AllStats(e)
    ensures NotLess(s0, t)
  {
    hide Stage, Fresh, AllStats, Held;
    forall r: R ensures Held(s0, r) <= Held(t, r) {
      StageBounds(s, files, c, e, t, r);
    }
  }

  lemma MergeSameRecords<R(!new)>(s0: Store<R>, s: Store<R>, files: seq<FileInfo>, c: Config, e: Env)
    requires SameRecords(s0, s) && Fresh(s, e) && Present(s, files) && DistinctPaths(files) && NoFailure(e)
    ensures SameRecords(s0, Merged(s, files, c, e))
  {
    hide Merged, Outputs, Fresh, Held;
    forall r: R ensures Held(s0, r) == Held(Merged(s, files, c, e), r) {
      MergeAccount(s, files, c, e, r);
      NoneSkipped(Outputs(s, files, c), e, |Outputs(s, files, c)|);
    }
  }
}
