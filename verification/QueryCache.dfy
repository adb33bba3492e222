/** The query cache: results in a shared store, a per-table index for invalidation, and a local LRU directory. */
module QueryCache {
  import opened Prelude
  import opened Lru
  import Normalize

  // Cache keys

  /** What a cache key is the hash of; the hash is taken to be injective, so this string stands for the key. */
  function Key(query: string, tables: seq<string>): string {
    Normalize.NormalForm(query) + ['|'] + Join(',', tables)
  }

  predicate ProperNames(tables: seq<string>) {
    tables != [""] && forall t <- tables :: ',' !in t && '|' !in t
  }

  function AfterLastBar(s: string): string {
    if s == "" || s[|s| - 1] == '|' then "" else AfterLastBar(s[..|s| - 1]) + [s[|s| - 1]]
  }

  /** The tables a key was made with. */
  function TablesOf(key: string): seq<string> {
    var t := AfterLastBar(key);
    if t == "" then [] else Split(',', t)
  }

  lemma {:induction false} AfterBar(front: string, t: string)
    requires '|' !in t
    ensures AfterLastBar(front + ['|'] + t) == t
  {
    var s := front + ['|'] + t;
    if t != "" {
      assert s[..|s| - 1] == front + ['|'] + t[..|t| - 1];
      AfterBar(front, t[..|t| - 1]);
    }
  }

  lemma {:induction false} JoinFree(c: char, tables: seq<string>)
    requires c != ',' && forall t <- tables :: c !in t
    ensures c !in Join(',', tables)
  {
    if tables != [] {
      JoinFree(c, tables[1..]);
    }
  }

  lemma {:induction false} NoBarAfterLast(s: string)
    ensures '|' !in AfterLastBar(s)
  {
    if s != "" && s[|s| - 1] != '|' {
      NoBarAfterLast(s[..|s| - 1]);
    }
  }

  lemma {:induction false} SplitFree(sep: char, c: char, s: string)
    requires c !in s
    ensures forall p <- Split(sep, s) :: c !in p
  {
    if s != "" {
      SplitFree(sep, c, s[1..]);
    }
  }

  lemma {:induction false} JoinIsEmpty(tables: seq<string>)
    ensures Join(',', tables) == "" <==> tables == [] || tables == [""]
  {
  }

  /** A key determines its tables exactly if their names are proper. */
  lemma KeyTablesIff(query: string, tables: seq<string>)
    ensures TablesOf(Key(query, tables)) == tables <==> ProperNames(tables)
  {
    hide Normalize.NormalForm, AfterLastBar, Split;
    var key, joined := Key(query, tables), Join(',', tables);
    if ProperNames(tables) {
      JoinFree('|', tables);
      AfterBar(Normalize.NormalForm(query), joined);
      JoinIsEmpty(tables);
      if tables != [] { SplitJoin(',', tables); }
    } else if TablesOf(key) == tables {
      NoBarAfterLast(key);
      SplitFree(',', '|', AfterLastBar(key));
      SplitPartsAreWhole(',', AfterLastBar(key));
      OnlyEmpty(',', AfterLastBar(key));
      assert false;
    }
  }

  lemma OnlyEmpty(sep: char, s: string)
    ensures Split(sep, s) == [""] ==> s == ""
  {
    if s != "" {
      assert s[0] == sep ==> |Split(sep, s)| > 1;
      assert s[0] != sep ==> Split(sep, s)[0] != "";
    }
  }

  /** Keys of queries on properly named tables agree exactly if the normal forms and the tables do. */
  lemma KeysAgreeIff(p: string, ps: seq<string>, q: string, qs: seq<string>)
    requires ProperNames(ps) && ProperNames(qs)
    ensures Key(p, ps) == Key(q, qs) <==> Normalize.NormalForm(p) == Normalize.NormalForm(q) && ps == qs
  {
    KeyTablesIff(p, ps);
    KeyTablesIff(q, qs);
    hide Normalize.NormalForm, TablesOf, Join;
    if Key(p, ps) == Key(q, qs) {
      assert ps == qs;
      var tail := ['|'] + Join(',', ps);
      assert Key(p, ps) == Normalize.NormalForm(p) + tail && Key(q, qs) == Normalize.NormalForm(q) + tail;
      SameFront(Normalize.NormalForm(p), Normalize.NormalForm(q), tail);
    }
  }

  lemma SameFront(a: string, b: string, tail: string)
    requires a + tail == b + tail
    ensures a == b
  {
    assert |a| == |b|;
    forall i | 0 <= i < |a| ensures a[i] == b[i] {
      assert (a + tail)[i] == (b + tail)[i];
    }
  }

  /** A bar in a name lets another query share the key. */
  lemma BarsMergeKeys(p: string, q: string)
    requires Normalize.NormalForm(p) == Normalize.NormalForm(q) + "|b"
    ensures Key(p, ["t"]) == Key(q, ["b|t"])
  {
    hide Normalize.NormalForm;
    assert Join(',', ["t"]) == "t" && Join(',', ["b|t"]) == "b|t";
    assert "|b" + ['|'] + "t" == ['|'] + "b|t";
  }

  /** Without that, one key serves two table lists, and invalidating by one of them misses it. */
  lemma CommasMergeKeys(query: string)
    ensures Key(query, ["a,b"]) == Key(query, ["a", "b"])
  {
    hide Normalize.NormalForm;
    assert Join(',', ["b"]) == "b" && ["a", "b"][1..] == ["b"];
    assert Join(',', ["a", "b"]) == "a" + [','] + "b" == "a,b";
  }

  // States and operations

  datatype Stored = Stored(result: string)

  /**
   * `redis` and `index` are the shared store, `lru` the local directory, `pending` the access refreshes not yet
   * written.
   */
  datatype State = State(redis: map<string, Stored>, index: map<string, set<string>>, lru: Recency,
                         pending: seq<(string, Stored)>)

  const EMPTY := State(map[], map[], [], [])

  function KeySet(keys: seq<string>): set<string> {
    set k <- keys
  }

  function KeptFor(capacity: int, lru: Recency, bytes: nat): (kept: Recency)
    ensures |kept| <= |lru|
  {
    if Total(lru) + bytes > capacity then EvictFor(lru, bytes) else lru
  }

  function Indexed(index: map<string, set<string>>, tables: seq<string>, key: string): map<string, set<string>> {
    if tables == [] then index
    else
      var m := Indexed(index, tables[..|tables| - 1], key);
      var t := tables[|tables| - 1];
      m[t := (if t in m then m[t] else {}) + {key}]
  }

  /** All keys listed for the tables. */
  function Listed(index: map<string, set<string>>, tables: seq<string>): set<string> {
    if tables == [] then {}
    else
      var t := tables[|tables| - 1];
      Listed(index, tables[..|tables| - 1]) + (if t in index then index[t] else {})
  }

  function WithoutAll(s: Recency, keys: set<string>): Recency {
    if s == [] then [] else (if s[0].key in keys then [] else [s[0]]) + WithoutAll(s[1..], keys)
  }

  function SetOp(capacity: int, s: State, query: string, tables: seq<string>, result: string, bytes: nat,
                 expires: int): State {
    var key := Key(query, tables);
    var kept := KeptFor(capacity, s.lru, bytes);
    State((s.redis - KeySet(KeysBackward(s.lru[|kept|..])))[key := Stored(result)],
          Indexed(s.index, tables, key),
          PutFront(kept, Entry(key, bytes, expires)),
          s.pending)
  }

  /**
   * Found in the directory or not, the shared store decides; what was only there is put into the directory unguarded.
   */
  function GetOp(s: State, query: string, tables: seq<string>, now: int, expires: int): State {
    var key := Key(query, tables);
    var touched := Touch(s.lru, key, now);
    var local := Hit(s.lru, key, now).Some?;
    if key !in s.redis then
      s.(lru := if local then Without(touched, key) else touched)
    else
      var e := s.redis[key];
      s.(lru := if local then touched else PutFront(touched, Entry(key, |e.result|, expires)),
         pending := s.pending + [(key, e)])
  }

  function Answer(s: State, query: string, tables: seq<string>): Option<Stored> {
    var key := Key(query, tables);
    if key in s.redis then Some(s.redis[key]) else None
  }

  function RefreshOp(s: State, i: nat): State {
    if i < |s.pending| then
      s.(redis := s.redis[s.pending[i].0 := s.pending[i].1], pending := s.pending[..i] + s.pending[i + 1..])
    else s
  }

  function InvalidateOp(s: State, tables: seq<string>): State {
    var gone := Listed(s.index, tables);
    State(s.redis - gone, s.index - KeySet(tables), WithoutAll(s.lru, gone), s.pending)
  }

  lemma {:induction false} KeysBackwardMembers(s: Recency, key: string)
    ensures key in KeysBackward(s) <==> exists i | 0 <= i < |s| :: s[i].key == key
  {
    if s != [] {
      KeysBackwardMembers(s[..|s| - 1], key);
      var k := |s| - 1;
      if i :| 0 <= i < |s| && s[i].key == key {
        assert i < k ==> s[..k][i].key == key;
      }
    }
  }

  /**
   * Storing a result: it is what the next Get answers. If the directory has no room, its shortest least recent part
   * that frees enough leaves the store; every other key stays as it is.
   */
  lemma SetMeans(capacity: int, s: State, query: string, tables: seq<string>, result: string, bytes: nat, expires: int)
    returns (k: nat)
    ensures var t := SetOp(capacity, s, query, tables, result, bytes, expires);
            && Answer(t, query, tables) == Some(Stored(result)) && t.pending == s.pending
            && k <= |s.lru|
              && t.lru == [Entry(Key(query, tables), bytes, expires)] + Without(s.lru[..k], Key(query, tables))
            && (Total(s.lru) + bytes <= capacity ==> k == |s.lru|)
            && (Total(s.lru) + bytes > capacity ==>
                  (k == 0 || Total(s.lru[k..]) >= bytes) && (k < |s.lru| ==> Total(s.lru[k + 1..]) < bytes))
            && forall other | other != Key(query, tables) ::
                 && (other in t.redis <==> other in s.redis && forall i | k <= i < |s.lru| :: s.lru[i].key != other)
                 && (other in t.redis ==> t.redis[other] == s.redis[other])
  {
    k := RoomMade(capacity, s.lru, bytes);
    hide Key, Total, Without, Indexed, KeptFor, KeysBackward, KeySet;
    forall other
      ensures other in KeySet(KeysBackward(s.lru[k..])) <==> !(forall i | k <= i < |s.lru| :: s.lru[i].key != other)
    {
      DroppedKeys(s.lru, k, other);
    }
  }

  lemma RoomMade(capacity: int, lru: Recency, bytes: nat) returns (k: nat)
    ensures k <= |lru| && KeptFor(capacity, lru, bytes) == lru[..k]
    ensures Total(lru) + bytes <= capacity ==> k == |lru|
    ensures Total(lru) + bytes > capacity ==>
              (k == 0 || Total(lru[k..]) >= bytes) && (k < |lru| ==> Total(lru[k + 1..]) < bytes)
  {
    k := |KeptFor(capacity, lru, bytes)|;
    EvictsShortestSuffix(lru, bytes);
    hide EvictFor, Total;
    assert lru[..|lru|] == lru;
  }

  lemma DroppedKeys(lru: Recency, k: nat, key: string)
    requires k <= |lru|
    ensures key in KeySet(KeysBackward(lru[k..])) <==> !(forall i | k <= i < |lru| :: lru[i].key != key)
  {
    KeysBackwardMembers(lru[k..], key);
    hide KeysBackward;
    if i :| k <= i < |lru| && lru[i].key == key { assert lru[k..][i - k].key == key; }
  }

  /** A Get leaves its key in front of the directory if the store has it, and nowhere in the directory if not. */
  lemma GetMeans(s: State, query: string, tables: seq<string>, now: int, expires: int)
    ensures var key, t := Key(query, tables), GetOp(s, query, tables, now, expires);
            && t.redis == s.redis && t.index == s.index
            && (key in s.redis ==>
                  t.lru != [] && t.lru[0].key == key && t.pending == s.pending + [(key, s.redis[key])])
            && (key !in s.redis ==> (forall e <- t.lru :: e.key != key) && t.pending == s.pending)
  {
    var key := Key(query, tables);
    FindMember(s.lru, key);
    WithoutMembers(s.lru, key);
    WithoutMembers(Touch(s.lru, key, now), key);
    hide Key, Find, Without;
  }

  /** An invalidation takes exactly the listed keys out of the store and out of the directory, and the tables' lists. */
  lemma InvalidateMeans(s: State, tables: seq<string>, key: string)
    ensures var t, listed := InvalidateOp(s, tables), exists n <- tables :: n in s.index && key in s.index[n];
            && (key in t.redis <==> key in s.redis && !listed)
            && (key in t.redis ==> t.redis[key] == s.redis[key])
            && (forall e: Entry | e.key == key :: e in t.lru <==> e in s.lru && !listed)
            && (forall n: string :: n in t.index <==> n in s.index && n !in tables) && t.pending == s.pending
  {
    ListedMembers(s.index, tables, key);
    WithoutAllMembers(s.lru, Listed(s.index, tables));
    hide Listed, WithoutAll;
  }

  // Runs

  datatype Event =
    | Set(query: string, tables: seq<string>, result: string, bytes: nat, expires: int)
    | Get(query: string, tables: seq<string>, now: int, expires: int)
    | Refresh(i: nat)
    | Invalidate(tables: seq<string>)

  function Step(capacity: int, s: State, e: Event): State {
    match e
    case Set(q, ts, r, n, x) => SetOp(capacity, s, q, ts, r, n, x)
    case Get(q, ts, now, x) => GetOp(s, q, ts, now, x)
    case Refresh(i) => RefreshOp(s, i)
    case Invalidate(ts) => InvalidateOp(s, ts)
  }

  function Run(capacity: int, s: State, es: seq<Event>): State {
    if es == [] then s else Step(capacity, Run(capacity, s, es[..|es| - 1]), es[|es| - 1])
  }

  // Invalidation

  ghost predicate Listing(index: map<string, set<string>>, key: string) {
    forall t <- TablesOf(key) :: t in index && key in index[t]
  }

  ghost predicate Waiting(s: State, key: string) {
    exists p <- s.pending :: p.0 == key
  }

  /** Every stored key, and every key about to be stored again, is in the index of each of its tables. */
  ghost predicate Known(s: State) {
    && (forall k <- s.redis :: Listing(s.index, k))
    && (forall p <- s.pending :: Listing(s.index, p.0))
  }

  ghost predicate Affected(key: string, tables: seq<string>) {
    exists t <- TablesOf(key) :: t in tables
  }

  /** No refresh of an affected key is pending when tables are invalidated; stored table names are proper. */
  ghost predicate Calm(s: State, e: Event) {
    && (e.Set? ==> ProperNames(e.tables))
    && (e.Invalidate? ==> forall p <- s.pending :: !Affected(p.0, e.tables))
  }

  ghost predicate CalmRun(capacity: int, s: State, es: seq<Event>) {
    forall i | 0 <= i < |es| :: Calm(Run(capacity, s, es[..i]), es[i])
  }

  lemma {:induction false} IndexedLists(index: map<string, set<string>>, tables: seq<string>, key: string)
    ensures forall t <- tables :: t in Indexed(index, tables, key) && key in Indexed(index, tables, key)[t]
    ensures forall t <- index :: t in Indexed(index, tables, key) && index[t] <= Indexed(index, tables, key)[t]
  {
    if tables != [] {
      IndexedLists(index, tables[..|tables| - 1], key);
    }
  }

  lemma {:induction false} ListedMembers(index: map<string, set<string>>, tables: seq<string>, key: string)
    ensures key in Listed(index, tables) <==> exists t <- tables :: t in index && key in index[t]
  {
    if tables != [] {
      var k := |tables| - 1;
      ListedMembers(index, tables[..k], key);
      assert tables == tables[..k] + [tables[k]];
    }
  }

  lemma SetKnown(capacity: int, s: State, e: Event)
    requires Known(s) && e.Set? && ProperNames(e.tables)
    ensures Known(Step(capacity, s, e))
  {
    var key := Key(e.query, e.tables);
    KeyTablesIff(e.query, e.tables);
    IndexedLists(s.index, e.tables, key);
    hide Key, TablesOf, Indexed, KeptFor, PutFront, KeysBackward, KeySet, ProperNames;
  }

  lemma InvalidateKnown(s: State, tables: seq<string>)
    requires Known(s) && (forall p <- s.pending :: !Affected(p.0, tables))
    ensures Known(InvalidateOp(s, tables))
  {
    hide TablesOf, Listed, WithoutAll;
    var after := InvalidateOp(s, tables);
    forall k | k in after.redis ensures Listing(after.index, k) {
      ListedMembers(s.index, tables, k);
    }
    forall p | p in s.pending ensures Listing(after.index, p.0) {
      assert !Affected(p.0, tables);
    }
  }

  lemma GetKnown(s: State, e: Event)
    requires Known(s) && e.Get?
    ensures Known(GetOp(s, e.query, e.tables, e.now, e.expires))
  {
    hide Key, TablesOf, Listing, Touch, Hit, Without, PutFront;
  }

  lemma RefreshKnown(s: State, i: nat)
    requires Known(s)
    ensures Known(RefreshOp(s, i))
  {
    hide TablesOf, Listing;
    if i < |s.pending| {
      assert s.pending[i] in s.pending;
      assert forall p <- s.pending[..i] + s.pending[i + 1..] :: p in s.pending;
    }
  }

  lemma {:induction false} RunKnown(capacity: int, s: State, es: seq<Event>)
    requires Known(s) && CalmRun(capacity, s, es)
    ensures Known(Run(capacity, s, es))
  {
    hide Known, Step;
    if es != [] {
      var k := |es| - 1;
      assert CalmRun(capacity, s, es[..k]) by {
        assert forall i | 0 <= i < k :: es[..k][..i] == es[..i] && es[..k][i] == es[i];
      }
      RunKnown(capacity, s, es[..k]);
      StepKnown(capacity, Run(capacity, s, es[..k]), es[k]);
    }
  }

  lemma StepKnown(capacity: int, s: State, e: Event)
    requires Known(s) && Calm(s, e)
    ensures Known(Step(capacity, s, e))
  {
    hide Known, SetOp, GetOp, RefreshOp, InvalidateOp, Affected, ProperNames;
    match e
    case Set(_, _, _, _, _) => SetKnown(capacity, s, e);
    case Get(_, _, _, _) => GetKnown(s, e);
    case Refresh(i) => RefreshKnown(s, i);
    case Invalidate(ts) => InvalidateKnown(s, ts);
  }

  lemma InvalidatedIsGone(s: State, tables: seq<string>, key: string)
    requires Known(s) && Affected(key, tables)
    ensures key !in InvalidateOp(s, tables).redis
  {
    hide TablesOf, WithoutAll, Listed;
    ListedMembers(s.index, tables, key);
  }

  /** In every calm run: right after tables are invalidated, every query on one of them misses. */
  lemma GetMissesAfterInvalidation(capacity: int, s: State, es: seq<Event>, invalid: seq<string>, query: string,
                                   tables: seq<string>)
    requires Known(s) && CalmRun(capacity, s, es)
    requires ProperNames(tables) && exists t <- tables :: t in invalid
    ensures Answer(InvalidateOp(Run(capacity, s, es), invalid), query, tables) == None
  {
    RunKnown(capacity, s, es);
    KeyTablesIff(query, tables);
    hide Key, TablesOf, Known, CalmRun, InvalidateOp;
    InvalidatedIsGone(Run(capacity, s, es), invalid, Key(query, tables));
  }

  lemma StepStaysOut(capacity: int, s: State, e: Event, key: string)
    requires key !in s.redis && !Waiting(s, key) && (e.Set? ==> Key(e.query, e.tables) != key)
    ensures key !in Step(capacity, s, e).redis && !Waiting(Step(capacity, s, e), key)
  {
    hide Key, Touch, Hit, Without, PutFront, KeptFor, Indexed, KeySet, KeysBackward, Listed, WithoutAll;
    if e.Refresh? && e.i < |s.pending| {
      assert s.pending[e.i] in s.pending;
      assert forall p <- s.pending[..e.i] + s.pending[e.i + 1..] :: p in s.pending;
    }
  }

  /** A key that is out stays out, through any run, until it is set again. */
  lemma {:induction false} StaysOutUntilSet(capacity: int, s: State, es: seq<Event>, key: string)
    requires key !in s.redis && !Waiting(s, key) && forall e <- es :: e.Set? ==> Key(e.query, e.tables) != key
    ensures key !in Run(capacity, s, es).redis && !Waiting(Run(capacity, s, es), key)
  {
    hide Waiting, Step, Key;
    if es != [] {
      StaysOutUntilSet(capacity, s, es[..|es| - 1], key);
      assert es[|es| - 1] in es;
      StepStaysOut(capacity, Run(capacity, s, es[..|es| - 1]), es[|es| - 1], key);
    }
  }

  /** All pending refreshes written, oldest first. */
  function Settled(s: State): State
    decreases |s.pending|
  {
    if s.pending == [] then s else Settled(RefreshOp(s, 0))
  }

  lemma {:induction false} SettledKeys(s: State, key: string)
    ensures key in Settled(s).redis <==> key in s.redis || Waiting(s, key)
    decreases |s.pending|
  {
    if s.pending != [] {
      var t := RefreshOp(s, 0);
      SettledKeys(t, key);
      assert s.pending == [s.pending[0]] + t.pending;
    }
  }

  /** An affected entry comes back after the invalidation exactly if a refresh of it was pending. */
  lemma InvalidationHoldsIff(s: State, invalid: seq<string>, query: string, tables: seq<string>)
    requires Known(s) && ProperNames(tables) && exists t <- tables :: t in invalid
    ensures Answer(Settled(InvalidateOp(s, invalid)), query, tables) == None <==> !Waiting(s, Key(query, tables))
  {
    KeyTablesIff(query, tables);
    InvalidatedIsGone(s, invalid, Key(query, tables));
    SettledKeys(InvalidateOp(s, invalid), Key(query, tables));
    hide Key, Settled, TablesOf, Listed, WithoutAll;
  }

  /** The key is in no table's index. */
  ghost predicate Unlisted(index: map<string, set<string>>, key: string) {
    forall t <- index :: key !in index[t]
  }

  lemma {:induction false} IndexedOthers(index: map<string, set<string>>, tables: seq<string>, key: string,
                                         other: string)
    requires Unlisted(index, other) && other != key
    ensures Unlisted(Indexed(index, tables, key), other)
  {
    if tables != [] {
      IndexedOthers(index, tables[..|tables| - 1], key, other);
    }
  }

  lemma {:induction false} StaysUnlisted(capacity: int, s: State, es: seq<Event>, key: string)
    requires Unlisted(s.index, key) && forall e <- es :: e.Set? ==> Key(e.query, e.tables) != key
    ensures Unlisted(Run(capacity, s, es).index, key)
  {
    hide Key, Unlisted;
    if es != [] {
      var k := |es| - 1;
      StaysUnlisted(capacity, s, es[..k], key);
      assert es[k] in es;
      StepUnlisted(capacity, Run(capacity, s, es[..k]), es[k], key);
    }
  }

  lemma StepUnlisted(capacity: int, s: State, e: Event, key: string)
    requires Unlisted(s.index, key) && (e.Set? ==> Key(e.query, e.tables) != key)
    ensures Unlisted(Step(capacity, s, e).index, key)
  {
    hide Key, Touch, Hit, Without, PutFront, KeptFor, Indexed, KeySet, KeysBackward, Listed, WithoutAll;
    if e.Set? {
      IndexedOthers(s.index, e.tables, Key(e.query, e.tables), key);
    }
  }

  /** A stored key that is in no index is missed by every invalidation, after any run, until it is set again. */
  lemma UnlistedIsNeverInvalidated(capacity: int, s: State, es: seq<Event>, invalid: seq<string>, query: string,
                                   tables: seq<string>)
    requires Unlisted(s.index, Key(query, tables))
    requires forall e <- es :: e.Set? ==> Key(e.query, e.tables) != Key(query, tables)
    ensures var t := Run(capacity, s, es);
            Answer(InvalidateOp(t, invalid), query, tables) == Answer(t, query, tables)
  {
    hide Key, Run, Listed, WithoutAll, KeySet;
    StaysUnlisted(capacity, s, es, Key(query, tables));
    ListedMembers(Run(capacity, s, es).index, invalid, Key(query, tables));
  }

  /**
   * From the empty cache: set, get, invalidate, and the get's refresh puts the entry back. It is then in no index.
   */
  lemma EntryComesBack(capacity: int, q: string, t: string, r: string, n: nat, now: int, expires: int)
    ensures var es := [Set(q, [t], r, n, expires), Get(q, [t], now, expires), Invalidate([t])];
            && Answer(Run(capacity, EMPTY, es), q, [t]) == None
            && Answer(Run(capacity, EMPTY, es + [Refresh(0)]), q, [t]) == Some(Stored(r))
            && Unlisted(Run(capacity, EMPTY, es + [Refresh(0)]).index, Key(q, [t]))
  {
    var es := [Set(q, [t], r, n, expires), Get(q, [t], now, expires), Invalidate([t])];
    RunNext(capacity, EMPTY, es[..0], es[0]);
    RunNext(capacity, EMPTY, es[..1], es[1]);
    RunNext(capacity, EMPTY, es[..2], es[2]);
    RunNext(capacity, EMPTY, es, Refresh(0));
    assert es[..0] + [es[0]] == es[..1] && es[..1] + [es[1]] == es[..2] && es[..2] + [es[2]] == es;
    hide Run;
    SetListed(capacity, q, [t], r, n, expires);
    NoIndexLeft(capacity, q, t, r, n, expires);
    hide Key, Listed, WithoutAll, PutFront, KeptFor, Touch, Hit, Without, Indexed, KeySet, KeysBackward;
  }

  lemma NoIndexLeft(capacity: int, q: string, t: string, r: string, n: nat, expires: int)
    ensures SetOp(capacity, EMPTY, q, [t], r, n, expires).index - KeySet([t]) == map[]
  {
    hide Key;
    assert [t][..0] == [] && Indexed(map[], [t][..0], Key(q, [t])) == map[];
  }

  lemma SetListed(capacity: int, q: string, tables: seq<string>, r: string, n: nat, expires: int)
    requires tables != []
    ensures var s := SetOp(capacity, EMPTY, q, tables, r, n, expires);
            Key(q, tables) in s.redis && s.redis[Key(q, tables)] == Stored(r) && s.pending == []
            && Key(q, tables) in Listed(s.index, tables)
  {
    var s := SetOp(capacity, EMPTY, q, tables, r, n, expires);
    IndexedLists(EMPTY.index, tables, Key(q, tables));
    assert tables[0] in tables;
    ListedMembers(s.index, tables, Key(q, tables));
  }

  lemma RunNext(capacity: int, s: State, es: seq<Event>, e: Event)
    ensures Run(capacity, s, es + [e]) == Step(capacity, Run(capacity, s, es), e)
  {
    assert (es + [e])[..|es|] == es;
  }

  // What is answered

  ghost predicate WasSet(es: seq<Event>, key: string, x: Stored) {
    exists i | 0 <= i < |es| :: es[i].Set? && Key(es[i].query, es[i].tables) == key && x == Stored(es[i].result)
  }

  /** What is stored, or waits to be stored again, under a key. */
  ghost predicate Held(s: State, key: string, x: Stored) {
    (key in s.redis && s.redis[key] == x) || (key, x) in s.pending
  }

  lemma StepHolds(capacity: int, s: State, e: Event, key: string, x: Stored)
    requires Held(Step(capacity, s, e), key, x)
    ensures Held(s, key, x) || (e.Set? && Key(e.query, e.tables) == key && x == Stored(e.result))
  {
    hide Key, Touch, Hit, Without, PutFront, KeptFor, Indexed, KeySet, KeysBackward, Listed, WithoutAll;
    if e.Refresh? && e.i < |s.pending| {
      assert s.pending[e.i] in s.pending;
      assert forall p <- s.pending[..e.i] + s.pending[e.i + 1..] :: p in s.pending;
    }
  }

  /** Whatever a run answers for a query was set for its key in that run, or was held before it. */
  lemma {:induction false} AnswersWereSet(capacity: int, s: State, es: seq<Event>, key: string, x: Stored)
    requires Held(Run(capacity, s, es), key, x)
    ensures Held(s, key, x) || WasSet(es, key, x)
  {
    hide Step, Held, Key;
    if es != [] {
      var k := |es| - 1;
      StepHolds(capacity, Run(capacity, s, es[..k]), es[k], key, x);
      if Held(Run(capacity, s, es[..k]), key, x) {
        AnswersWereSet(capacity, s, es[..k], key, x);
        if WasSet(es[..k], key, x) {
          var i :| 0 <= i < k && es[..k][i].Set? && Key(es[..k][i].query, es[..k][i].tables) == key
            && x == Stored(es[..k][i].result);
          assert es[i] == es[..k][i];
        }
      }
    }
  }

  /**
   * After a Set with no refresh of its key pending, until the key is set again, a Get answers that result or misses.
   */
  lemma LastResultOrNothing(capacity: int, s: State, query: string, tables: seq<string>, result: string, bytes: nat,
                            expires: int, es: seq<Event>)
    requires !Waiting(s, Key(query, tables))
    requires forall e <- es :: e.Set? ==> Key(e.query, e.tables) != Key(query, tables)
    ensures var a := Answer(Run(capacity, SetOp(capacity, s, query, tables, result, bytes, expires), es), query,
            tables);
            a == None || a == Some(Stored(result))
  {
    var key, t := Key(query, tables), SetOp(capacity, s, query, tables, result, bytes, expires);
    assert key in t.redis && t.redis[key] == Stored(result) && !Waiting(t, key);
    var u := Run(capacity, t, es);
    hide Key, Run, SetOp;
    if key in u.redis {
      AnswersWereSet(capacity, t, es, key, u.redis[key]);
      assert !WasSet(es, key, u.redis[key]) by {
        assert forall i | 0 <= i < |es| :: es[i] in es;
      }
    }
  }

  /** What the last pending refresh of a key will write. */
  function LastWaiting(pending: seq<(string, Stored)>, key: string): Option<Stored> {
    if pending == [] then None
    else if pending[|pending| - 1].0 == key then Some(pending[|pending| - 1].1)
    else LastWaiting(pending[..|pending| - 1], key)
  }

  lemma {:induction false} LastWaitingRest(pending: seq<(string, Stored)>, key: string)
    requires pending != []
    ensures LastWaiting(pending, key) ==
            if LastWaiting(pending[1..], key).Some? then LastWaiting(pending[1..], key)
            else if pending[0].0 == key then Some(pending[0].1) else None
  {
    if |pending| > 1 && pending[|pending| - 1].0 != key {
      LastWaitingRest(pending[..|pending| - 1], key);
      assert pending[..|pending| - 1][1..] == pending[1..][..|pending| - 2];
    }
  }

  lemma {:induction false} SettledAnswer(s: State, key: string)
    ensures var last := LastWaiting(s.pending, key);
            && (last.Some? ==> key in Settled(s).redis && Settled(s).redis[key] == last.value)
            && (last.None? ==> (key in Settled(s).redis <==> key in s.redis)
                               && (key in s.redis ==> Settled(s).redis[key] == s.redis[key]))
    decreases |s.pending|
  {
    if s.pending != [] {
      var t := RefreshOp(s, 0);
      assert t.pending == s.pending[1..] by { assert s.pending[..0] == []; }
      SettledAnswer(t, key);
      LastWaitingRest(s.pending, key);
      hide LastWaiting;
    }
  }

  /** A new result is still there once all pending refreshes are written iff the last of its key, if any, carries it. */
  lemma NewResultStaysIff(capacity: int, s: State, query: string, tables: seq<string>, result: string, bytes: nat,
                          expires: int)
    ensures var last := LastWaiting(s.pending, Key(query, tables));
            Answer(Settled(SetOp(capacity, s, query, tables, result, bytes, expires)), query, tables)
            == Some(Stored(result))
            <==> last == None || last == Some(Stored(result))
  {
    SettledAnswer(SetOp(capacity, s, query, tables, result, bytes, expires), Key(query, tables));
    hide Key, Settled, LastWaiting, PutFront, KeptFor, Indexed, KeySet, KeysBackward;
  }

  /** A pending refresh brings an older result back over a newer one. */
  lemma OldResultComesBack(capacity: int, q: string, t: string, older: string, newer: string, n: nat, now: int,
                           expires: int)
    ensures var es := [Set(q, [t], older, n, expires), Get(q, [t], now, expires), Set(q, [t], newer, n, expires)];
            && Answer(Run(capacity, EMPTY, es), q, [t]) == Some(Stored(newer))
            && Answer(Run(capacity, EMPTY, es + [Refresh(0)]), q, [t]) == Some(Stored(older))
  {
    var es := [Set(q, [t], older, n, expires), Get(q, [t], now, expires), Set(q, [t], newer, n, expires)];
    RunNext(capacity, EMPTY, es[..0], es[0]);
    RunNext(capacity, EMPTY, es[..1], es[1]);
    RunNext(capacity, EMPTY, es[..2], es[2]);
    RunNext(capacity, EMPTY, es, Refresh(0));
    assert es[..0] + [es[0]] == es[..1] && es[..1] + [es[1]] == es[..2] && es[..2] + [es[2]] == es;
    hide Run, Key, PutFront, KeptFor, Touch, Hit, Without, Indexed, KeySet, KeysBackward;
  }

  // The size bound

  /** The directory is within its capacity, or holds a single entry. */
  ghost predicate Fits(capacity: int, lru: Recency) {
    Total(lru) <= capacity || |lru| <= 1
  }

  function Largest(s: Recency): nat {
    if s == [] then 0
    else
      var rest := Largest(s[1..]);
      if s[0].size > rest then s[0].size else rest
  }

  lemma FitsBound(capacity: int, lru: Recency)
    requires Fits(capacity, lru)
    ensures Total(lru) <= capacity || Total(lru) <= Largest(lru)
  {
    if |lru| == 1 {
      assert lru[1..] == [];
    }
  }

  /** A Get that finds its key in the shared store but not in the directory. */
  predicate Refills(s: State, e: Event) {
    e.Get? && Hit(s.lru, Key(e.query, e.tables), e.now).None? && Key(e.query, e.tables) in s.redis
  }

  lemma TouchFits(s: Recency, key: string, now: int)
    requires Distinct(s)
    ensures Distinct(Touch(s, key, now)) && Total(Touch(s, key, now)) <= Total(s) && |Touch(s, key, now)| <= |s|
  {
    FindMember(s, key);
    WithoutDistinct(s, key);
    WithoutTotal(s, key);
    WithoutMembers(s, key);
    hide Without, Find, Total, Distinct;
    if Find(s, key).Some? {
      FrontTotal(Find(s, key).value, Without(s, key));
      ConsDistinct(Find(s, key).value, Without(s, key));
    }
  }

  lemma PutDistinct(s: Recency, e: Entry)
    requires Distinct(s)
    ensures Distinct(PutFront(s, e)) && Total(PutFront(s, e)) <= e.size + Total(s)
    ensures |PutFront(s, e)| <= 1 + |s|
  {
    WithoutDistinct(s, e.key);
    WithoutTotal(s, e.key);
    WithoutMembers(s, e.key);
    hide Without, Find, Total, Distinct;
    FrontTotal(e, Without(s, e.key));
    ConsDistinct(e, Without(s, e.key));
  }

  lemma ConsDistinct(e: Entry, s: Recency)
    requires Distinct(s) && forall x <- s :: x.key != e.key
    ensures Distinct([e] + s)
  {
  }

  lemma {:induction false} WithoutAllMembers(s: Recency, keys: set<string>)
    ensures forall e :: e in WithoutAll(s, keys) <==> e in s && e.key !in keys
  {
    if s != [] {
      WithoutAllMembers(s[1..], keys);
      assert s == [s[0]] + s[1..];
    }
  }

  lemma {:induction false} WithoutAllFits(s: Recency, keys: set<string>)
    requires Distinct(s)
    ensures Distinct(WithoutAll(s, keys)) && Total(WithoutAll(s, keys)) <= Total(s) && |WithoutAll(s, keys)| <= |s|
  {
    if s != [] {
      assert Distinct(s[1..]) && forall e <- s[1..] :: e.key != s[0].key;
      hide Distinct;
      WithoutAllFits(s[1..], keys);
      WithoutAllMembers(s[1..], keys);
      var rest := WithoutAll(s[1..], keys);
      if s[0].key in keys {
        assert WithoutAll(s, keys) == rest;
      } else {
        FrontTotal(s[0], rest);
        ConsDistinct(s[0], rest);
      }
    }
  }

  /** Making room and putting the new entry in front. */
  lemma SetFits(capacity: int, lru: Recency, e: Entry)
    requires Distinct(lru) && e.size > 0 && Fits(capacity, lru)
    ensures Distinct(PutFront(KeptFor(capacity, lru, e.size), e))
            && Fits(capacity, PutFront(KeptFor(capacity, lru, e.size), e))
  {
    var kept := KeptFor(capacity, lru, e.size);
    EvictsShortestSuffix(lru, e.size);
    hide EvictFor, Total, PutFront;
    assert lru[..|lru|] == lru;
    assert kept == lru[..|kept|];
    assert lru == kept + lru[|kept|..];
    TotalConcat(kept, lru[|kept|..]);
    PutDistinct(kept, e);
    if |lru| == 1 && |kept| == 1 {
      assert lru[1..] == [];
      NoTotal();
    }
  }

  lemma StepFits(capacity: int, s: State, e: Event)
    requires Distinct(s.lru) && Fits(capacity, s.lru) && (e.Set? ==> e.bytes > 0) && !Refills(s, e)
    ensures Distinct(Step(capacity, s, e).lru) && Fits(capacity, Step(capacity, s, e).lru)
  {
    match e
    case Set(q, ts, _, n, x) =>
      SetFits(capacity, s.lru, Entry(Key(q, ts), n, x));
    case Get(q, ts, now, _) =>
      TouchFits(s.lru, Key(q, ts), now);
      hide Key, Touch, Hit, Total, Distinct;
      WithoutDistinct(Touch(s.lru, Key(q, ts), now), Key(q, ts));
      WithoutTotal(Touch(s.lru, Key(q, ts), now), Key(q, ts));
    case Refresh(i) =>
    case Invalidate(ts) =>
      WithoutAllFits(s.lru, Listed(s.index, ts));
  }

  ghost predicate NoRefill(capacity: int, s: State, es: seq<Event>) {
    forall i | 0 <= i < |es| :: (es[i].Set? ==> es[i].bytes > 0) && !Refills(Run(capacity, s, es[..i]), es[i])
  }

  /** Over every run without refills the directory's size stays within its capacity or its largest entry. */
  lemma {:induction false} SizeStaysBounded(capacity: int, s: State, es: seq<Event>)
    requires Distinct(s.lru) && Fits(capacity, s.lru) && NoRefill(capacity, s, es)
    ensures Distinct(Run(capacity, s, es).lru) && Fits(capacity, Run(capacity, s, es).lru)
    ensures Total(Run(capacity, s, es).lru) <= capacity
            || Total(Run(capacity, s, es).lru) <= Largest(Run(capacity, s, es).lru)
  {
    hide Fits, Distinct, Step, Refills, Total, Largest;
    if es != [] {
      var k := |es| - 1;
      assert NoRefill(capacity, s, es[..k]) by {
        assert forall i | 0 <= i < k :: es[..k][..i] == es[..i] && es[..k][i] == es[i];
      }
      SizeStaysBounded(capacity, s, es[..k]);
      StepFits(capacity, Run(capacity, s, es[..k]), es[k]);
    }
    FitsBound(capacity, Run(capacity, s, es).lru);
  }

  /** A refill keeps the bound exactly if the result still fits next to what is there, or nothing else is there. */
  lemma RefillFitsIff(capacity: int, s: State, e: Event)
    requires Distinct(s.lru) && Refills(s, e)
    ensures var key := Key(e.query, e.tables);
            var there := Touch(s.lru, key, e.now);
            Fits(capacity, Step(capacity, s, e).lru)
            <==> Total(there) + |s.redis[key].result| <= capacity || there == []
  {
    var key := Key(e.query, e.tables);
    var there := Touch(s.lru, key, e.now);
    FindMember(s.lru, key);
    WithoutMembers(s.lru, key);
    FindMember(there, key);
    NothingWithout(there, key);
    FrontTotal(Entry(key, |s.redis[key].result|, e.expires), there);
    hide Key, Find, Without, Total;
  }

  /**
   * Such an overflow, in a cache of capacity 1000: an entry is read, evicted by the next and written back by the
   * pending refresh; reading it again puts it next to the other, and together they exceed the capacity.
   */
  lemma RefillOverflows(result: string)
    requires |result| == 450
    ensures var run := [Set("a", ["t"], result, 720, 9), Get("a", ["t"], 1, 9), Set("b", ["t"], result, 720, 9),
                        Refresh(0)];
            !Fits(1000, Run(1000, EMPTY, run + [Get("a", ["t"], 2, 9)]).lru)
  {
    DifferentKeys();
    var s1 := FirstSet(EMPTY, "a", ["t"], result);
    var s2 := LocalGet(s1, "a", ["t"], result);
    var s3 := EvictingSet(s2, "a", "b", ["t"], result);
    var s4 := Rewritten(s3, Key("a", ["t"]), result);
    hide Key;
    var last := Get("a", ["t"], 2, 9);
    OneEntry(s4.lru[0]);
    NotFound(s4.lru[0], Key("a", ["t"]));
    RefillFitsIff(1000, s4, last);
    hide *;
    FiveSteps(1000, EMPTY, Set("a", ["t"], result, 720, 9), Get("a", ["t"], 1, 9), Set("b", ["t"], result, 720, 9),
              Refresh(0), last);
  }

  lemma FiveSteps(c: int, s: State, e0: Event, e1: Event, e2: Event, e3: Event, e4: Event)
    ensures Run(c, s, [e0, e1, e2, e3] + [e4]) == Step(c, Step(c, Step(c, Step(c, Step(c, s, e0), e1), e2), e3), e4)
  {
    hide Step;
    RunNext(c, s, [], e0);
    RunNext(c, s, [e0], e1);
    RunNext(c, s, [e0, e1], e2);
    RunNext(c, s, [e0, e1, e2], e3);
    RunNext(c, s, [e0, e1, e2, e3], e4);
    assert [] + [e0] == [e0] && [e0] + [e1] == [e0, e1];
    assert [e0, e1] + [e2] == [e0, e1, e2] && [e0, e1, e2] + [e3] == [e0, e1, e2, e3];
  }

  lemma FirstSet(s: State, q: string, ts: seq<string>, result: string) returns (t: State)
    requires s.lru == [] && s.pending == []
    ensures t == Step(1000, s, Set(q, ts, result, 720, 9))
    ensures t.lru == [Entry(Key(q, ts), 720, 9)] && t.pending == [] && Key(q, ts) in t.redis
            && t.redis[Key(q, ts)] == Stored(result)
  {
    hide Key, Indexed, KeySet;
    t := Step(1000, s, Set(q, ts, result, 720, 9));
    assert KeptFor(1000, [], 720) == [];
  }

  lemma LocalGet(s: State, q: string, ts: seq<string>, result: string) returns (t: State)
    requires s.lru == [Entry(Key(q, ts), 720, 9)] && s.pending == [] && Key(q, ts) in s.redis
             && s.redis[Key(q, ts)] == Stored(result)
    ensures t == Step(1000, s, Get(q, ts, 1, 9))
    ensures t.lru == s.lru && t.redis == s.redis && t.pending == [(Key(q, ts), Stored(result))]
  {
    hide Key;
    OneEntry(s.lru[0]);
    hide Find, Without;
    t := Step(1000, s, Get(q, ts, 1, 9));
  }

  lemma EvictingSet(s: State, p: string, q: string, ts: seq<string>, result: string) returns (t: State)
    requires s.lru == [Entry(Key(p, ts), 720, 9)]
    ensures t == Step(1000, s, Set(q, ts, result, 720, 9))
    ensures t.lru == [Entry(Key(q, ts), 720, 9)] && t.pending == s.pending
  {
    hide Key, Indexed, KeySet;
    OneEntry(s.lru[0]);
    hide EvictFor, Total;
    t := Step(1000, s, Set(q, ts, result, 720, 9));
    assert KeptFor(1000, s.lru, 720) == [];
  }

  lemma Rewritten(s: State, key: string, result: string) returns (t: State)
    requires s.pending == [(key, Stored(result))]
    ensures t == Step(1000, s, Refresh(0))
    ensures t.lru == s.lru && key in t.redis && t.redis[key] == Stored(result)
  {
    t := Step(1000, s, Refresh(0));
  }

  lemma OneEntry(e: Entry)
    ensures Find([e], e.key) == Some(e) && Without([e], e.key) == [] && Total([e]) == e.size && Distinct([e])
    ensures e.size > 0 ==> EvictFor([e], e.size) == []
    ensures KeysBackward([e]) == [e.key]
  {
    assert [e][1..] == [] && [e][..0] == [];
  }

  lemma NotFound(e: Entry, key: string)
    requires e.key != key
    ensures Find([e], key) == None && Without([e], key) == [e]
  {
    assert [e][1..] == [];
  }

  lemma DifferentKeys()
    ensures Key("a", ["t"]) != Key("b", ["t"])
  {
    Letter("a");
    Letter("b");
    hide Key;
    assert ("a" + "|t")[0] == 'a' && ("b" + "|t")[0] == 'b';
  }

  lemma Letter(q: string)
    requires |q| == 1 && 'a' <= q[0] <= 'z'
    ensures Normalize.NormalForm(q) == q && Key(q, ["t"]) == q + "|t"
  {
    assert Normalize.WordLength(q) == 1 by { assert q[1..] == ""; }
    assert q[..1] == q && q[1..] == "" && Normalize.Fields("") == [];
    assert Normalize.Fields(q) == [q];
    assert Normalize.Collapse(q) == q;
    assert Normalize.Scan(q, Normalize.START) == q by { assert q[1..] == ""; }
    assert Join(',', ["t"]) == "t";
    assert q + ['|'] + "t" == q + "|t";
  }

  // The cache object

  lemma {:induction false} WithoutAllMore(s: Recency, keys: set<string>, key: string)
    ensures Without(WithoutAll(s, keys), key) == WithoutAll(s, keys + {key})
  {
    if s != [] {
      WithoutAllMore(s[1..], keys, key);
      var rest := WithoutAll(s[1..], keys);
      if s[0].key !in keys {
        assert ([s[0]] + rest)[1..] == rest;
      } else {
        assert WithoutAll(s, keys) == rest;
      }
    }
  }

  lemma {:induction false} WithoutNone(s: Recency)
    ensures WithoutAll(s, {}) == s
  {
    if s != [] {
      WithoutNone(s[1..]);
    }
  }

  class Cache {
    const lru: LruCache
    var redis: map<string, Stored>
    var index: map<string, set<string>>
    var pending: seq<(string, Stored)>

    ghost function View(): State
      reads this, lru
    {
      State(redis, index, lru.order, pending)
    }

    constructor (capacity: int)
      ensures lru.Valid() && lru.capacity == capacity && fresh(lru) && View() == EMPTY
    {
      lru := new LruCache(capacity);
      redis, index, pending := map[], map[], [];
    }

    method CacheKey(query: string, tables: seq<string>) returns (key: string)
      ensures key == Key(query, tables)
    {
      var normal := Normalize.NormalizeQuery(query);
      key := normal + ['|'] + Join(',', tables);
    }

    method Get(query: string, tables: seq<string>, now: int, expires: int) returns (r: Option<Stored>)
      requires lru.Valid()
      modifies this, lru
      ensures lru.Valid() && View() == GetOp(old(View()), query, tables, now, expires)
      ensures r == Answer(old(View()), query, tables) && redis == old(redis) && index == old(index)
    {
      hide Key, Touch, Hit, Without, PutFront;
      var key := CacheKey(query, tables);
      var hit := lru.Get(key, now);
      if hit.Some? {
        if key in redis {
          pending := pending + [(key, redis[key])];
          return Some(redis[key]);
        }
        lru.Remove(key);
      }
      if key !in redis {
        return None;
      }
      var e := redis[key];
      lru.Put(key, |e.result|, expires);
      pending := pending + [(key, e)];
      return Some(e);
    }

    method Set(query: string, tables: seq<string>, result: string, bytes: nat, expires: int)
      requires lru.Valid()
      modifies this, lru
      ensures lru.Valid() && View() == SetOp(lru.capacity, old(View()), query, tables, result, bytes, expires)
    {
      hide Key, EvictFor, PutFront, Indexed, KeysBackward, Total, Distinct;
      var key := CacheKey(query, tables);
      ghost var before := lru.order;
      if lru.NeedsEviction(bytes) {
        var evicted := lru.EvictForSpace(bytes);
        redis := redis - KeySet(evicted);
      } else {
        assert before[|before|..] == [];
        NoKeys();
        assert redis - KeySet([]) == redis;
      }
      redis := redis[key := Stored(result)];
      lru.Put(key, bytes, expires);
      UpdateTableIndex(tables, key);
    }

    method UpdateTableIndex(tables: seq<string>, key: string)
      modifies this`index
      ensures index == Indexed(old(index), tables, key)
    {
      for i := 0 to |tables|
        invariant index == Indexed(old(index), tables[..i], key)
      {
        assert tables[..i + 1][..i] == tables[..i];
        var t := tables[i];
        index := index[t := (if t in index then index[t] else {}) + {key}];
      }
      assert tables[..|tables|] == tables;
    }

    /** Writes one pending access refresh. */
    method FinishRefresh(i: nat)
      requires i < |pending|
      modifies this`redis, this`pending
      ensures View() == RefreshOp(old(View()), i)
    {
      redis := redis[pending[i].0 := pending[i].1];
      pending := pending[..i] + pending[i + 1..];
    }

    method InvalidateByTables(tables: seq<string>)
      requires lru.Valid()
      modifies this, lru
      ensures lru.Valid() && View() == InvalidateOp(old(View()), tables)
    {
      hide Listed, WithoutAll, Without, Total, Distinct;
      var gone: set<string> := {};
      ListedNothing(index);
      assert index - KeySet([]) == index;
      for i := 0 to |tables|
        invariant gone == Listed(old(index), tables[..i])
        invariant index == old(index) - KeySet(tables[..i])
        invariant redis == old(redis) && pending == old(pending) && lru.order == old(lru.order) && lru.Valid()
      {
        var t := tables[i];
        ListedNext(old(index), tables, i);
        if t in index {
          gone := gone + index[t];
          index := index - {t};
        }
        assert KeySet(tables[..i + 1]) == KeySet(tables[..i]) + {t} by { assert tables[..i + 1] == tables[..i] + [t]; }
        AlreadyListed(old(index), tables[..i], t);
      }
      assert tables[..|tables|] == tables;
      redis := redis - gone;
      DropAll(gone);
    }

    /** Takes the keys out of the directory, in any order. */
    method DropAll(keys: set<string>)
      requires lru.Valid()
      modifies lru
      ensures lru.Valid() && lru.order == WithoutAll(old(lru.order), keys)
    {
      hide WithoutAll, Without, Total, Distinct;
      var todo := keys;
      WithoutNone(lru.order);
      assert keys - todo == {};
      while todo != {}
        invariant todo <= keys && lru.Valid() && lru.order == WithoutAll(old(lru.order), keys - todo)
        decreases |todo|
      {
        var k :| k in todo;
        WithoutAllMore(old(lru.order), keys - todo, k);
        assert keys - todo + {k} == keys - (todo - {k});
        todo := todo - {k};
        lru.Remove(k);
      }
      assert keys - todo == keys;
    }
  }

  lemma ListedNothing(index: map<string, set<string>>)
    ensures Listed(index, []) == {}
  {
  }

  lemma ListedNext(index: map<string, set<string>>, tables: seq<string>, i: nat)
    requires i < |tables|
    ensures Listed(index, tables[..i + 1]) ==
            Listed(index, tables[..i]) + (if tables[i] in index then index[tables[i]] else {})
  {
    assert tables[..i + 1][..i] == tables[..i];
  }

  /** A table named again adds nothing. */
  lemma {:induction false} AlreadyListed(index: map<string, set<string>>, tables: seq<string>, t: string)
    ensures t in tables && t in index ==> index[t] <= Listed(index, tables)
  {
    if tables != [] {
      AlreadyListed(index, tables[..|tables| - 1], t);
    }
  }
}
