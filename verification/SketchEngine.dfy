/** The engine that keeps one HyperLogLog and one Count-Min sketch per table and column. */
module SketchEngine {
  import opened Prelude
  import opened Hll
  import opened CountMin

  function SketchKey(table: string, column: string): string {
    table + ":" + column
  }

  /** Columns of tables without a colon in their name have sketches of their own. */
  lemma SketchesAreApart(t: string, c: string, u: string, d: string)
    requires ':' !in t && ':' !in u
    ensures SketchKey(t, c) == SketchKey(u, d) <==> t == u && c == d
  {
    var x, y := SketchKey(t, c), SketchKey(u, d);
    if x == y {
      assert x[|t|] == ':' && y[|u|] == ':';
      assert (forall i | 0 <= i < |t| :: x[i] == t[i]) && (forall i | 0 <= i < |u| :: y[i] == u[i]);
      assert |t| == |u|;
      assert t == x[..|t|] && u == y[..|u|] && c == x[|t| + 1..] && d == y[|u| + 1..];
    }
  }

  /** With a colon, columns of different tables can share one. */
  lemma ColonsShareSketches()
    ensures SketchKey("a:b", "c") == SketchKey("a", "b:c")
  {
    assert "a:b" + ":" + "c" == "a" + ":" + "b:c";
  }

  type Items = map<string, set<string>>
  type Streams = map<string, Stream>

  function ItemsAt(m: Items, k: string): set<string> {
    if k in m then m[k] else {}
  }

  function StreamAt(m: Streams, k: string): Stream {
    if k in m then m[k] else []
  }

  /** Key by key, the union of the items. */
  function Union(a: Items, b: Items): Items {
    map k | k in a.Keys + b.Keys :: ItemsAt(a, k) + ItemsAt(b, k)
  }

  /** Key by key, one stream after the other. */
  function Joined(a: Streams, b: Streams): Streams {
    map k | k in a.Keys + b.Keys :: StreamAt(a, k) + StreamAt(b, k)
  }

  const SHAPE := Shape(1000, 5, 42)

  class ApproximateQueryEngine {
    var hllMap: map<string, HyperLogLog>
    var cmsMap: map<string, CountMinSketch>
    ghost var registers: set<array<nat>>
    ghost var matrices: set<array2<int>>

    /** Each key's registers are those of its items. */
    ghost predicate HoldsItems(items: Items)
      reads this`hllMap, this`registers, registers
    {
      && hllMap.Keys == items.Keys
      && (forall k <- hllMap :: hllMap[k].registers in registers)
      && (forall k <- hllMap :: hllMap[k].precision == DEFAULT_PRECISION && hllMap[k].Sketches(items[k]))
      && (forall j, k | j in hllMap && k in hllMap && j != k :: hllMap[j].registers != hllMap[k].registers)
    }

    /** Each key's matrix is the sketch of its stream. */
    ghost predicate HoldsStreams(streams: Streams)
      reads this`cmsMap, this`matrices, matrices
    {
      && cmsMap.Keys == streams.Keys
      && (forall k <- cmsMap :: cmsMap[k].matrix in matrices)
      && (forall k <- cmsMap :: cmsMap[k].shape == SHAPE && cmsMap[k].Sketches(streams[k]))
      && (forall j, k | j in cmsMap && k in cmsMap && j != k :: cmsMap[j].matrix != cmsMap[k].matrix)
    }

    constructor ()
      ensures HoldsItems(map[]) && HoldsStreams(map[]) && registers == {} && matrices == {}
    {
      hllMap, cmsMap, registers, matrices := map[], map[], {}, {};
    }

    method GetOrCreateHll(k: string, ghost items: Items)
      requires HoldsItems(items)
      modifies this`hllMap, this`registers
      ensures k in hllMap && HoldsItems(items[k := ItemsAt(items, k)]) && fresh(registers - old(registers))
    {
      hide HyperLogLog.Sketches;
      if k !in hllMap {
        var h := new HyperLogLog(Some(DEFAULT_PRECISION));
        hllMap := hllMap[k := h];
        registers := registers + {h.registers};
      }
    }

    method AddDistinctValue(table: string, column: string, value: string, ghost items: Items)
      requires HoldsItems(items)
      modifies this`hllMap, this`registers, registers
      ensures if table == "" || column == "" || value == "" then HoldsItems(items)
              else var k := SketchKey(table, column); HoldsItems(items[k := ItemsAt(items, k) + {value}])
    {
      if table == "" || column == "" || value == "" {
        return;
      }
      hide HoldsItems;
      var k := SketchKey(table, column);
      GetOrCreateHll(k, items);
      AddItem(k, value, items[k := ItemsAt(items, k)]);
      assert items[k := ItemsAt(items, k)][k := ItemsAt(items, k) + {value}] == items[k := ItemsAt(items, k) + {value}];
    }

    method AddItem(k: string, value: string, ghost items: Items)
      requires HoldsItems(items) && k in hllMap
      modifies registers
      ensures k in items && HoldsItems(items[k := items[k] + {value}])
    {
      hide HyperLogLog.Sketches;
      hllMap[k].Add(value, items[k]);
    }

    method GetOrCreateCms(k: string, ghost streams: Streams)
      requires HoldsStreams(streams)
      modifies this`cmsMap, this`matrices
      ensures k in cmsMap && HoldsStreams(streams[k := StreamAt(streams, k)]) && fresh(matrices - old(matrices))
    {
      hide CountMinSketch.Sketches;
      if k !in cmsMap {
        var c := new CountMinSketch(1000, 5, 42);
        cmsMap := cmsMap[k := c];
        matrices := matrices + {c.matrix};
      }
    }

    method AddFrequency(table: string, column: string, value: string, count: nat, ghost streams: Streams)
      requires HoldsStreams(streams) && count < WORD
      modifies this`cmsMap, this`matrices, matrices
      ensures if table == "" || column == "" || value == "" then HoldsStreams(streams)
              else
                var k := SketchKey(table, column);
                HoldsStreams(streams[k := StreamAt(streams, k) + [(value, count)]])
    {
      if table == "" || column == "" || value == "" {
        return;
      }
      hide HoldsStreams;
      var k := SketchKey(table, column);
      GetOrCreateCms(k, streams);
      AddCount(k, value, count, streams[k := StreamAt(streams, k)]);
      assert streams[k := StreamAt(streams, k)][k := StreamAt(streams, k) + [(value, count)]] ==
             streams[k := StreamAt(streams, k) + [(value, count)]];
    }

    method AddCount(k: string, value: string, count: nat, ghost streams: Streams)
      requires HoldsStreams(streams) && k in cmsMap && count < WORD
      modifies matrices
      ensures k in streams && HoldsStreams(streams[k := streams[k] + [(value, count)]])
    {
      hide CountMinSketch.Sketches;
      cmsMap[k].Add(value, count, streams[k]);
    }

    /** Merges one sketch of another engine, or takes over a copy of it. */
    method MergeHll(k: string, o: HyperLogLog, ghost items: Items, ghost more: set<string>)
      requires HoldsItems(items) && o.registers !in registers && o.precision == DEFAULT_PRECISION && o.Sketches(more)
      modifies this`hllMap, this`registers, registers
      ensures HoldsItems(items[k := ItemsAt(items, k) + more])
      ensures fresh(registers - old(registers))
    {
      hide IsRegister, Hll.Hash, Hll.Pow2;
      if k in hllMap {
        hllMap[k].Merge(o, items[k], more);
      } else {
        var h := new HyperLogLog.CopyOf(o);
        assert h.Sketches(more) by {
          assert forall i | 0 <= i < h.registers.Length :: h.registers[..][i] == o.registers[..][i];
        }
        assert {} + more == more;
        hllMap := hllMap[k := h];
        registers := registers + {h.registers};
      }
    }

    method MergeCms(k: string, o: CountMinSketch, ghost streams: Streams, ghost more: Stream)
      requires HoldsStreams(streams) && o.matrix !in matrices && o.shape == SHAPE && o.Sketches(more)
      modifies this`cmsMap, this`matrices, matrices
      ensures HoldsStreams(streams[k := StreamAt(streams, k) + more])
      ensures fresh(matrices - old(matrices))
    {
      hide CountMinSketch.Sketches;
      if k in cmsMap {
        cmsMap[k].Merge(o, streams[k], more);
      } else {
        var c := new CountMinSketch(1000, 5, 42);
        c.Merge(o, [], more);
        assert [] + more == more;
        cmsMap := cmsMap[k := c];
        matrices := matrices + {c.matrix};
      }
    }

    /** Every key of either engine ends up with the items, and with the additions, of both. */
    method Merge(other: ApproximateQueryEngine, ghost mine: Items, ghost theirs: Items, ghost ours: Streams,
                 ghost more: Streams)
      requires other != this && registers !! other.registers && matrices !! other.matrices
      requires HoldsItems(mine) && other.HoldsItems(theirs) && HoldsStreams(ours) && other.HoldsStreams(more)
      modifies this, registers, matrices
      ensures HoldsItems(Union(mine, theirs)) && HoldsStreams(Joined(ours, more))
      ensures other.HoldsItems(theirs) && other.HoldsStreams(more)
    {
      hide *;
      MergeHlls(other, mine, theirs);
      MergeCmss(other, ours, more);
    }

    /** A merge under way, with the keys in `todo` still to come. */
    ghost predicate MergingItems(other: ApproximateQueryEngine, mine: Items, theirs: Items, todo: set<string>,
                                 now: Items)
      reads this`hllMap, this`registers, registers, other`hllMap, other`registers, other.registers
    {
      && todo <= other.hllMap.Keys && registers !! other.registers
      && HoldsItems(now) && other.HoldsItems(theirs) && Between(mine, theirs, todo, now)
    }

    method MergeHllKey(other: ApproximateQueryEngine, k: string, todo: set<string>, ghost mine: Items,
                       ghost theirs: Items, ghost now: Items)
        returns (ghost next: Items)
      requires other != this && k in todo && MergingItems(other, mine, theirs, todo, now)
      modifies this`hllMap, this`registers, registers
      ensures MergingItems(other, mine, theirs, todo - {k}, next) && fresh(registers - old(registers))
    {
      hide HoldsItems, Between, ItemsAt;
      other.ItemsHeldAt(theirs, k);
      MergeHll(k, other.hllMap[k], now, theirs[k]);
      BetweenNext(mine, theirs, todo, now, k);
      next := now[k := ItemsAt(now, k) + theirs[k]];
    }

    method MergeHlls(other: ApproximateQueryEngine, ghost mine: Items, ghost theirs: Items)
      requires other != this && registers !! other.registers && HoldsItems(mine) && other.HoldsItems(theirs)
      modifies this`hllMap, this`registers, registers
      ensures HoldsItems(Union(mine, theirs)) && other.HoldsItems(theirs) && fresh(registers - old(registers))
    {
      hide *;
      var todo := other.hllMap.Keys;
      ghost var now := mine;
      StartMergingItems(other, mine, theirs);
      while todo != {}
        invariant MergingItems(other, mine, theirs, todo, now)
        invariant fresh(registers - old(registers))
        decreases |todo|
      {
        var k :| k in todo;
        ghost var mid := registers;
        now := MergeHllKey(other, k, todo, mine, theirs, now);
        assert registers - old(registers) <= (mid - old(registers)) + (registers - mid);
        todo := todo - {k};
      }
      EndMergingItems(other, mine, theirs, now);
    }

    lemma StartMergingItems(other: ApproximateQueryEngine, mine: Items, theirs: Items)
      requires registers !! other.registers && HoldsItems(mine) && other.HoldsItems(theirs)
      ensures MergingItems(other, mine, theirs, other.hllMap.Keys, mine)
    {
      hide HoldsItems, Between;
      other.ItemsKeys(theirs);
      BetweenStart(mine, theirs);
    }

    lemma EndMergingItems(other: ApproximateQueryEngine, mine: Items, theirs: Items, now: Items)
      requires MergingItems(other, mine, theirs, {}, now)
      ensures HoldsItems(Union(mine, theirs)) && other.HoldsItems(theirs)
    {
      hide HoldsItems, Between;
      UnionDone(mine, theirs, now);
    }

    lemma ItemsKeys(items: Items)
      requires HoldsItems(items)
      ensures hllMap.Keys == items.Keys && forall k <- hllMap :: hllMap[k].registers in registers
    {
    }

    lemma ItemsHeldAt(items: Items, k: string)
      requires HoldsItems(items) && k in hllMap
      ensures k in items && hllMap[k].registers in registers
      ensures hllMap[k].precision == DEFAULT_PRECISION && hllMap[k].Sketches(items[k])
    {
      hide HyperLogLog.Sketches;
    }

    /** A merge under way, with the keys in `todo` still to come. */
    ghost predicate MergingStreams(other: ApproximateQueryEngine, mine: Streams, theirs: Streams, todo: set<string>,
                                   now: Streams)
      reads this`cmsMap, this`matrices, matrices, other`cmsMap, other`matrices, other.matrices
    {
      && todo <= other.cmsMap.Keys && matrices !! other.matrices
      && HoldsStreams(now) && other.HoldsStreams(theirs) && StreamsBetween(mine, theirs, todo, now)
    }

    method MergeCmsKey(other: ApproximateQueryEngine, k: string, todo: set<string>, ghost mine: Streams,
                       ghost theirs: Streams, ghost now: Streams)
        returns (ghost next: Streams)
      requires other != this && k in todo && MergingStreams(other, mine, theirs, todo, now)
      modifies this`cmsMap, this`matrices, matrices
      ensures MergingStreams(other, mine, theirs, todo - {k}, next) && fresh(matrices - old(matrices))
    {
      hide HoldsStreams, StreamsBetween, StreamAt;
      other.StreamHeldAt(theirs, k);
      MergeCms(k, other.cmsMap[k], now, theirs[k]);
      StreamsBetweenNext(mine, theirs, todo, now, k);
      next := now[k := StreamAt(now, k) + theirs[k]];
    }

    method MergeCmss(other: ApproximateQueryEngine, ghost mine: Streams, ghost theirs: Streams)
      requires other != this && matrices !! other.matrices && HoldsStreams(mine) && other.HoldsStreams(theirs)
      modifies this`cmsMap, this`matrices, matrices
      ensures HoldsStreams(Joined(mine, theirs)) && other.HoldsStreams(theirs) && fresh(matrices - old(matrices))
    {
      hide *;
      var todo := other.cmsMap.Keys;
      ghost var now := mine;
      StartMergingStreams(other, mine, theirs);
      while todo != {}
        invariant MergingStreams(other, mine, theirs, todo, now)
        invariant fresh(matrices - old(matrices))
        decreases |todo|
      {
        var k :| k in todo;
        ghost var mid := matrices;
        now := MergeCmsKey(other, k, todo, mine, theirs, now);
        assert matrices - old(matrices) <= (mid - old(matrices)) + (matrices - mid);
        todo := todo - {k};
      }
      EndMergingStreams(other, mine, theirs, now);
    }

    lemma StartMergingStreams(other: ApproximateQueryEngine, mine: Streams, theirs: Streams)
      requires matrices !! other.matrices && HoldsStreams(mine) && other.HoldsStreams(theirs)
      ensures MergingStreams(other, mine, theirs, other.cmsMap.Keys, mine)
    {
      hide HoldsStreams, StreamsBetween;
      other.StreamKeys(theirs);
      StreamsBetweenStart(mine, theirs);
    }

    lemma EndMergingStreams(other: ApproximateQueryEngine, mine: Streams, theirs: Streams, now: Streams)
      requires MergingStreams(other, mine, theirs, {}, now)
      ensures HoldsStreams(Joined(mine, theirs)) && other.HoldsStreams(theirs)
    {
      hide HoldsStreams, StreamsBetween;
      JoinedDone(mine, theirs, now);
    }

    lemma StreamKeys(streams: Streams)
      requires HoldsStreams(streams)
      ensures cmsMap.Keys == streams.Keys && forall k <- cmsMap :: cmsMap[k].matrix in matrices
    {
    }

    lemma StreamHeldAt(streams: Streams, k: string)
      requires HoldsStreams(streams) && k in cmsMap
      ensures k in streams && cmsMap[k].matrix in matrices && cmsMap[k].shape == SHAPE && cmsMap[k].Sketches(streams[k])
    {
      hide CountMinSketch.Sketches;
    }
  }

  /** A merge under way: the keys in `todo` are still to be merged. */
  ghost predicate Between(mine: Items, theirs: Items, todo: set<string>, now: Items) {
    && now.Keys == mine.Keys + (theirs.Keys - todo)
    && forall k: string :: ItemsAt(now, k) == ItemsAt(mine, k) + (if k in todo then {} else ItemsAt(theirs, k))
  }

  lemma BetweenStart(mine: Items, theirs: Items)
    ensures Between(mine, theirs, theirs.Keys, mine)
  {
  }

  lemma BetweenNext(mine: Items, theirs: Items, todo: set<string>, now: Items, k: string)
    requires Between(mine, theirs, todo, now) && k in todo && k in theirs
    ensures Between(mine, theirs, todo - {k}, now[k := ItemsAt(now, k) + theirs[k]])
  {
  }

  lemma UnionDone(mine: Items, theirs: Items, now: Items)
    requires Between(mine, theirs, {}, now)
    ensures now == Union(mine, theirs)
  {
    assert forall k <- now :: now[k] == ItemsAt(now, k);
  }

  ghost predicate StreamsBetween(mine: Streams, theirs: Streams, todo: set<string>, now: Streams) {
    && now.Keys == mine.Keys + (theirs.Keys - todo)
    && forall k: string :: StreamAt(now, k) == StreamAt(mine, k) + (if k in todo then [] else StreamAt(theirs, k))
  }

  lemma StreamsBetweenStart(mine: Streams, theirs: Streams)
    ensures StreamsBetween(mine, theirs, theirs.Keys, mine)
  {
  }

  lemma StreamsBetweenNext(mine: Streams, theirs: Streams, todo: set<string>, now: Streams, k: string)
    requires StreamsBetween(mine, theirs, todo, now) && k in todo && k in theirs
    ensures StreamsBetween(mine, theirs, todo - {k}, now[k := StreamAt(now, k) + theirs[k]])
  {
    var after := now[k := StreamAt(now, k) + theirs[k]];
    forall j: string
      ensures StreamAt(after, j) == StreamAt(mine, j) + (if j in todo - {k} then [] else StreamAt(theirs, j))
    {
      assert StreamAt(now, j) == StreamAt(mine, j) + (if j in todo then [] else StreamAt(theirs, j));
      if j == k { assert StreamAt(mine, k) + [] == StreamAt(mine, k); }
    }
  }

  lemma JoinedDone(mine: Streams, theirs: Streams, now: Streams)
    requires StreamsBetween(mine, theirs, {}, now)
    ensures now == Joined(mine, theirs)
  {
    assert forall k <- now :: now[k] == StreamAt(now, k);
  }
}
