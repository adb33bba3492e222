/** Merging per-node GROUP BY answers: rows are matched by the text of their group values and summed. */
module GroupBy {
  import opened Prelude
  import opened TopN
  import opened Aggregates

  /** How Go prints a value with %v; the theorems hold for any way of printing. */
  type Printer = Json -> string

  function Numeric(v: Json): Option<real> {
    match v
    case Float(f) => Some(f)
    case Int64(i) => Some(i as real)
    case _ => None
  }

  // Group keys: texts joined by bars

  const BAR := '|'

  lemma JoinInjective(a: seq<string>, b: seq<string>)
    requires |a| == |b| && Join(BAR, a) == Join(BAR, b)
    requires (forall p <- a :: BAR !in p) && (forall p <- b :: BAR !in p)
    ensures a == b
  {
    if a != [] {
      OnlyWholeLists(BAR, a, b);
    }
  }

  /** Without that condition distinct groups are merged. */
  lemma BarsMergeGroups()
    ensures Join(BAR, ["a|b", "c"]) == Join(BAR, ["a", "b|c"])
  {
    assert Join(BAR, ["c"]) == "c" && Join(BAR, ["b|c"]) == "b|c";
    assert Join(BAR, ["a|b", "c"]) == "a|b" + "|" + "c";
    assert Join(BAR, ["a", "b|c"]) == "a" + "|" + "b|c";
  }

  function Texts(show: Printer, row: Row, keys: seq<string>): (ts: seq<string>)
    ensures |ts| == |keys|
  {
    seq(|keys|, i requires 0 <= i < |keys| => if keys[i] in row then show(row[keys[i]]) else "")
  }

  function GroupKey(show: Printer, row: Row, keys: seq<string>): string {
    Join(BAR, Texts(show, row, keys))
  }

  // Sums per group and column

  /** Adds two partial sums; a column without any number has none. */
  function Plus(a: Option<real>, b: Option<real>): Option<real> {
    if a.None? then b else if b.None? then a else Some(a.value + b.value)
  }

  /** What one row adds to a column of its group; group columns are not summed. */
  function Share(row: Row, keys: seq<string>, c: string): Option<real> {
    if c in row && c !in keys then Numeric(row[c]) else None
  }

  function SumOf(show: Printer, rows: seq<Row>, keys: seq<string>, g: string, c: string): Option<real> {
    if rows == [] then None
    else
      var r := rows[|rows| - 1];
      Plus(SumOf(show, rows[..|rows| - 1], keys, g, c),
           if GroupKey(show, r, keys) == g then Share(r, keys, c) else None)
  }

  /** How many rows of the group have a number in the column. */
  function CountOf(show: Printer, rows: seq<Row>, keys: seq<string>, g: string, c: string): nat {
    if rows == [] then 0
    else
      var r := rows[|rows| - 1];
      CountOf(show, rows[..|rows| - 1], keys, g, c)
      + (if GroupKey(show, r, keys) == g && Share(r, keys, c).Some? then 1 else 0)
  }

  lemma {:induction false} SumOfConcat(show: Printer, a: seq<Row>, b: seq<Row>, keys: seq<string>, g: string, c: string)
    ensures SumOf(show, a + b, keys, g, c) == Plus(SumOf(show, a, keys, g, c), SumOf(show, b, keys, g, c))
    ensures CountOf(show, a + b, keys, g, c) == CountOf(show, a, keys, g, c) + CountOf(show, b, keys, g, c)
  {
    hide GroupKey, Share;
    if b == [] {
      assert a + b == a;
    } else {
      assert (a + b)[..|a + b| - 1] == a + b[..|b| - 1];
      SumOfConcat(show, a, b[..|b| - 1], keys, g, c);
    }
  }

  // The nodes' side: base rows, and what a node answers

  /** A base row: the texts of its group values and its number in each aggregate column (null has none). */
  datatype Base = Base(group: seq<string>, numbers: map<string, real>)

  function Numbers(data: seq<Base>, t: seq<string>, c: string): seq<real> {
    if data == [] then []
    else
      var b := data[|data| - 1];
      Numbers(data[..|data| - 1], t, c) + (if b.group == t && c in b.numbers then [b.numbers[c]] else [])
  }

  /** The true aggregate of a group, null without any number. */
  function Total(agg: Agg, data: seq<Base>, t: seq<string>, c: string): Option<real> {
    var ns := Numbers(data, t, c);
    if ns == [] then None else Some(Value(agg, ns))
  }

  lemma {:induction false} NumbersConcat(a: seq<Base>, b: seq<Base>, t: seq<string>, c: string)
    ensures Numbers(a + b, t, c) == Numbers(a, t, c) + Numbers(b, t, c)
  {
    if b == [] {
      assert a + b == a;
    } else {
      assert (a + b)[..|a + b| - 1] == a + b[..|b| - 1];
      NumbersConcat(a, b[..|b| - 1], t, c);
    }
  }

  ghost predicate HasGroup(data: seq<Base>, t: seq<string>) {
    exists b <- data :: b.group == t
  }

  lemma {:induction false} NoGroupNoNumbers(data: seq<Base>, t: seq<string>, c: string)
    requires !HasGroup(data, t)
    ensures Numbers(data, t, c) == []
  {
    if data != [] {
      var front := data[..|data| - 1];
      assert data[|data| - 1] in data;
      assert !HasGroup(front, t) by { assert forall b <- front :: b in data; }
      NoGroupNoNumbers(front, t, c);
    }
  }

  /** A correct node answer: one row per group of its data, with the group's aggregates in the aggregate columns. */
  ghost predicate NodeAnswer(show: Printer, keys: seq<string>, agg: string -> Agg, data: seq<Base>, answer: seq<Row>) {
    && (forall i, j | 0 <= i < j < |answer| :: Texts(show, answer[i], keys) != Texts(show, answer[j], keys))
    && (forall r <- answer :: HasGroup(data, Texts(show, r, keys)))
    && (forall b <- data :: exists r <- answer :: Texts(show, r, keys) == b.group)
    && (forall r <- answer, c: string | c !in keys ::
          Shows(r, c, Total(agg(c), data, Texts(show, r, keys), c)))
  }

  /** The row has the number in the column, as an integer or a float, or no number there if there is none. */
  ghost predicate Shows(row: Row, c: string, x: Option<real>) {
    if x.Some? then c in row && (row[c] == Float(x.value) || (row[c].Int64? && row[c].i as real == x.value))
    else c !in row || !(row[c].Float? || row[c].Int64?)
  }

  lemma ShownIsShared(row: Row, keys: seq<string>, c: string, x: Option<real>)
    requires c !in keys
    ensures Shows(row, c, x) <==> Share(row, keys, c) == x
  {
  }

  ghost predicate BarFree(data: seq<Base>, n: nat) {
    forall b <- data :: |b.group| == n && forall p <- b.group :: BAR !in p
  }

  ghost predicate Answered(show: Printer, keys: seq<string>, agg: string -> Agg, data: seq<seq<Base>>,
                           answers: seq<seq<Row>>) {
    |data| == |answers| && forall i | 0 <= i < |data| :: NodeAnswer(show, keys, agg, data[i], answers[i])
  }

  lemma KeysMatchGroups(show: Printer, keys: seq<string>, agg: string -> Agg, data: seq<Base>, answer: seq<Row>,
                        t: seq<string>, r: Row)
    requires NodeAnswer(show, keys, agg, data, answer) && BarFree(data, |keys|) && r in answer
    requires |t| == |keys| && forall p <- t :: BAR !in p
    ensures GroupKey(show, r, keys) == Join(BAR, t) <==> Texts(show, r, keys) == t
  {
    hide Join, Share, Total;
    var b :| b in data && b.group == Texts(show, r, keys);
    if GroupKey(show, r, keys) == Join(BAR, t) {
      JoinInjective(Texts(show, r, keys), t);
    }
  }

  /** Among rows of distinct groups the sum of a group is the share of its only row. */
  lemma {:induction false} OnlyRow(show: Printer, keys: seq<string>, rows: seq<Row>, g: string, c: string, i: nat)
    requires i < |rows| && GroupKey(show, rows[i], keys) == g
    requires forall j | 0 <= j < |rows| && j != i :: GroupKey(show, rows[j], keys) != g
    ensures SumOf(show, rows, keys, g, c) == Share(rows[i], keys, c)
    ensures CountOf(show, rows, keys, g, c) == if Share(rows[i], keys, c).Some? then 1 else 0
  {
    hide GroupKey, Share;
    var k := |rows| - 1;
    if i == k {
      NoRow(show, keys, rows[..k], g, c);
    } else {
      OnlyRow(show, keys, rows[..k], g, c, i);
    }
  }

  lemma {:induction false} NoRow(show: Printer, keys: seq<string>, rows: seq<Row>, g: string, c: string)
    requires forall r <- rows :: GroupKey(show, r, keys) != g
    ensures SumOf(show, rows, keys, g, c) == None && CountOf(show, rows, keys, g, c) == 0
  {
    hide GroupKey, Share;
    if rows != [] {
      NoRow(show, keys, rows[..|rows| - 1], g, c);
    }
  }

  lemma NodeSum(show: Printer, keys: seq<string>, agg: string -> Agg, data: seq<Base>, answer: seq<Row>,
                t: seq<string>, c: string)
    requires NodeAnswer(show, keys, agg, data, answer) && BarFree(data, |keys|) && c !in keys
    requires |t| == |keys| && forall p <- t :: BAR !in p
    ensures SumOf(show, answer, keys, Join(BAR, t), c) == Total(agg(c), data, t, c)
    ensures CountOf(show, answer, keys, Join(BAR, t), c) == if Total(agg(c), data, t, c).Some? then 1 else 0
  {
    forall j | 0 <= j < |answer|
      ensures GroupKey(show, answer[j], keys) == Join(BAR, t) <==> Texts(show, answer[j], keys) == t
    {
      assert answer[j] in answer;
      KeysMatchGroups(show, keys, agg, data, answer, t, answer[j]);
    }
    if HasGroup(data, t) {
      hide GroupKey, Share, Texts, Join, SumOf, CountOf, Total, Shows;
      var b :| b in data && b.group == t;
      var r :| r in answer && Texts(show, r, keys) == t;
      var i :| 0 <= i < |answer| && answer[i] == r;
      OnlyRow(show, keys, answer, Join(BAR, t), c, i);
      ShownIsShared(r, keys, c, Total(agg(c), data, t, c));
    } else {
      NoGroupNoNumbers(data, t, c);
      hide GroupKey, Share, Texts, Join, SumOf, CountOf, Numbers;
      assert forall j | 0 <= j < |answer| :: Texts(show, answer[j], keys) != t by {
        assert forall j | 0 <= j < |answer| :: answer[j] in answer;
      }
      NoRow(show, keys, answer, Join(BAR, t), c);
    }
  }

  /** The numbers of a group on each node that has any. */
  function Parts(data: seq<seq<Base>>, t: seq<string>, c: string): (parts: seq<seq<real>>)
    ensures Full(parts)
  {
    if data == [] then []
    else
      var ns := Numbers(data[|data| - 1], t, c);
      Parts(data[..|data| - 1], t, c) + (if ns == [] then [] else [ns])
  }

  lemma {:induction false} PartsJoin(data: seq<seq<Base>>, t: seq<string>, c: string)
    ensures Concat(Parts(data, t, c)) == Numbers(Concat(data), t, c)
  {
    if data != [] {
      var k := |data| - 1;
      PartsJoin(data[..k], t, c);
      NumbersConcat(Concat(data[..k]), data[k], t, c);
      hide Numbers;
      var front, ns := Parts(data[..k], t, c), Numbers(data[k], t, c);
      assert (front + [ns])[..|front|] == front && front + [] == front;
    }
  }

  /** What the coordinator sums: one value per node that has a number in the group. */
  lemma {:induction false} MergedPartials(show: Printer, keys: seq<string>, agg: string -> Agg, data: seq<seq<Base>>,
                                          answers: seq<seq<Row>>, t: seq<string>, c: string)
    requires Answered(show, keys, agg, data, answers) && (forall d <- data :: BarFree(d, |keys|)) && c !in keys
    requires |t| == |keys| && forall p <- t :: BAR !in p
    ensures var parts := Parts(data, t, c);
            && SumOf(show, Concat(answers), keys, Join(BAR, t), c)
               == (if parts == [] then None else Some(SumUp(Partials(agg(c), parts))))
            && CountOf(show, Concat(answers), keys, Join(BAR, t), c) == |parts|
  {
    hide NodeAnswer, BarFree, SumOf, CountOf, Numbers, Partials, SumUp, Value;
    if data == [] {
      EmptySums(show, keys, t, c);
    } else {
      var k := |data| - 1;
      MergedPartials(show, keys, agg, data[..k], answers[..k], t, c);
      NodeSum(show, keys, agg, data[k], answers[k], t, c);
      SumOfConcat(show, Concat(answers[..k]), answers[k], keys, Join(BAR, t), c);
      var front, ns := Parts(data[..k], t, c), Numbers(data[k], t, c);
      if ns == [] {
        assert front + [] == front;
      } else {
        PartialsNext(agg(c), front, ns);
        if front == [] { NoPartials(agg(c)); }
      }
    }
  }

  lemma EmptySums(show: Printer, keys: seq<string>, t: seq<string>, c: string)
    ensures SumOf(show, [], keys, Join(BAR, t), c) == None && CountOf(show, [], keys, Join(BAR, t), c) == 0
  {
  }

  /**
   * Distributed SUM and COUNT. However the base rows are divided among nodes: for every group of
   * bar-free texts and every such column, the merged sum equals the total over all rows.
   */
  lemma MergedSumIsGlobalTotal(show: Printer, keys: seq<string>, agg: string -> Agg, data: seq<seq<Base>>,
                               answers: seq<seq<Row>>, t: seq<string>, c: string)
    requires Answered(show, keys, agg, data, answers) && (forall d <- data :: BarFree(d, |keys|)) && c !in keys
    requires |t| == |keys| && (forall p <- t :: BAR !in p) && (agg(c) == Sum || agg(c) == Count)
    ensures SumOf(show, Concat(answers), keys, Join(BAR, t), c) == Total(agg(c), Concat(data), t, c)
  {
    MergedPartials(show, keys, agg, data, answers, t, c);
    PartsJoin(data, t, c);
    SumOfParts(agg(c), Parts(data, t, c));
    NoPartsNoNumbers(Parts(data, t, c));
    hide SumOf, Numbers, Parts, Partials, Concat, Answered;
  }

  // The coordinator's reduce step

  type Sums = map<string, real>
  type Counts = map<string, nat>

  function Get(m: Sums, c: string): Option<real> {
    if c in m then Some(m[c]) else None
  }

  function CountAt(m: Counts, c: string): nat {
    if c in m then m[c] else 0
  }

  /** Adds one row's numbers to the sums of its group, column by column in any order. */
  method AddShares(sums: Sums, counts: Counts, row: Row, keys: seq<string>) returns (s: Sums, n: Counts)
    ensures forall c :: Get(s, c) == Plus(Get(sums, c), Share(row, keys, c))
    ensures forall c :: CountAt(n, c) == CountAt(counts, c) + (if Share(row, keys, c).Some? then 1 else 0)
  {
    hide Numeric;
    s, n := sums, counts;
    var todo := row.Keys;
    while todo != {}
      invariant todo <= row.Keys
      invariant forall c :: Get(s, c) == if c in todo then Get(sums, c) else Plus(Get(sums, c), Share(row, keys, c))
      invariant forall c ::
                  CountAt(n, c) == CountAt(counts, c) + (if c !in todo && Share(row, keys, c).Some? then 1 else 0)
      decreases |todo|
    {
      var c :| c in todo;
      todo := todo - {c};
      var num := Numeric(row[c]);
      if num.Some? && c !in keys {
        s := s[c := (if c in s then s[c] else 0.0) + num.value];
        n := n[c := CountAt(n, c) + 1];
      }
    }
  }

  /** The accumulated maps hold one entry per group key, with the sums and counts of its rows. */
  ghost predicate Grouped(show: Printer, rows: seq<Row>, keys: seq<string>, groups: map<string, Sums>,
                          counts: map<string, Counts>) {
    && groups.Keys == counts.Keys
    && (forall g :: g in groups <==> exists r <- rows :: GroupKey(show, r, keys) == g)
    && (forall g <- groups, c: string :: Get(groups[g], c) == SumOf(show, rows, keys, g, c))
    && (forall g <- groups, c: string :: CountAt(counts[g], c) == CountOf(show, rows, keys, g, c))
  }

  lemma SumNext(show: Printer, rows: seq<Row>, r: Row, keys: seq<string>, g: string, c: string)
    ensures SumOf(show, rows + [r], keys, g, c) ==
            Plus(SumOf(show, rows, keys, g, c), if GroupKey(show, r, keys) == g then Share(r, keys, c) else None)
    ensures CountOf(show, rows + [r], keys, g, c) ==
            CountOf(show, rows, keys, g, c) + (if GroupKey(show, r, keys) == g && Share(r, keys, c).Some? then 1 else 0)
  {
    assert (rows + [r])[..|rows|] == rows;
  }

  method AddRow(show: Printer, ghost rows: seq<Row>, r: Row, keys: seq<string>, groups: map<string, Sums>,
                counts: map<string, Counts>)
      returns (groups': map<string, Sums>, counts': map<string, Counts>)
    requires Grouped(show, rows, keys, groups, counts)
    ensures Grouped(show, rows + [r], keys, groups', counts')
  {
    hide GroupKey, Share, SumOf, CountOf;
    var g := GroupKey(show, r, keys);
    var sums: Sums := if g in groups then groups[g] else map[];
    var ns: Counts := if g in counts then counts[g] else map[];
    forall c
      ensures Get(sums, c) == SumOf(show, rows, keys, g, c) && CountAt(ns, c) == CountOf(show, rows, keys, g, c)
    {
      if g !in groups { NoRow(show, keys, rows, g, c); }
    }
    sums, ns := AddShares(sums, ns, r, keys);
    groups', counts' := groups[g := sums], counts[g := ns];
    forall h, c | h in groups'
      ensures Get(groups'[h], c) == SumOf(show, rows + [r], keys, h, c)
      ensures CountAt(counts'[h], c) == CountOf(show, rows + [r], keys, h, c)
    {
      SumNext(show, rows, r, keys, h, c);
    }
    hide Get, CountAt;
    assert forall h :: h in groups' <==> exists x <- rows + [r] :: GroupKey(show, x, keys) == h by {
      KeysNext(show, rows, r, keys, groups);
    }
  }

  lemma KeysNext(show: Printer, rows: seq<Row>, r: Row, keys: seq<string>, groups: map<string, Sums>)
    requires forall g :: g in groups <==> exists x <- rows :: GroupKey(show, x, keys) == g
    ensures forall h ::
              h in groups || h == GroupKey(show, r, keys) <==> exists x <- rows + [r] :: GroupKey(show, x, keys) == h
  {
    hide GroupKey;
    forall h | h in groups ensures exists x <- rows + [r] :: GroupKey(show, x, keys) == h {
      var x :| x in rows && GroupKey(show, x, keys) == h;
      assert x in rows + [r];
    }
    assert r in rows + [r];
  }

  function GroupColumns(keys: seq<string>, parts: seq<string>, n: nat): Row
    requires n <= |keys|
  {
    if n == 0 then map[]
    else
      var row := GroupColumns(keys, parts, n - 1);
      if n - 1 < |parts| then row[keys[n - 1] := Text(parts[n - 1])] else row
  }

  /** Each aggregate in turn overwrites the column, so the last one decides. */
  function AggCell(aggs: seq<Agg>, sum: real, count: nat): Option<real> {
    if aggs == [] then None
    else if aggs[|aggs| - 1] == Avg then
      (if count > 0 then Some(sum / count as real) else AggCell(aggs[..|aggs| - 1], sum, count))
    else Some(sum)
  }

  function OutRow(keys: seq<string>, aggs: seq<Agg>, g: string, sums: Sums, counts: Counts): Row {
    GroupColumns(keys, Split(BAR, g), |keys|)
    + (map c | c in sums && AggCell(aggs, sums[c], CountAt(counts, c)).Some? ::
         Float(AggCell(aggs, sums[c], CountAt(counts, c)).value))
  }

  /** The output rows are those of the group keys, each listed once, in some order. */
  ghost predicate Listed(keys: seq<string>, aggs: seq<Agg>, groups: map<string, Sums>, counts: map<string, Counts>,
                         order: seq<string>, out: seq<Row>) {
    && groups.Keys == counts.Keys
    && (forall i, j | 0 <= i < j < |order| :: order[i] != order[j])
    && (forall g :: g in groups <==> g in order)
    && |out| == |order|
    && forall i | 0 <= i < |order| :: out[i] == OutRow(keys, aggs, order[i], groups[order[i]], counts[order[i]])
  }

  method Reduce(show: Printer, results: seq<Option<seq<Row>>>, keys: seq<string>, aggs: seq<Agg>)
      returns (out: seq<Row>)
    ensures exists groups, counts, order ::
              Grouped(show, Concat(Decoded(results)), keys, groups, counts)
                && Listed(keys, aggs, groups, counts, order, out)
  {
    hide Grouped, OutRow;
    var sums: map<string, Sums>, ns: map<string, Counts> := map[], map[];
    ghost var rows: seq<Row> := [];
    assert Grouped(show, [], keys, sums, ns) by { GroupedNothing(show, keys); }
    var i := 0;
    while i < |results|
      invariant 0 <= i <= |results|
      invariant rows == Concat(Decoded(results[..i])) && Grouped(show, rows, keys, sums, ns)
    {
      assert results[..i + 1][..i] == results[..i];
      ghost var before := Decoded(results[..i]);
      assert before + [] == before;
      if results[i].Some? {
        assert (before + [results[i].value])[..|before|] == before;
        sums, ns := AddRows(show, rows, results[i].value, keys, sums, ns);
        rows := rows + results[i].value;
      }
      i := i + 1;
    }
    assert results[..i] == results;
    assert sums.Keys == ns.Keys by { GroupedSameKeys(show, rows, keys, sums, ns); }
    ghost var order;
    out, order := OutRows(keys, aggs, sums, ns);
  }

  /** One row per group, in any order. */
  method OutRows(keys: seq<string>, aggs: seq<Agg>, sums: map<string, Sums>, ns: map<string, Counts>)
      returns (out: seq<Row>, ghost order: seq<string>)
    requires sums.Keys == ns.Keys
    ensures Listed(keys, aggs, sums, ns, order, out)
  {
    hide OutRow;
    out, order := [], [];
    var todo := sums.Keys;
    while todo != {}
      invariant todo <= sums.Keys && |out| == |order|
      invariant forall j, k | 0 <= j < k < |order| :: order[j] != order[k]
      invariant forall g :: g in order <==> g in sums && g !in todo
      invariant forall j | 0 <= j < |order| :: out[j] == OutRow(keys, aggs, order[j], sums[order[j]], ns[order[j]])
      decreases |todo|
    {
      var g :| g in todo;
      todo := todo - {g};
      out := out + [OutRow(keys, aggs, g, sums[g], ns[g])];
      order := order + [g];
    }
  }

  lemma GroupedNothing(show: Printer, keys: seq<string>)
    ensures Grouped(show, [], keys, map[], map[])
  {
  }

  lemma GroupedSameKeys(show: Printer, rows: seq<Row>, keys: seq<string>, sums: map<string, Sums>,
                        ns: map<string, Counts>)
    requires Grouped(show, rows, keys, sums, ns)
    ensures sums.Keys == ns.Keys
  {
  }

  method AddRows(show: Printer, ghost rows: seq<Row>, more: seq<Row>, keys: seq<string>, groups: map<string, Sums>,
                 counts: map<string, Counts>)
      returns (groups': map<string, Sums>, counts': map<string, Counts>)
    requires Grouped(show, rows, keys, groups, counts)
    ensures Grouped(show, rows + more, keys, groups', counts')
  {
    hide Grouped;
    groups', counts' := groups, counts;
    assert rows + more[..0] == rows;
    for j := 0 to |more|
      invariant Grouped(show, rows + more[..j], keys, groups', counts')
    {
      assert rows + more[..j + 1] == rows + more[..j] + [more[j]];
      groups', counts' := AddRow(show, rows + more[..j], more[j], keys, groups', counts');
    }
    assert more[..|more|] == more;
  }

  // The merged answer

  /** What the sum of a column is divided by: the last aggregate of the query decides, for every column. */
  function Divisor(aggs: seq<Agg>, count: nat): nat
    requires aggs != []
  {
    if aggs[|aggs| - 1] == Avg then count else 1
  }

  lemma {:induction false} LastAggregateDecides(aggs: seq<Agg>, sum: real, count: nat)
    requires aggs != [] && count > 0
    ensures AggCell(aggs, sum, count) == Some(sum / Divisor(aggs, count) as real)
  {
    assert sum / 1 as real == sum;
  }

  lemma {:induction false} GroupColumnsHold(keys: seq<string>, parts: seq<string>, n: nat, i: nat)
    requires n <= |keys| && n <= |parts| && i < n
    requires forall a, b | 0 <= a < b < |keys| :: keys[a] != keys[b]
    ensures keys[i] in GroupColumns(keys, parts, n) && GroupColumns(keys, parts, n)[keys[i]] == Text(parts[i])
  {
    if i < n - 1 {
      GroupColumnsHold(keys, parts, n - 1, i);
    }
  }

  lemma {:induction false} GroupColumnsOnly(keys: seq<string>, parts: seq<string>, n: nat)
    requires n <= |keys|
    ensures forall c <- GroupColumns(keys, parts, n) :: c in keys
  {
    if n > 0 {
      GroupColumnsOnly(keys, parts, n - 1);
    }
  }

  lemma {:induction false} NotSummed(show: Printer, rows: seq<Row>, keys: seq<string>, g: string, c: string)
    requires c in keys
    ensures SumOf(show, rows, keys, g, c) == None
  {
    hide GroupKey;
    if rows != [] {
      NotSummed(show, rows[..|rows| - 1], keys, g, c);
    }
  }

  predicate Distinct(keys: seq<string>) {
    forall a, b | 0 <= a < b < |keys| :: keys[a] != keys[b]
  }

  ghost predicate Carries(keys: seq<string>, t: seq<string>, row: Row)
    requires |t| == |keys|
  {
    forall i | 0 <= i < |keys| :: keys[i] in row && row[keys[i]] == Text(t[i])
  }

  /** Whatever the answers are, the row of a tuple's key carries the tuple's texts exactly if they have no bar. */
  lemma RowCarriesTextsIff(show: Printer, rows: seq<Row>, keys: seq<string>, aggs: seq<Agg>,
                           groups: map<string, Sums>, counts: map<string, Counts>, t: seq<string>)
    requires Distinct(keys) && keys != [] && |t| == |keys|
    requires Grouped(show, rows, keys, groups, counts) && Join(BAR, t) in groups
    ensures Carries(keys, t, OutRow(keys, aggs, Join(BAR, t), groups[Join(BAR, t)], counts[Join(BAR, t)]))
            <==> forall p <- t :: BAR !in p
  {
    var g := Join(BAR, t);
    var parts, row := Split(BAR, g), OutRow(keys, aggs, g, groups[g], counts[g]);
    SplitJoinIff(BAR, t);
    SplitJoinPieces(BAR, t);
    FewestPieces(BAR, t);
    hide Split, Pieces, Join, AggCell;
    forall i | 0 <= i < |keys| ensures keys[i] in row && row[keys[i]] == Text(parts[i]) {
      GroupColumnsHold(keys, parts, |keys|, i);
      NotSummed(show, rows, keys, g, keys[i]);
      assert Get(groups[g], keys[i]) == SumOf(show, rows, keys, g, keys[i]);
    }
    hide *;
    assert Carries(keys, t, row) <==> t <= parts by { CarriesIff(keys, t, parts, row); }
  }

  /** The output row of an answer's group shows, column by column, the printed values of the answer's group columns. */
  lemma RowShowsItsValues(show: Printer, rows: seq<Row>, keys: seq<string>, aggs: seq<Agg>,
                          groups: map<string, Sums>, counts: map<string, Counts>, r: Row)
    requires Distinct(keys) && keys != [] && Grouped(show, rows, keys, groups, counts) && r in rows
    requires forall k <- keys :: k in r && BAR !in show(r[k])
    ensures var g := GroupKey(show, r, keys);
            && g in groups && g in counts
            && forall k <- keys :: var row := OutRow(keys, aggs, g, groups[g], counts[g]);
                                   k in row && row[k] == Text(show(r[k]))
  {
    var t, g := Texts(show, r, keys), GroupKey(show, r, keys);
    forall p | p in t ensures BAR !in p {
      var i :| 0 <= i < |keys| && t[i] == p;
      assert keys[i] in keys;
    }
    assert g == Join(BAR, t) && g in groups && groups.Keys == counts.Keys;
    RowCarriesTextsIff(show, rows, keys, aggs, groups, counts, t);
    hide OutRow, Join, Grouped;
    forall k | k in keys ensures var row := OutRow(keys, aggs, g, groups[g], counts[g]);
                                 k in row && row[k] == Text(show(r[k]))
    {
      var i :| 0 <= i < |keys| && keys[i] == k;
      assert t[i] == show(r[k]);
    }
  }

  lemma CarriesIff(keys: seq<string>, t: seq<string>, parts: seq<string>, row: Row)
    requires |t| == |keys| <= |parts|
    requires forall i | 0 <= i < |keys| :: keys[i] in row && row[keys[i]] == Text(parts[i])
    ensures Carries(keys, t, row) <==> t <= parts
  {
    if Carries(keys, t, row) {
      forall i | 0 <= i < |keys| ensures t[i] == parts[i] {
        assert keys[i] in row;
      }
    }
  }

  lemma {:induction false} GroupsOfAnswers(show: Printer, keys: seq<string>, agg: string -> Agg, data: seq<seq<Base>>,
                                           answers: seq<seq<Row>>, t: seq<string>)
    requires Answered(show, keys, agg, data, answers)
    ensures HasGroup(Concat(data), t) <==> exists r <- Concat(answers) :: Texts(show, r, keys) == t
  {
    hide Texts, Share, Total;
    if data != [] {
      var k := |data| - 1;
      GroupsOfAnswers(show, keys, agg, data[..k], answers[..k], t);
      var d, a := data[k], answers[k];
      if HasGroup(d, t) {
        var b :| b in d && b.group == t;
        var r :| r in a && Texts(show, r, keys) == t;
        assert r in Concat(answers) && b in Concat(data);
      }
    }
  }

  ghost predicate Proper(t: seq<string>, keys: seq<string>) {
    |t| == |keys| && forall p <- t :: BAR !in p
  }

  function Cell(row: Row, c: string): Option<real> {
    if c in row then Numeric(row[c]) else None
  }

  /** The coordinator's maps after every node has answered the query correctly, for bar-free base rows. */
  ghost predicate Merged(show: Printer, keys: seq<string>, agg: string -> Agg, data: seq<seq<Base>>,
                         groups: map<string, Sums>, counts: map<string, Counts>, results: seq<Option<seq<Row>>>) {
    && keys != [] && Distinct(keys) && |results| == |data|
    && (forall i | 0 <= i < |data| :: results[i].Some? && NodeAnswer(show, keys, agg, data[i], results[i].value))
    && (forall d <- data :: BarFree(d, |keys|))
    && Grouped(show, Concat(Decoded(results)), keys, groups, counts)
  }

  /** The answers in the nodes' results. */
  lemma MergedAnswers(show: Printer, keys: seq<string>, agg: string -> Agg, data: seq<seq<Base>>,
                      groups: map<string, Sums>, counts: map<string, Counts>, results: seq<Option<seq<Row>>>)
      returns (answers: seq<seq<Row>>)
    requires Merged(show, keys, agg, data, groups, counts, results)
    ensures Answered(show, keys, agg, data, answers) && Grouped(show, Concat(answers), keys, groups, counts)
    ensures answers == Decoded(results)
  {
    hide NodeAnswer, BarFree, Grouped;
    answers := seq(|data|, k requires 0 <= k < |data| => results[k].value);
    DecodedAll(results, answers);
  }

  ghost function TupleRow(keys: seq<string>, aggs: seq<Agg>, groups: map<string, Sums>, counts: map<string, Counts>,
                          t: seq<string>): Row
    requires Join(BAR, t) in groups && groups.Keys == counts.Keys
  {
    OutRow(keys, aggs, Join(BAR, t), groups[Join(BAR, t)], counts[Join(BAR, t)])
  }

  /** The output row of a tuple: the nodes' values are summed, and divided as the last aggregate says. */
  lemma ReducedCell(show: Printer, keys: seq<string>, agg: string -> Agg, aggs: seq<Agg>, data: seq<seq<Base>>,
                    results: seq<Option<seq<Row>>>, groups: map<string, Sums>, counts: map<string, Counts>,
                    t: seq<string>,
                    c: string)
    requires Merged(show, keys, agg, data, groups, counts, results) && Proper(t, keys) && aggs != [] && c !in keys
    requires Join(BAR, t) in groups
    ensures var parts := Parts(data, t, c);
            Cell(TupleRow(keys, aggs, groups, counts, t), c) ==
            if parts == [] then None
            else Some(SumUp(Partials(agg(c), parts)) / Divisor(aggs, |parts|) as real)
  {
    var answers := MergedAnswers(show, keys, agg, data, groups, counts, results);
    var g, parts := Join(BAR, t), Parts(data, t, c);
    MergedPartials(show, keys, agg, data, answers, t, c);
    GroupColumnsOnly(keys, Split(BAR, g), |keys|);
    if parts != [] { LastAggregateDecides(aggs, SumUp(Partials(agg(c), parts)), |parts|); }
    hide Answered, BarFree, SumOf, CountOf, Parts, Partials, SumUp, Split, AggCell, Join, GroupColumns, Divisor;
    assert Get(groups[g], c) == SumOf(show, Concat(answers), keys, g, c);
    assert CountAt(counts[g], c) == CountOf(show, Concat(answers), keys, g, c);
  }

  /**
   * A proper tuple has a group key in the merged maps exactly if some base row has that tuple; and its output row
   * carries the tuple's texts in the group columns.
   */
  lemma ReducedRowIsGlobal(show: Printer, keys: seq<string>, agg: string -> Agg, aggs: seq<Agg>, data: seq<seq<Base>>,
                           results: seq<Option<seq<Row>>>, groups: map<string, Sums>, counts: map<string, Counts>,
                           t: seq<string>)
    requires Merged(show, keys, agg, data, groups, counts, results) && Proper(t, keys)
    ensures HasGroup(Concat(data), t) <==> Join(BAR, t) in groups
    ensures Join(BAR, t) in groups ==> Carries(keys, t, TupleRow(keys, aggs, groups, counts, t))
  {
    var answers := MergedAnswers(show, keys, agg, data, groups, counts, results);
    KeyOfTuple(show, keys, agg, data, answers, t);
    if Join(BAR, t) in groups {
      RowCarriesTextsIff(show, Concat(answers), keys, aggs, groups, counts, t);
    }
  }

  /**
   * A SUM or COUNT column of the merged row is the total over all base rows, or missing where that is null, exactly
   * if the query's last aggregate is not AVG, or at most one node has a number in the group, or the total is zero.
   */
  lemma ReducedTotalIff(show: Printer, keys: seq<string>, agg: string -> Agg, aggs: seq<Agg>, data: seq<seq<Base>>,
                        results: seq<Option<seq<Row>>>, groups: map<string, Sums>, counts: map<string, Counts>,
                        t: seq<string>, c: string)
    requires Merged(show, keys, agg, data, groups, counts, results) && Proper(t, keys) && Join(BAR, t) in groups
    requires aggs != [] && c !in keys && (agg(c) == Sum || agg(c) == Count)
    ensures Cell(TupleRow(keys, aggs, groups, counts, t), c) == Total(agg(c), Concat(data), t, c)
            <==> || aggs[|aggs| - 1] != Avg || |Parts(data, t, c)| <= 1
                 || Total(agg(c), Concat(data), t, c) == Some(0.0)
  {
    var answers := MergedAnswers(show, keys, agg, data, groups, counts, results);
    var parts := Parts(data, t, c);
    ReducedCell(show, keys, agg, aggs, data, results, groups, counts, t, c);
    MergedPartials(show, keys, agg, data, answers, t, c);
    MergedSumIsGlobalTotal(show, keys, agg, data, answers, t, c);
    hide TupleRow, Total, Parts, Partials, SumUp, SumOf, Join, Merged;
    if parts != [] {
      var sum := SumUp(Partials(agg(c), parts));
      ShareOfSum(sum, Divisor(aggs, |parts|));
    }
  }

  lemma KeyOfTuple(show: Printer, keys: seq<string>, agg: string -> Agg, data: seq<seq<Base>>, answers: seq<seq<Row>>,
                   t: seq<string>)
    requires Answered(show, keys, agg, data, answers) && (forall d <- data :: BarFree(d, |keys|)) && Proper(t, keys)
    ensures HasGroup(Concat(data), t) <==> exists r <- Concat(answers) :: GroupKey(show, r, keys) == Join(BAR, t)
  {
    GroupsOfAnswers(show, keys, agg, data, answers, t);
    forall r | r in Concat(answers) ensures GroupKey(show, r, keys) == Join(BAR, t) <==> Texts(show, r, keys) == t {
      AnswerIsProper(show, keys, agg, data, answers, r);
      if GroupKey(show, r, keys) == Join(BAR, t) { JoinInjective(Texts(show, r, keys), t); }
    }
  }

  lemma {:induction false} AnswerIsProper(show: Printer, keys: seq<string>, agg: string -> Agg, data: seq<seq<Base>>,
                                          answers: seq<seq<Row>>, r: Row)
    requires Answered(show, keys, agg, data, answers) && (forall d <- data :: BarFree(d, |keys|))
             && r in Concat(answers)
    ensures Proper(Texts(show, r, keys), keys)
  {
    hide Texts, Share, Total;
    var k := |data| - 1;
    if r in answers[k] {
      assert NodeAnswer(show, keys, agg, data[k], answers[k]) && BarFree(data[k], |keys|);
      var b :| b in data[k] && b.group == Texts(show, r, keys);
    } else {
      AnswerIsProper(show, keys, agg, data[..k], answers[..k], r);
    }
  }

  /** Conversely every key of the merged maps, and so every output row, belongs to a tuple of the base rows. */
  lemma EveryKeyIsAGroup(show: Printer, keys: seq<string>, agg: string -> Agg, data: seq<seq<Base>>,
                         answers: seq<seq<Row>>, groups: map<string, Sums>, counts: map<string, Counts>, g: string)
      returns (t: seq<string>)
    requires Answered(show, keys, agg, data, answers) && (forall d <- data :: BarFree(d, |keys|))
    requires Grouped(show, Concat(answers), keys, groups, counts) && g in groups
    ensures Proper(t, keys) && HasGroup(Concat(data), t) && g == Join(BAR, t)
  {
    var r :| r in Concat(answers) && GroupKey(show, r, keys) == g;
    t := Texts(show, r, keys);
    AnswerIsProper(show, keys, agg, data, answers, r);
    GroupsOfAnswers(show, keys, agg, data, answers, t);
  }

  // MIN and MAX columns: the nodes' values are summed

  /**
   * A MIN (MAX) column of the merged row is the minimum (maximum) over all base rows: if the query's last aggregate
   * is AVG, exactly if all nodes have the same value, and otherwise exactly if the values other than one least
   * (greatest) one sum to zero.
   */
  lemma ReducedExtremeIff(show: Printer, keys: seq<string>, agg: string -> Agg, aggs: seq<Agg>, data: seq<seq<Base>>,
                          results: seq<Option<seq<Row>>>, groups: map<string, Sums>, counts: map<string, Counts>,
                          t: seq<string>, c: string, i: nat)
    requires Merged(show, keys, agg, data, groups, counts, results) && Proper(t, keys) && Join(BAR, t) in groups
    requires aggs != [] && c !in keys && (agg(c) == Min || agg(c) == Max)
    requires var vs := Partials(agg(c), Parts(data, t, c)); i < |vs| && forall v <- vs :: !Beats(agg(c), v, vs[i])
    ensures var vs := Partials(agg(c), Parts(data, t, c));
            Cell(TupleRow(keys, aggs, groups, counts, t), c) == Total(agg(c), Concat(data), t, c)
            <==> if aggs[|aggs| - 1] == Avg then forall v <- vs :: v == vs[i] else SumUp(Others(vs, i)) == 0.0
  {
    hide Parts, Partials, SumUp, Join, TupleRow, Merged, Others, Beats, Best, Numbers;
    var parts := Parts(data, t, c);
    var vs := Partials(agg(c), parts);
    ReducedCell(show, keys, agg, aggs, data, results, groups, counts, t, c);
    ShareIsBestIff(agg(c), vs, i, aggs[|aggs| - 1] == Avg);
    PartsJoin(data, t, c);
    BestOfParts(agg(c), parts);
    BestIs(agg(c), vs, vs[i]);
    hide Concat;
  }

  // AVG columns: averaged over the nodes' averages

  /**
   * An AVG column of the merged row is the average over all base rows exactly if `k` times the weighted sum of the
   * nodes' averages is the sum of the averages times the number of rows; `k` is the number of nodes if the query's
   * last aggregate is AVG, and one otherwise.
   */
  lemma ReducedAverageIff(show: Printer, keys: seq<string>, agg: string -> Agg, aggs: seq<Agg>, data: seq<seq<Base>>,
                          results: seq<Option<seq<Row>>>, groups: map<string, Sums>, counts: map<string, Counts>,
                          t: seq<string>, c: string)
    requires Merged(show, keys, agg, data, groups, counts, results) && Proper(t, keys) && Join(BAR, t) in groups
    requires aggs != [] && c !in keys && agg(c) == Avg && Parts(data, t, c) != []
    ensures var parts := Parts(data, t, c);
            Cell(TupleRow(keys, aggs, groups, counts, t), c) == Total(Avg, Concat(data), t, c)
            <==> AveragesAgree(parts, Divisor(aggs, |parts|))
  {
    var parts := Parts(data, t, c);
    ReducedCell(show, keys, agg, aggs, data, results, groups, counts, t, c);
    PartsJoin(data, t, c);
    MeanOfParts(parts, Divisor(aggs, |parts|));
    hide Parts, Partials, SumUp, Join, TupleRow, Merged, AveragesAgree, Concat, Numbers, Divisor;
  }

  // The rows of the answer

  /** Every tuple of the base rows has exactly one row in the merged answer. */
  lemma OneRowPerTuple(show: Printer, keys: seq<string>, agg: string -> Agg, aggs: seq<Agg>, data: seq<seq<Base>>,
                       results: seq<Option<seq<Row>>>, groups: map<string, Sums>, counts: map<string, Counts>,
                       order: seq<string>, out: seq<Row>, t: seq<string>) returns (i: nat)
    requires Merged(show, keys, agg, data, groups, counts, results) && Listed(keys, aggs, groups, counts, order, out)
    requires Proper(t, keys) && HasGroup(Concat(data), t)
    ensures Join(BAR, t) in groups && i < |out| && out[i] == TupleRow(keys, aggs, groups, counts, t)
    ensures forall j | 0 <= j < |out| :: Carries(keys, t, out[j]) <==> j == i
  {
    hide Carries, HasGroup, Merged, OutRow, Join;
    ReducedRowIsGlobal(show, keys, agg, aggs, data, results, groups, counts, t);
    i :| 0 <= i < |order| && order[i] == Join(BAR, t);
    forall j | 0 <= j < |out| && Carries(keys, t, out[j]) ensures j == i {
      var u := TupleOfRow(show, keys, agg, aggs, data, results, groups, counts, order, out, j);
      SameTexts(keys, t, u, out[j]);
    }
  }

  /** And every row of the merged answer is the row of such a tuple. */
  lemma TupleOfRow(show: Printer, keys: seq<string>, agg: string -> Agg, aggs: seq<Agg>, data: seq<seq<Base>>,
                   results: seq<Option<seq<Row>>>, groups: map<string, Sums>, counts: map<string, Counts>,
                   order: seq<string>, out: seq<Row>, i: nat) returns (t: seq<string>)
    requires Merged(show, keys, agg, data, groups, counts, results) && Listed(keys, aggs, groups, counts, order, out)
    requires i < |out|
    ensures Proper(t, keys) && HasGroup(Concat(data), t) && Carries(keys, t, out[i]) && order[i] == Join(BAR, t)
  {
    var answers := MergedAnswers(show, keys, agg, data, groups, counts, results);
    assert order[i] in order;
    t := EveryKeyIsAGroup(show, keys, agg, data, answers, groups, counts, order[i]);
    ReducedRowIsGlobal(show, keys, agg, aggs, data, results, groups, counts, t);
    hide Carries, HasGroup, OutRow;
  }

  lemma SameTexts(keys: seq<string>, t: seq<string>, u: seq<string>, row: Row)
    requires |t| == |u| == |keys| && Carries(keys, t, row) && Carries(keys, u, row)
    ensures t == u
  {
    forall i | 0 <= i < |keys| ensures t[i] == u[i] {
      assert keys[i] in row;
    }
  }

  // Two nodes, one group: answers that are wrong

  /** Base rows of the group `a` with the given numbers. */
  function BasesOf(ns: seq<real>): seq<Base> {
    if ns == [] then [] else BasesOf(ns[..|ns| - 1]) + [Base(["a"], map["m" := ns[|ns| - 1]])]
  }

  function AnswerOf(x: real): seq<Row> {
    [map["k" := Text("a"), "m" := Float(x)]]
  }

  lemma {:induction false} NumbersOf(ns: seq<real>, c: string)
    ensures Numbers(BasesOf(ns), ["a"], c) == if c == "m" then ns else []
  {
    if ns != [] {
      var k := |ns| - 1;
      var front, b := BasesOf(ns[..k]), Base(["a"], map["m" := ns[k]]);
      NumbersOf(ns[..k], c);
      NumbersConcat(front, [b], ["a"], c);
      assert [b][..0] == [] && Numbers([b], ["a"], c) == if c == "m" then [ns[k]] else [];
      hide Numbers;
      assert ns == ns[..k] + [ns[k]];
    }
  }

  lemma {:induction false} BasesOfA(ns: seq<real>)
    ensures (forall b <- BasesOf(ns) :: b.group == ["a"]) && |BasesOf(ns)| == |ns|
  {
    if ns != [] {
      BasesOfA(ns[..|ns| - 1]);
    }
  }

  lemma OneGroupAnswers(show: Printer, agg: string -> Agg, ns: seq<real>)
    requires show(Text("a")) == "a" && ns != []
    ensures NodeAnswer(show, ["k"], agg, BasesOf(ns), AnswerOf(Value(agg("m"), ns))) && BarFree(BasesOf(ns), 1)
  {
    hide Value, Numbers, BasesOf;
    var data, r := BasesOf(ns), AnswerOf(Value(agg("m"), ns))[0];
    BasesOfA(ns);
    assert Texts(show, r, ["k"]) == ["a"];
    forall c: string | c !in ["k"] ensures Shows(r, c, Total(agg(c), data, ["a"], c)) {
      NumbersOf(ns, c);
    }
    assert HasGroup(data, ["a"]) by { assert data[0] in data; }
    hide Texts, Total, Share;
    assert r in AnswerOf(Value(agg("m"), ns));
  }

  lemma TwoNodesMerge(show: Printer, agg: string -> Agg, xs: seq<real>, ys: seq<real>,
                      groups: map<string, Sums>, counts: map<string, Counts>)
    requires show(Text("a")) == "a" && xs != [] && ys != []
    requires Grouped(show, AnswerOf(Value(agg("m"), xs)) + AnswerOf(Value(agg("m"), ys)), ["k"], groups, counts)
    ensures Merged(show, ["k"], agg, [BasesOf(xs), BasesOf(ys)], groups, counts,
                   [Some(AnswerOf(Value(agg("m"), xs))), Some(AnswerOf(Value(agg("m"), ys)))])
    ensures "a" in groups && Join(BAR, ["a"]) == "a"
  {
    hide NodeAnswer, BarFree, AnswerOf, BasesOf, Concat, GroupKey, Value, Join;
    var ax, ay := AnswerOf(Value(agg("m"), xs)), AnswerOf(Value(agg("m"), ys));
    OneGroupAnswers(show, agg, xs);
    OneGroupAnswers(show, agg, ys);
    TwoParts(ax, ay);
    DecodedAll([Some(ax), Some(ay)], [ax, ay]);
    hide Decoded;
    KeyOfAnswer(show, Value(agg("m"), xs));
    assert ax[0] in ax + ay;
  }

  lemma KeyOfAnswer(show: Printer, x: real)
    requires show(Text("a")) == "a"
    ensures |AnswerOf(x)| == 1 && GroupKey(show, AnswerOf(x)[0], ["k"]) == "a" && Join(BAR, ["a"]) == "a"
  {
    assert Texts(show, AnswerOf(x)[0], ["k"]) == ["a"];
  }

  lemma TwoParts<T>(a: seq<T>, b: seq<T>)
    ensures Concat([a, b]) == a + b
  {
    assert [a, b][..1] == [a];
    assert Concat([a]) == Concat([a][..0]) + a;
  }

  lemma TwoNodeParts(agg: Agg, xs: seq<real>, ys: seq<real>)
    requires xs != [] && ys != []
    ensures Parts([BasesOf(xs), BasesOf(ys)], ["a"], "m") == [xs, ys]
    ensures SumUp(Partials(agg, [xs, ys])) == Value(agg, xs) + Value(agg, ys)
    ensures Total(agg, BasesOf(xs) + BasesOf(ys), ["a"], "m") == Some(Value(agg, xs + ys))
  {
    NumbersOf(xs, "m");
    NumbersOf(ys, "m");
    NumbersConcat(BasesOf(xs), BasesOf(ys), ["a"], "m");
    hide BasesOf, Numbers, Value;
    assert [BasesOf(xs), BasesOf(ys)][..1] == [BasesOf(xs)];
    assert Parts([BasesOf(xs)], ["a"], "m") == [xs];
    TwoSum(Partials(agg, [xs, ys]));
  }

  /** The merged cell of two nodes that hold the numbers `xs` and `ys`, and what it should be. */
  lemma TwoNodeCell(show: Printer, agg: string -> Agg, aggs: seq<Agg>, xs: seq<real>, ys: seq<real>,
                    groups: map<string, Sums>, counts: map<string, Counts>)
    requires show(Text("a")) == "a" && xs != [] && ys != [] && aggs != []
    requires Grouped(show, AnswerOf(Value(agg("m"), xs)) + AnswerOf(Value(agg("m"), ys)), ["k"], groups, counts)
    ensures "a" in groups && groups.Keys == counts.Keys
    ensures Cell(OutRow(["k"], aggs, "a", groups["a"], counts["a"]), "m") ==
            Some((Value(agg("m"), xs) + Value(agg("m"), ys)) / Divisor(aggs, 2) as real)
    ensures Total(agg("m"), BasesOf(xs) + BasesOf(ys), ["a"], "m") == Some(Value(agg("m"), xs + ys))
  {
    hide *;
    TwoNodesMerge(show, agg, xs, ys, groups, counts);
    GroupedSameKeys(show, AnswerOf(Value(agg("m"), xs)) + AnswerOf(Value(agg("m"), ys)), ["k"], groups, counts);
    OneIsProper();
    TwoNodeParts(agg("m"), xs, ys);
    ReducedCell(show, ["k"], agg, aggs, [BasesOf(xs), BasesOf(ys)],
                [Some(AnswerOf(Value(agg("m"), xs))), Some(AnswerOf(Value(agg("m"), ys)))], groups, counts, ["a"], "m");
    RowOfA(aggs, groups, counts);
  }

  lemma OneIsProper()
    ensures Proper(["a"], ["k"])
  {
  }

  lemma RowOfA(aggs: seq<Agg>, groups: map<string, Sums>, counts: map<string, Counts>)
    requires Join(BAR, ["a"]) == "a" && "a" in groups && groups.Keys == counts.Keys
    ensures TupleRow(["k"], aggs, groups, counts, ["a"]) == OutRow(["k"], aggs, "a", groups["a"], counts["a"])
  {
  }

  /** The minima 1 and 2 of two nodes are merged to 3. */
  lemma MinimaAreSummed(show: Printer, groups: map<string, Sums>, counts: map<string, Counts>)
    requires show(Text("a")) == "a" && Grouped(show, AnswerOf(1.0) + AnswerOf(2.0), ["k"], groups, counts)
    ensures "a" in groups && Total(Min, BasesOf([1.0]) + BasesOf([2.0]), ["a"], "m") == Some(1.0)
    ensures groups.Keys == counts.Keys && Cell(OutRow(["k"], [Min], "a", groups["a"], counts["a"]), "m") == Some(3.0)
  {
    hide Grouped, OutRow, BasesOf, AnswerOf, Total, Best, SumUp;
    ValueOfOne(Min, 1.0);
    ValueOfOne(Min, 2.0);
    BestIs(Min, [1.0] + [2.0], 1.0);
    TwoNodeCell(show, c => Min, [Min], [1.0], [2.0], groups, counts);
  }

  /** The averages of the numbers 1 on one node and 2 and 3 on another, 1 and 2.5, are merged to 1.75 instead of 2. */
  lemma AveragesAreAveraged(show: Printer, groups: map<string, Sums>, counts: map<string, Counts>)
    requires show(Text("a")) == "a" && Grouped(show, AnswerOf(1.0) + AnswerOf(2.5), ["k"], groups, counts)
    ensures "a" in groups && Total(Avg, BasesOf([1.0]) + BasesOf([2.0, 3.0]), ["a"], "m") == Some(2.0)
    ensures groups.Keys == counts.Keys && Cell(OutRow(["k"], [Avg], "a", groups["a"], counts["a"]), "m") == Some(1.75)
  {
    hide Grouped, OutRow, BasesOf, AnswerOf, Total, SumUp;
    ValueOfOne(Avg, 1.0);
    TwoSum([2.0, 3.0]);
    SumUpNext([2.0, 3.0], 1.0);
    SumUpConcat([1.0], [2.0, 3.0]);
    OneSum(1.0);
    TwoNodeCell(show, c => Avg, [Avg], [1.0], [2.0, 3.0], groups, counts);
  }

  /** Next to an AVG the count of three rows, two on one node and one on another, is merged to 1.5. */
  lemma CountNextToAverageIsDivided(show: Printer, groups: map<string, Sums>, counts: map<string, Counts>)
    requires show(Text("a")) == "a" && Grouped(show, AnswerOf(2.0) + AnswerOf(1.0), ["k"], groups, counts)
    ensures "a" in groups && Total(Count, BasesOf([1.0, 1.0]) + BasesOf([1.0]), ["a"], "m") == Some(3.0)
    ensures groups.Keys == counts.Keys
    ensures Cell(OutRow(["k"], [Count, Avg], "a", groups["a"], counts["a"]), "m") == Some(1.5)
  {
    hide Grouped, OutRow, BasesOf, AnswerOf, Total, SumUp;
    TwoSum([1.0, 1.0]);
    OneSum(1.0);
    SumUpConcat([1.0, 1.0], [1.0]);
    TwoNodeCell(show, c => Count, [Count, Avg], [1.0, 1.0], [1.0], groups, counts);
  }

  lemma OneSum(x: real)
    ensures SumUp([x]) == x
  {
    SumUpNext([], x);
    assert [] + [x] == [x];
  }
}
