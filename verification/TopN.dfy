/** Merging the top rows of several nodes into the top rows of all. */
module TopN {
  import opened Prelude

  /** A decoded JSON value; `Other` stands for null, booleans and nested values. */
  datatype Json = Float(f: real) | Text(s: string) | Int64(i: int) | Other(text: string)

  type Row = map<string, Json>

  datatype OrderBy = OrderBy(column: string, descending: bool)

  /** Three-way comparison; values of different kinds, and values of no ordered kind, compare equal. */
  function CompareJson(a: Json, b: Json): int {
    match (a, b)
    case (Float(x), Float(y)) => if x < y then -1 else if x > y then 1 else 0
    case (Text(x), Text(y)) => Compare(x, y)
    case (Int64(x), Int64(y)) => if x < y then -1 else if x > y then 1 else 0
    case _ => 0
  }

  /** The sort comparator: a row without the column comes after every row that has it. */
  predicate Less(ob: OrderBy, a: Row, b: Row) {
    if ob.column !in a || ob.column !in b then ob.column in a && ob.column !in b
    else if ob.descending then CompareJson(a[ob.column], b[ob.column]) > 0
    else CompareJson(a[ob.column], b[ob.column]) < 0
  }

  // When the comparator is a strict weak order

  ghost predicate StrictWeak(ob: OrderBy, rows: seq<Row>) {
    && (forall a <- rows :: !Less(ob, a, a))
    && (forall a <- rows, b <- rows, c <- rows | Less(ob, a, b) && Less(ob, b, c) :: Less(ob, a, c))
    && (forall a <- rows, b <- rows, c <- rows | Tied(ob, a, b) && Tied(ob, b, c) :: Tied(ob, a, c))
  }

  predicate Tied(ob: OrderBy, a: Row, b: Row) {
    !Less(ob, a, b) && !Less(ob, b, a)
  }

  predicate SameKind(a: Json, b: Json) {
    (a.Float? && b.Float?) || (a.Text? && b.Text?) || (a.Int64? && b.Int64?) || (a.Other? && b.Other?)
  }

  ghost predicate SingleKind(ob: OrderBy, rows: seq<Row>) {
    forall a <- rows, b <- rows | ob.column in a && ob.column in b :: SameKind(a[ob.column], b[ob.column])
  }

  ghost predicate NothingToOrder(ob: OrderBy, rows: seq<Row>) {
    forall a <- rows, b <- rows | ob.column in a && ob.column in b :: !Less(ob, a, b)
  }

  lemma CompareJsonOrders(a: Json, b: Json, c: Json)
    ensures CompareJson(a, b) == -CompareJson(b, a)
    ensures SameKind(a, b) && SameKind(b, c) && CompareJson(a, b) <= 0 && CompareJson(b, c) <= 0 ==>
            CompareJson(a, c) <= 0 && (CompareJson(a, c) == 0 ==> CompareJson(a, b) == 0 && CompareJson(b, c) == 0)
    ensures CompareJson(a, b) != 0 ==> SameKind(a, b)
  {
    hide Compare;
    if a.Text? && b.Text? {
      CompareSwap(a.s, b.s);
      if c.Text? && Compare(a.s, b.s) <= 0 && Compare(b.s, c.s) <= 0 {
        CompareTransitive(a.s, b.s, c.s);
      }
    }
  }

  lemma SingleKindIsStrictWeak(ob: OrderBy, rows: seq<Row>)
    requires SingleKind(ob, rows)
    ensures StrictWeak(ob, rows)
  {
    hide CompareJson;
    forall a, b, c | a in rows && b in rows && c in rows
      ensures !Less(ob, a, a)
      ensures Less(ob, a, b) && Less(ob, b, c) ==> Less(ob, a, c)
      ensures Tied(ob, a, b) && Tied(ob, b, c) ==> Tied(ob, a, c)
    {
      if ob.column in a {
        CompareJsonOrders(a[ob.column], a[ob.column], a[ob.column]);
        if ob.column in b && ob.column in c {
          CompareJsonOrders(a[ob.column], b[ob.column], c[ob.column]);
          CompareJsonOrders(b[ob.column], c[ob.column], a[ob.column]);
          CompareJsonOrders(c[ob.column], b[ob.column], a[ob.column]);
          CompareJsonOrders(a[ob.column], c[ob.column], b[ob.column]);
        }
      }
    }
  }

  /**
   * On any rows, the comparator is a strict weak order, as sorting needs, exactly when the column
   * holds one kind of value or there is nothing to order. One null among numbers breaks it.
   */
  lemma StrictWeakIff(ob: OrderBy, rows: seq<Row>)
    ensures StrictWeak(ob, rows) <==> SingleKind(ob, rows) || NothingToOrder(ob, rows)
  {
    hide CompareJson;
    if SingleKind(ob, rows) {
      SingleKindIsStrictWeak(ob, rows);
    } else if !NothingToOrder(ob, rows) {
      var a, b :| a in rows && b in rows && ob.column in a && ob.column in b && Less(ob, a, b);
      CompareJsonOrders(a[ob.column], b[ob.column], a[ob.column]);
      var c := OddOneOut(ob, rows, a);
      CompareJsonOrders(a[ob.column], c[ob.column], a[ob.column]);
      CompareJsonOrders(b[ob.column], c[ob.column], a[ob.column]);
      assert Tied(ob, a, c) && Tied(ob, c, b) && !Tied(ob, a, b);
    }
  }

  /** For instance: the null ties with both numbers, yet the numbers do not tie. */
  lemma NullBreaksTheOrder()
    ensures !StrictWeak(OrderBy("x", false),
            [map["x" := Float(1.0)], map["x" := Other("null")], map["x" := Float(2.0)]])
  {
    var ob := OrderBy("x", false);
    var a: Row, b: Row, c: Row := map["x" := Float(1.0)], map["x" := Other("null")], map["x" := Float(2.0)];
    var rows := [a, b, c];
    assert a in rows && b in rows && c in rows;
    assert Tied(ob, a, b) && Tied(ob, b, c) && !Tied(ob, a, c);
  }

  lemma OddOneOut(ob: OrderBy, rows: seq<Row>, a: Row) returns (c: Row)
    requires !SingleKind(ob, rows) && a in rows && ob.column in a
    ensures c in rows && ob.column in c && !SameKind(a[ob.column], c[ob.column])
  {
    var x, y :| x in rows && y in rows && ob.column in x && ob.column in y && !SameKind(x[ob.column], y[ob.column]);
    c := if SameKind(a[ob.column], x[ob.column]) then y else x;
  }

  /** With one ordered kind of value, tied rows have the same order key. */
  lemma TiedHaveEqualKeys(ob: OrderBy, a: Row, b: Row)
    requires Tied(ob, a, b)
    requires ob.column in a && ob.column in b ==> SameKind(a[ob.column], b[ob.column]) && !a[ob.column].Other?
    ensures ob.column in a <==> ob.column in b
    ensures ob.column in a ==> a[ob.column] == b[ob.column]
  {
    if ob.column in a && ob.column in b {
      CompareJsonOrders(a[ob.column], b[ob.column], a[ob.column]);
    }
  }

  // Sorted lists and counting

  ghost predicate Sorted(ob: OrderBy, s: seq<Row>) {
    forall i, j | 0 <= i < j < |s| :: !Less(ob, s[j], s[i])
  }

  ghost predicate SortOf(ob: OrderBy, s: seq<Row>, rows: seq<Row>) {
    multiset(s) == multiset(rows) && Sorted(ob, s)
  }

  /** Not-greater is transitive on the rows of a strict weak order. */
  lemma NotLessTransitive(ob: OrderBy, rows: seq<Row>, a: Row, b: Row, c: Row)
    requires StrictWeak(ob, rows) && a in rows && b in rows && c in rows
    requires !Less(ob, b, a) && !Less(ob, c, b)
    ensures !Less(ob, c, a)
  {
    hide Less;
    assert Less(ob, a, b) || Tied(ob, a, b);
    assert Less(ob, b, c) || Tied(ob, b, c);
  }

  /** How many rows come no later than `g`. */
  function UpTo(ob: OrderBy, s: seq<Row>, g: Row): (n: nat)
    ensures n <= |s|
  {
    if s == [] then 0 else UpTo(ob, s[..|s| - 1], g) + (if Less(ob, g, s[|s| - 1]) then 0 else 1)
  }

  lemma {:induction false} UpToConcat(ob: OrderBy, a: seq<Row>, b: seq<Row>, g: Row)
    ensures UpTo(ob, a + b, g) == UpTo(ob, a, g) + UpTo(ob, b, g)
  {
    hide Less;
    if b == [] {
      assert a + b == a;
    } else {
      assert (a + b)[..|a + b| - 1] == a + b[..|b| - 1];
      UpToConcat(ob, a, b[..|b| - 1], g);
    }
  }

  lemma UpToRemove(ob: OrderBy, t: seq<Row>, i: nat, g: Row)
    requires i < |t|
    ensures UpTo(ob, t, g) == UpTo(ob, t[..i] + t[i + 1..], g) + (if Less(ob, g, t[i]) then 0 else 1)
  {
    hide Less;
    var x := t[i];
    assert t == t[..i] + [x] + t[i + 1..];
    UpToConcat(ob, t[..i] + [x], t[i + 1..], g);
    UpToConcat(ob, t[..i], [x], g);
    UpToConcat(ob, t[..i], t[i + 1..], g);
    assert UpTo(ob, [x], g) == UpTo(ob, [], g) + (if Less(ob, g, x) then 0 else 1);
  }

  lemma RestMatches(s: seq<Row>, t: seq<Row>, i: nat)
    requires multiset(s) == multiset(t) && s != [] && i < |t| && t[i] == s[|s| - 1]
    ensures multiset(s[..|s| - 1]) == multiset(t[..i] + t[i + 1..])
  {
    RemoveOne(t, i);
    RemoveOne(s, |s| - 1);
    assert s[..|s| - 1] + s[|s|..] == s[..|s| - 1];
    Cancel(multiset(s[..|s| - 1]), multiset(t[..i] + t[i + 1..]), multiset{t[i]});
  }

  lemma {:induction false} UpToPermutation(ob: OrderBy, s: seq<Row>, t: seq<Row>, g: Row)
    requires multiset(s) == multiset(t)
    ensures UpTo(ob, s, g) == UpTo(ob, t, g)
  {
    hide Less;
    SameLength(s, t);
    if s != [] {
      var x := s[|s| - 1];
      SameMembers(s, t);
      assert x in s && x in t;
      var i :| 0 <= i < |t| && t[i] == x;
      RestMatches(s, t, i);
      UpToPermutation(ob, s[..|s| - 1], t[..i] + t[i + 1..], g);
      UpToRemove(ob, t, i, g);
    }
  }

  lemma RemoveOne(t: seq<Row>, i: nat)
    requires i < |t|
    ensures multiset(t) == multiset(t[..i] + t[i + 1..]) + multiset{t[i]}
  {
    assert t == t[..i] + [t[i]] + t[i + 1..];
  }

  lemma Cancel<T>(a: multiset<T>, b: multiset<T>, c: multiset<T>)
    requires a + c == b + c
    ensures a == b
  {
    assert a == a + c - c && b == b + c - c;
  }

  lemma SameLength(s: seq<Row>, t: seq<Row>)
    requires multiset(s) == multiset(t)
    ensures |s| == |t|
  {
    assert |multiset(s)| == |s| && |multiset(t)| == |t|;
  }

  lemma {:induction false} UpToUniform(ob: OrderBy, s: seq<Row>, g: Row, none: bool)
    requires forall x <- s :: Less(ob, g, x) == none
    ensures UpTo(ob, s, g) == if none then 0 else |s|
  {
    hide Less;
    if s != [] {
      UpToUniform(ob, s[..|s| - 1], g, none);
    }
  }

  lemma LaterRows(ob: OrderBy, rows: seq<Row>, s: seq<Row>, g: Row, j: nat)
    requires StrictWeak(ob, rows) && g in rows && (forall x <- s :: x in rows)
    requires Sorted(ob, s) && j < |s| && Less(ob, g, s[j])
    ensures forall x <- s[j..] :: Less(ob, g, x)
  {
    hide Less, StrictWeak;
    forall i | j <= i < |s| ensures Less(ob, g, s[i]) {
      assert s[j] in s && s[i] in s;
      if !Less(ob, g, s[i]) && i > j { NotLessTransitive(ob, rows, s[j], s[i], g); }
    }
  }

  lemma EarlierRows(ob: OrderBy, rows: seq<Row>, s: seq<Row>, g: Row, j: nat)
    requires StrictWeak(ob, rows) && g in rows && (forall x <- s :: x in rows)
    requires Sorted(ob, s) && j < |s| && !Less(ob, g, s[j])
    ensures forall x <- s[..j + 1] :: !Less(ob, g, x)
  {
    hide Less, StrictWeak;
    forall i | 0 <= i <= j ensures !Less(ob, g, s[i]) {
      assert s[j] in s && s[i] in s;
      if i < j { NotLessTransitive(ob, rows, s[i], s[j], g); }
    }
  }

  /** In a sorted list, position `j` is no later than `g` exactly if more than `j` rows are. */
  lemma SortedPosition(ob: OrderBy, rows: seq<Row>, s: seq<Row>, g: Row, j: nat)
    requires StrictWeak(ob, rows) && g in rows && (forall x <- s :: x in rows)
    requires Sorted(ob, s) && j < |s|
    ensures UpTo(ob, s, g) > j <==> !Less(ob, g, s[j])
  {
    hide Less, StrictWeak, Sorted, UpTo;
    if Less(ob, g, s[j]) {
      LaterRows(ob, rows, s, g, j);
      UpToUniform(ob, s[j..], g, true);
      UpToConcat(ob, s[..j], s[j..], g);
      assert s == s[..j] + s[j..];
    } else {
      EarlierRows(ob, rows, s, g, j);
      UpToUniform(ob, s[..j + 1], g, false);
      UpToConcat(ob, s[..j + 1], s[j + 1..], g);
      assert s == s[..j + 1] + s[j + 1..];
    }
  }

  // Nodes

  function Min(a: int, b: int): int { if a < b then a else b }

  function Take(s: seq<Row>, n: nat): seq<Row> {
    if |s| > n then s[..n] else s
  }

  /** `answer` is a correct answer of a node holding `rows`: its own sorted top `n`, ties broken at will. */
  ghost predicate TopOf(ob: OrderBy, rows: seq<Row>, n: nat, answer: seq<Row>) {
    exists s :: SortOf(ob, s, rows) && answer == Take(s, n)
  }

  ghost predicate Answers(ob: OrderBy, data: seq<seq<Row>>, n: nat, answers: seq<seq<Row>>) {
    |data| == |answers| && forall i | 0 <= i < |data| :: TopOf(ob, data[i], n, answers[i])
  }

  lemma TopKeepsTheFirst(ob: OrderBy, rows: seq<Row>, data: seq<Row>, n: nat, answer: seq<Row>, g: Row)
    requires StrictWeak(ob, rows) && g in rows && (forall x <- data :: x in rows) && TopOf(ob, data, n, answer)
    ensures UpTo(ob, answer, g) == Min(n, UpTo(ob, data, g))
    ensures |answer| == Min(n, |data|) && (forall x <- answer :: x in data)
  {
    hide Less, StrictWeak, Sorted, UpTo;
    var s :| SortOf(ob, s, data) && answer == Take(s, n);
    SameLength(s, data);
    forall x | x in s ensures x in data {
      assert x in multiset(s);
    }
    UpToPermutation(ob, s, data, g);
    if |s| > n {
      SortedPrefix(ob, rows, s, n, g);
    }
  }

  lemma SortedPrefix(ob: OrderBy, rows: seq<Row>, s: seq<Row>, n: nat, g: Row)
    requires StrictWeak(ob, rows) && g in rows && (forall x <- s :: x in rows) && Sorted(ob, s) && n < |s|
    ensures UpTo(ob, s[..n], g) == Min(n, UpTo(ob, s, g))
  {
    hide Less, StrictWeak, Sorted, UpTo;
    assert s == s[..n] + s[n..];
    UpToConcat(ob, s[..n], s[n..], g);
    SortedPosition(ob, rows, s, g, n);
    if Less(ob, g, s[n]) {
      RestIsLater(ob, rows, s, g, n);
    } else if n > 0 {
      SortedSlice(ob, s, n);
      assert s[n] in s && s[n - 1] in s;
      assert !Less(ob, g, s[n - 1]) by { NotLater(ob, rows, s, g, n); }
      SortedPosition(ob, rows, s[..n], g, n - 1);
    }
  }

  lemma NotLater(ob: OrderBy, rows: seq<Row>, s: seq<Row>, g: Row, n: nat)
    requires StrictWeak(ob, rows) && g in rows && (forall x <- s :: x in rows)
    requires Sorted(ob, s) && 0 < n < |s| && !Less(ob, g, s[n])
    ensures !Less(ob, g, s[n - 1])
  {
    assert s[n] in s && s[n - 1] in s;
    NotLessTransitive(ob, rows, s[n - 1], s[n], g);
  }

  lemma SortedSlice(ob: OrderBy, s: seq<Row>, n: nat)
    requires Sorted(ob, s) && n <= |s|
    ensures Sorted(ob, s[..n]) && Sorted(ob, s[n..])
  {
    hide Less;
  }

  lemma RestIsLater(ob: OrderBy, rows: seq<Row>, s: seq<Row>, g: Row, n: nat)
    requires StrictWeak(ob, rows) && g in rows && (forall x <- s :: x in rows)
    requires Sorted(ob, s) && n < |s| && Less(ob, g, s[n])
    ensures UpTo(ob, s[n..], g) == 0
  {
    hide Less;
    forall x | x in s[n..] ensures Less(ob, g, x) {
      var i :| n <= i < |s| && s[i] == x;
      assert s[n] in s && s[i] in s;
      if !Less(ob, g, x) && i > n { NotLessTransitive(ob, rows, s[n], x, g); }
    }
    UpToUniform(ob, s[n..], g, true);
  }

  lemma {:induction false} MergeKeepsTheFirst(ob: OrderBy, rows: seq<Row>, data: seq<seq<Row>>, n: nat,
                                              answers: seq<seq<Row>>, g: Row)
    requires StrictWeak(ob, rows) && g in rows && (forall x <- Concat(data) :: x in rows)
             && Answers(ob, data, n, answers)
    ensures Min(n, UpTo(ob, Concat(data), g)) <= UpTo(ob, Concat(answers), g) <= UpTo(ob, Concat(data), g)
    ensures Min(n, |Concat(data)|) <= |Concat(answers)| <= |Concat(data)|
    ensures forall x <- Concat(answers) :: x in rows
  {
    hide Less, StrictWeak, UpTo, TopOf;
    if data != [] {
      var k := |data| - 1;
      MergeKeepsTheFirst(ob, rows, data[..k], n, answers[..k], g);
      TopKeepsTheFirst(ob, rows, data[k], n, answers[k], g);
      UpToConcat(ob, Concat(data[..k]), data[k], g);
      UpToConcat(ob, Concat(answers[..k]), answers[k], g);
    }
  }

  /**
   * Distributed top-N. However the rows are divided among nodes and however each node, the
   * coordinator's sort and a single global sort break ties: merging the nodes' sorted top `n`,
   * sorting and truncating gives, position by position, rows tied with the global top `n`.
   */
  lemma MergedTopIsGlobalTop(ob: OrderBy, data: seq<seq<Row>>, n: nat, answers: seq<seq<Row>>, merged: seq<Row>,
                             all: seq<Row>)
    requires StrictWeak(ob, Concat(data)) && Answers(ob, data, n, answers)
    requires SortOf(ob, merged, Concat(answers)) && SortOf(ob, all, Concat(data))
    ensures |Take(merged, n)| == |Take(all, n)|
    ensures forall j | 0 <= j < |Take(all, n)| :: Tied(ob, Take(merged, n)[j], Take(all, n)[j])
  {
    hide Less, StrictWeak, UpTo, Sorted, Answers, Concat, Tied;
    SameLength(merged, Concat(answers));
    SameLength(all, Concat(data));
    if all == [] {
      MergeOfNothing(ob, data, n, answers);
    } else {
      assert all[0] in multiset(all);
      MergeKeepsTheFirst(ob, Concat(data), data, n, answers, all[0]);
      SameMembers(all, Concat(data));
      SameMembers(merged, Concat(answers));
      forall j | 0 <= j < |Take(all, n)| ensures Tied(ob, Take(merged, n)[j], Take(all, n)[j]) {
        PositionsTie(ob, data, n, answers, merged, all, j);
      }
    }
  }

  lemma SameMembers(s: seq<Row>, t: seq<Row>)
    requires multiset(s) == multiset(t)
    ensures forall x :: x in s <==> x in t
  {
    assert forall x :: x in s <==> x in multiset(s);
    assert forall x :: x in t <==> x in multiset(t);
  }

  lemma PositionsTie(ob: OrderBy, data: seq<seq<Row>>, n: nat, answers: seq<seq<Row>>, merged: seq<Row>, all: seq<Row>,
                     j: nat)
    requires StrictWeak(ob, Concat(data)) && Answers(ob, data, n, answers)
    requires SortOf(ob, merged, Concat(answers)) && SortOf(ob, all, Concat(data))
    requires (forall x <- all :: x in Concat(data)) && (forall x <- merged :: x in Concat(data))
    requires j < n && j < |all| && j < |merged|
    ensures Tied(ob, merged[j], all[j])
  {
    hide Less, StrictWeak, UpTo, Sorted, Answers;
    var rows, m, g := Concat(data), merged[j], all[j];
    assert m in merged && g in all;
    UpToPermutation(ob, all, rows, m);
    UpToPermutation(ob, all, rows, g);
    UpToPermutation(ob, merged, Concat(answers), m);
    UpToPermutation(ob, merged, Concat(answers), g);
    MergeKeepsTheFirst(ob, rows, data, n, answers, m);
    MergeKeepsTheFirst(ob, rows, data, n, answers, g);
    SortedPosition(ob, rows, all, m, j);
    SortedPosition(ob, rows, merged, g, j);
    SortedPosition(ob, rows, all, g, j);
    SortedPosition(ob, rows, merged, m, j);
    assert !Less(ob, m, m) && !Less(ob, g, g) by { Irreflexive(ob, rows, m); Irreflexive(ob, rows, g); }
  }

  lemma Irreflexive(ob: OrderBy, rows: seq<Row>, a: Row)
    requires StrictWeak(ob, rows) && a in rows
    ensures !Less(ob, a, a)
  {
  }

  lemma {:induction false} MergeOfNothing(ob: OrderBy, data: seq<seq<Row>>, n: nat, answers: seq<seq<Row>>)
    requires Answers(ob, data, n, answers) && Concat(data) == []
    ensures Concat(answers) == []
  {
    if data != [] {
      var k := |data| - 1;
      MergeOfNothing(ob, data[..k], n, answers[..k]);
      var s :| SortOf(ob, s, data[k]) && answers[k] == Take(s, n);
      SameLength(s, data[k]);
    }
  }

  /** In particular the order keys agree when the column holds one ordered kind of value. */
  lemma MergedTopHasGlobalKeys(ob: OrderBy, data: seq<seq<Row>>, n: nat, answers: seq<seq<Row>>, merged: seq<Row>,
                               all: seq<Row>, j: nat)
    requires SingleKind(ob, Concat(data)) && (forall r: Row <- Concat(data) :: ob.column in r ==> !r[ob.column].Other?)
    requires Answers(ob, data, n, answers)
    requires SortOf(ob, merged, Concat(answers)) && SortOf(ob, all, Concat(data)) && j < |Take(all, n)|
    ensures |Take(merged, n)| == |Take(all, n)|
    ensures Key(ob, Take(merged, n)[j]) == Key(ob, Take(all, n)[j])
  {
    hide Less, Sorted, Concat, Answers;
    SingleKindIsStrictWeak(ob, Concat(data));
    MergedTopIsGlobalTop(ob, data, n, answers, merged, all);
    SameMembers(all, Concat(data));
    SameMembers(merged, Concat(answers));
    MergeKeepsTheFirst(ob, Concat(data), data, n, answers, all[0]);
    var m, g := Take(merged, n)[j], Take(all, n)[j];
    assert m in merged && g in all;
    hide StrictWeak;
    TiedHaveEqualKeys(ob, m, g);
  }

  function Key(ob: OrderBy, r: Row): Option<Json> {
    if ob.column in r then Some(r[ob.column]) else None
  }

  // The coordinator's reduce step

  /** Any comparison sort will do; this one inserts. The result is a permutation in any case. */
  method SortRows(ob: OrderBy, rows: seq<Row>) returns (s: seq<Row>)
    ensures multiset(s) == multiset(rows)
    ensures StrictWeak(ob, rows) ==> Sorted(ob, s)
  {
    hide Less, StrictWeak;
    s := [];
    var i := 0;
    while i < |rows|
      invariant 0 <= i <= |rows|
      invariant multiset(s) == multiset(rows[..i])
      invariant StrictWeak(ob, rows) ==> Sorted(ob, s)
    {
      assert rows[..i + 1] == rows[..i] + [rows[i]];
      SameMembers(s, rows[..i]);
      s := InsertRow(ob, s, rows[i], rows);
      i := i + 1;
    }
    assert rows[..i] == rows;
  }

  method InsertRow(ob: OrderBy, s: seq<Row>, x: Row, ghost rows: seq<Row>) returns (r: seq<Row>)
    requires x in rows && forall y <- s :: y in rows
    ensures multiset(r) == multiset(s) + multiset{x}
    ensures StrictWeak(ob, rows) && Sorted(ob, s) ==> Sorted(ob, r)
  {
    hide Less, StrictWeak;
    var i := |s|;
    while i > 0 && Less(ob, x, s[i - 1])
      invariant 0 <= i <= |s|
      invariant forall j | i <= j < |s| :: Less(ob, x, s[j])
    {
      i := i - 1;
    }
    r := s[..i] + [x] + s[i..];
    assert s == s[..i] + s[i..];
    if StrictWeak(ob, rows) && Sorted(ob, s) {
      InsertedSorted(ob, rows, s, x, i);
    }
  }

  lemma InsertedSorted(ob: OrderBy, rows: seq<Row>, s: seq<Row>, x: Row, i: nat)
    requires StrictWeak(ob, rows) && x in rows && (forall y <- s :: y in rows) && Sorted(ob, s) && i <= |s|
    requires (forall j | i <= j < |s| :: Less(ob, x, s[j])) && (i > 0 ==> !Less(ob, x, s[i - 1]))
    ensures Sorted(ob, s[..i] + [x] + s[i..])
  {
    hide Less;
    forall j | 0 <= j < |s| ensures j < i ==> !Less(ob, x, s[j]) {
      assert s[j] in s;
      if j < i - 1 {
        assert s[i - 1] in s;
        NotLessTransitive(ob, rows, s[j], s[i - 1], x);
      }
    }
    forall j | i <= j < |s| ensures !Less(ob, s[j], x) {
      assert s[j] in s && Less(ob, x, s[j]);
      assert !Less(ob, x, x);
    }
    hide StrictWeak;
  }

  // What the order of the output means

  /** How two order keys of one kind stand: numbers by size, texts by the first differing character. */
  ghost predicate KeyOrder(descending: bool, x: Json, y: Json) {
    match (x, y)
    case (Float(a), Float(b)) => if descending then a >= b else a <= b
    case (Int64(a), Int64(b)) => if descending then a >= b else a <= b
    case (Text(a), Text(b)) => if descending then !Precedes(a, b) else !Precedes(b, a)
    case _ => true
  }

  /** Rows stand in the order of their keys, and a row without one stands after every row that has it. */
  ghost predicate InOrder(ob: OrderBy, s: seq<Row>) {
    forall i, j | 0 <= i < j < |s| && ob.column in s[j] ::
      ob.column in s[i] && KeyOrder(ob.descending, s[i][ob.column], s[j][ob.column])
  }

  lemma NotLessMeans(ob: OrderBy, a: Row, b: Row)
    requires !Less(ob, b, a) && ob.column in b
    ensures ob.column in a && KeyOrder(ob.descending, a[ob.column], b[ob.column])
  {
    if ob.column in a && a[ob.column].Text? && b[ob.column].Text? {
      CompareMeans(b[ob.column].s, a[ob.column].s);
      hide Precedes, Compare;
    }
  }

  lemma SortedMeans(ob: OrderBy, s: seq<Row>)
    requires Sorted(ob, s)
    ensures InOrder(ob, s)
  {
    hide Less, KeyOrder;
    forall i, j | 0 <= i < j < |s| && ob.column in s[j]
      ensures ob.column in s[i] && KeyOrder(ob.descending, s[i][ob.column], s[j][ob.column])
    {
      NotLessMeans(ob, s[i], s[j]);
    }
  }

  function Decoded(results: seq<Option<seq<Row>>>): seq<seq<Row>> {
    if results == [] then []
    else
      var last := results[|results| - 1];
      Decoded(results[..|results| - 1]) + (if last.Some? then [last.value] else [])
  }

  /** If every node's result decodes, the decoded results are the nodes' answers. */
  lemma {:induction false} DecodedAll(results: seq<Option<seq<Row>>>, answers: seq<seq<Row>>)
    requires |results| == |answers| && forall k | 0 <= k < |results| :: results[k] == Some(answers[k])
    ensures Decoded(results) == answers
  {
    if results != [] {
      var n := |results| - 1;
      DecodedAll(results[..n], answers[..n]);
      assert answers == answers[..n] + [answers[n]];
    }
  }

  /** A result that does not decode changes nothing. */
  lemma {:induction false} DecodedSkips(a: seq<Option<seq<Row>>>, b: seq<Option<seq<Row>>>)
    ensures Decoded(a + [None] + b) == Decoded(a + b)
  {
    var all, some := a + [None] + b, a + b;
    if b == [] {
      assert all[..|a|] == a && some == a;
    } else {
      var n := |b| - 1;
      assert all[..|all| - 1] == a + [None] + b[..n] && some[..|some| - 1] == a + b[..n];
      DecodedSkips(a, b[..n]);
    }
  }

  /** A permutation of the rows, in order if the order is a proper one; without an order key the rows as they came. */
  ghost predicate Arranged(orderBy: seq<OrderBy>, rows: seq<Row>, sorted: seq<Row>) {
    && multiset(sorted) == multiset(rows)
    && (if orderBy == [] then sorted == rows else StrictWeak(orderBy[0], rows) ==> Sorted(orderBy[0], sorted))
  }

  /** Node results that do not decode are skipped; only the first order key is used; a positive limit cuts. */
  method Reduce(results: seq<Option<seq<Row>>>, orderBy: seq<OrderBy>, limit: int) returns (out: seq<Row>)
    ensures exists sorted ::
              && Arranged(orderBy, Concat(Decoded(results)), sorted)
              && out == if limit > 0 then Take(sorted, limit) else sorted
    ensures var n := |Concat(Decoded(results))|; |out| == if 0 < limit < n then limit else n
    ensures var rows := Concat(Decoded(results));
            exists rest: seq<Row> ::
              && multiset(out + rest) == multiset(rows)
              && (orderBy == [] ==> out + rest == rows)
              && (orderBy != [] && SingleKind(orderBy[0], rows) ==> InOrder(orderBy[0], out + rest))
  {
    hide Less, StrictWeak, Sorted, InOrder, SingleKind, Decoded, Concat;
    var rows := Gather(results);
    var sorted := rows;
    if orderBy != [] { sorted := SortRows(orderBy[0], rows); }
    assert Arranged(orderBy, rows, sorted);
    hide Arranged;
    out := if limit > 0 && |sorted| > limit then sorted[..limit] else sorted;
    ghost var rest := OutputMeans(orderBy, rows, sorted, limit, out);
    assert multiset(out + rest) == multiset(rows);
  }

  lemma OutputMeans(orderBy: seq<OrderBy>, rows: seq<Row>, sorted: seq<Row>, limit: int, out: seq<Row>)
    returns (rest: seq<Row>)
    requires Arranged(orderBy, rows, sorted) && out == if 0 < limit < |sorted| then sorted[..limit] else sorted
    ensures |out| == if 0 < limit < |rows| then limit else |rows|
    ensures multiset(out + rest) == multiset(rows) && (orderBy == [] ==> out + rest == rows)
    ensures orderBy != [] && SingleKind(orderBy[0], rows) ==> InOrder(orderBy[0], out + rest)
  {
    hide Less, StrictWeak, Sorted;
    SameLength(sorted, rows);
    rest := sorted[|out|..];
    assert sorted == out + rest;
    if orderBy != [] && SingleKind(orderBy[0], rows) {
      SingleKindIsStrictWeak(orderBy[0], rows);
      SortedMeans(orderBy[0], sorted);
      hide SingleKind, KeyOrder;
    }
  }

  /** The rows of all results that decode, in order. */
  method Gather(results: seq<Option<seq<Row>>>) returns (rows: seq<Row>)
    ensures rows == Concat(Decoded(results))
  {
    rows := [];
    var i := 0;
    while i < |results|
      invariant 0 <= i <= |results|
      invariant rows == Concat(Decoded(results[..i]))
    {
      assert results[..i + 1][..i] == results[..i];
      ghost var before := Decoded(results[..i]);
      assert before + [] == before;
      if results[i].Some? {
        assert (before + [results[i].value])[..|before|] == before;
        rows := rows + results[i].value;
      }
      i := i + 1;
    }
    assert results[..i] == results;
  }

  /**
   * The whole query, for nodes that each answer with their top `limit` rows: the keys of the output are those of
   * the first `limit` rows of one sort of all rows.
   */
  lemma ReducedKeysAreGlobal(ob: OrderBy, more: seq<OrderBy>, data: seq<seq<Row>>, limit: nat,
                             results: seq<Option<seq<Row>>>, sorted: seq<Row>, out: seq<Row>, all: seq<Row>)
    requires SingleKind(ob, Concat(data)) && (forall r: Row <- Concat(data) :: ob.column in r ==> !r[ob.column].Other?)
    requires limit > 0 && |results| == |data| && SortOf(ob, all, Concat(data))
    requires forall k | 0 <= k < |data| :: results[k].Some? && TopOf(ob, data[k], limit, results[k].value)
    requires Arranged([ob] + more, Concat(Decoded(results)), sorted) && out == Take(sorted, limit)
    ensures |out| == |Take(all, limit)|
    ensures forall j | 0 <= j < |out| :: Key(ob, out[j]) == Key(ob, Take(all, limit)[j])
  {
    var answers := seq(|data|, k requires 0 <= k < |data| => results[k].value);
    DecodedAll(results, answers);
    hide TopOf;
    assert Answers(ob, data, limit, answers);
    hide Less, Sorted, Concat, Answers, Decoded;
    SingleKindIsStrictWeak(ob, Concat(data));
    AnswersAreStrictWeak(ob, data, limit, answers);
    hide StrictWeak;
    MergedTopIsGlobalTop(ob, data, limit, answers, sorted, all);
    forall j | 0 <= j < |out| ensures Key(ob, out[j]) == Key(ob, Take(all, limit)[j]) {
      MergedTopHasGlobalKeys(ob, data, limit, answers, sorted, all, j);
    }
  }

  lemma AnswersAreStrictWeak(ob: OrderBy, data: seq<seq<Row>>, n: nat, answers: seq<seq<Row>>)
    requires StrictWeak(ob, Concat(data)) && Answers(ob, data, n, answers)
    ensures StrictWeak(ob, Concat(answers))
  {
    hide Less, Answers, Concat;
    if Concat(answers) != [] {
      if Concat(data) == [] {
        MergeOfNothing(ob, data, n, answers);
      } else {
        MergeKeepsTheFirst(ob, Concat(data), data, n, answers, Concat(data)[0]);
      }
    }
  }
}
