/** File pruning: skipping files whose column ranges or date partition cannot meet the query. */
module Pruning {
  import opened Prelude

  datatype Value = Int64(i: int) | Float(f: real) | Text(s: string) | Time(t: int)

  /** How Go prints a value with %v. */
  type Printer = Value -> string

  type Row = map<string, Value>

  datatype Predicate = Predicate(column: string, op: string, value: Value)

  /** File metadata; `parts` are the components of the file's path. */
  datatype File = File(parts: seq<string>, minValues: map<string, Value>, maxValues: map<string, Value>, rowCount: int)

  // Comparing values

  predicate SameKind(a: Value, b: Value) {
    (a.Int64? && b.Int64?) || (a.Float? && b.Float?) || (a.Text? && b.Text?) || (a.Time? && b.Time?)
  }

  /** Values of different kinds are compared by their printed text. */
  function CompareValues(show: Printer, a: Value, b: Value): int {
    match (a, b)
    case (Int64(x), Int64(y)) => if x < y then -1 else if x > y then 1 else 0
    case (Float(x), Float(y)) => if x < y then -1 else if x > y then 1 else 0
    case (Text(x), Text(y)) => Compare(x, y)
    case (Time(x), Time(y)) => if x < y then -1 else if x > y then 1 else 0
    case _ => Compare(show(a), show(b))
  }

  lemma CompareValuesSwap(show: Printer, a: Value, b: Value)
    requires SameKind(a, b)
    ensures CompareValues(show, a, b) < 0 <==> CompareValues(show, b, a) > 0
    ensures CompareValues(show, a, b) == 0 <==> a == b
  {
    if a.Text? { CompareSwap(a.s, b.s); }
  }

  lemma AtMostTransitive(show: Printer, a: Value, b: Value, c: Value)
    requires SameKind(a, b) && SameKind(b, c) && CompareValues(show, a, b) <= 0 && CompareValues(show, b, c) <= 0
    ensures CompareValues(show, a, c) <= 0
    ensures CompareValues(show, a, b) < 0 || CompareValues(show, b, c) < 0 ==> CompareValues(show, a, c) < 0
  {
    if a.Text? {
      CompareSwap(a.s, b.s);
      CompareSwap(b.s, c.s);
      CompareSwap(a.s, c.s);
      if a.s != b.s && b.s != c.s { CompareTransitive(a.s, b.s, c.s); }
    }
  }

  // What comparisons mean to a query

  predicate Numeric(v: Value) {
    v.Int64? || v.Float?
  }

  function Num(v: Value): real
    requires Numeric(v)
  {
    if v.Int64? then v.i as real else v.f
  }

  /** Integers and floats compare as numbers; everything else as the pruner compares it. */
  function Order(show: Printer, a: Value, b: Value): int {
    if Numeric(a) && Numeric(b) then (if Num(a) < Num(b) then -1 else if Num(a) > Num(b) then 1 else 0)
    else CompareValues(show, a, b)
  }

  predicate Comparable(a: Value, b: Value) {
    SameKind(a, b) || (Numeric(a) && Numeric(b))
  }

  lemma OrderWithinKind(show: Printer, a: Value, b: Value)
    requires SameKind(a, b)
    ensures Order(show, a, b) == CompareValues(show, a, b)
  {
  }

  lemma OrderSwap(show: Printer, a: Value, b: Value)
    requires Comparable(a, b)
    ensures Order(show, a, b) < 0 <==> Order(show, b, a) > 0
    ensures Order(show, a, b) == 0 <==> Order(show, b, a) == 0
  {
    if SameKind(a, b) {
      CompareValuesSwap(show, a, b);
      CompareValuesSwap(show, b, a);
    }
  }

  lemma OrderTransitive(show: Printer, a: Value, b: Value, c: Value)
    requires Comparable(a, b) && Comparable(b, c) && Order(show, a, b) <= 0 && Order(show, b, c) <= 0
    ensures Order(show, a, c) <= 0
    ensures Order(show, a, b) < 0 || Order(show, b, c) < 0 ==> Order(show, a, c) < 0
  {
    if !(Numeric(a) && Numeric(b) && Numeric(c)) {
      AtMostTransitive(show, a, b, c);
    }
  }

  // Column ranges

  /** Whether a row's value meets the predicate; `other` gives the meaning of operators the pruner does not know. */
  predicate Holds(show: Printer, other: (string, Value, Value) -> bool, v: Value, op: string, w: Value) {
    var c := Order(show, v, w);
    if op == ">" then c > 0
    else if op == ">=" then c >= 0
    else if op == "<" then c < 0
    else if op == "<=" then c <= 0
    else if op == "=" then c == 0
    else other(op, v, w)
  }

  /** The operators mean what they say: of numbers as numbers, of instants as instants, of texts in dictionary order. */
  lemma HoldsMeans(show: Printer, other: (string, Value, Value) -> bool, v: Value, w: Value)
    requires Comparable(v, w)
    ensures var less, more := if v.Text? then Precedes(v.s, w.s) else if v.Time? then v.t < w.t else Num(v) < Num(w),
                              if v.Text? then Precedes(w.s, v.s) else if v.Time? then v.t > w.t else Num(v) > Num(w);
            && (Holds(show, other, v, ">", w) <==> more) && (Holds(show, other, v, ">=", w) <==> !less)
            && (Holds(show, other, v, "<", w) <==> less) && (Holds(show, other, v, "<=", w) <==> !more)
            && (Holds(show, other, v, "=", w) <==> !less && !more)
  {
    if v.Text? { CompareMeans(v.s, w.s); }
  }

  predicate Known(op: string) {
    op == ">" || op == ">=" || op == "<" || op == "<=" || op == "="
  }

  function RangeMatchesPredicate(show: Printer, lo: Value, hi: Value, p: Predicate): bool {
    if p.op == ">" then CompareValues(show, hi, p.value) > 0
    else if p.op == ">=" then CompareValues(show, hi, p.value) >= 0
    else if p.op == "<" then CompareValues(show, lo, p.value) < 0
    else if p.op == "<=" then CompareValues(show, lo, p.value) <= 0
    else if p.op == "=" then CompareValues(show, lo, p.value) <= 0 && CompareValues(show, hi, p.value) >= 0
    else true
  }

  /** The same test with the comparison the query means. */
  predicate RangeMeets(show: Printer, lo: Value, hi: Value, p: Predicate) {
    if p.op == ">" then Order(show, hi, p.value) > 0
    else if p.op == ">=" then Order(show, hi, p.value) >= 0
    else if p.op == "<" then Order(show, lo, p.value) < 0
    else if p.op == "<=" then Order(show, lo, p.value) <= 0
    else if p.op == "=" then Order(show, lo, p.value) <= 0 && Order(show, hi, p.value) >= 0
    else true
  }

  predicate Between(show: Printer, lo: Value, v: Value, hi: Value) {
    Comparable(lo, v) && Comparable(v, hi) && Order(show, lo, v) <= 0 && Order(show, v, hi) <= 0
  }

  /** Some value inside the range meets the predicate, exactly if the range does. */
  lemma RangeMeetsIff(show: Printer, other: (string, Value, Value) -> bool, lo: Value, hi: Value, p: Predicate)
    requires Between(show, lo, lo, hi) && Comparable(hi, p.value) && Comparable(lo, p.value) && Known(p.op)
    ensures RangeMeets(show, lo, hi, p) <==>
            exists v :: Between(show, lo, v, hi) && Comparable(v, p.value) && Holds(show, other, v, p.op, p.value)
  {
    forall v | Between(show, lo, v, hi) && Comparable(v, p.value) && Holds(show, other, v, p.op, p.value)
      ensures RangeMeets(show, lo, hi, p)
    {
      HeldValueMeets(show, other, lo, v, hi, p);
    }
    if RangeMeets(show, lo, hi, p) {
      var w := if p.op == "=" then p.value else if p.op == ">" || p.op == ">=" then hi else lo;
      OrderItself(show, lo);
      OrderItself(show, hi);
      OrderItself(show, p.value);
      OrderSwap(show, p.value, hi);
      OrderSwap(show, hi, p.value);
      hide Order;
      assert Between(show, lo, w, hi) && Comparable(w, p.value) && Holds(show, other, w, p.op, p.value);
    }
  }

  lemma OrderItself(show: Printer, v: Value)
    ensures Order(show, v, v) == 0 && Comparable(v, v)
  {
    CompareValuesSwap(show, v, v);
  }

  lemma HeldValueMeets(show: Printer, other: (string, Value, Value) -> bool, lo: Value, v: Value, hi: Value,
                       p: Predicate)
    requires Between(show, lo, v, hi) && Comparable(v, p.value) && Holds(show, other, v, p.op, p.value)
    ensures RangeMeets(show, lo, hi, p)
  {
    OrderSwap(show, v, p.value);
    OrderSwap(show, p.value, v);
    if Order(show, v, p.value) <= 0 { OrderTransitive(show, lo, v, p.value); }
    if Order(show, v, p.value) >= 0 {
      OrderTransitive(show, p.value, v, hi);
      ComparableChain(hi, v, p.value);
      OrderSwap(show, p.value, hi);
    }
    hide Order, Comparable;
  }

  lemma ComparableChain(a: Value, b: Value, c: Value)
    requires Comparable(b, a) && Comparable(b, c)
    ensures Comparable(c, a)
  {
  }

  /**
   * Bounds of another numeric kind than the predicate's value: the printed texts decide. This is when they deny a
   * range that has a matching number.
   */
  predicate Misread(show: Printer, lo: Value, hi: Value, p: Predicate)
    requires Numeric(lo) && Numeric(hi) && Numeric(p.value)
  {
    var low, high := Compare(show(lo), show(p.value)), Compare(show(hi), show(p.value));
    if p.op == ">" then Num(hi) > Num(p.value) && high <= 0
    else if p.op == ">=" then Num(hi) >= Num(p.value) && high < 0
    else if p.op == "<" then Num(lo) < Num(p.value) && low >= 0
    else if p.op == "<=" then Num(lo) <= Num(p.value) && low > 0
    else p.op == "=" && Num(lo) <= Num(p.value) <= Num(hi) && (low > 0 || high < 0)
  }

  predicate Mixed(lo: Value, hi: Value, w: Value) {
    Numeric(lo) && Numeric(hi) && Numeric(w) && SameKind(lo, hi) && !SameKind(lo, w)
  }

  /** Within one kind the pruner's test is what the query means, so a range passes iff some value inside it matches. */
  lemma RangeMatchesIff(show: Printer, other: (string, Value, Value) -> bool, lo: Value, hi: Value, p: Predicate)
    requires Between(show, lo, lo, hi) && SameKind(lo, p.value) && SameKind(hi, p.value) && Known(p.op)
    ensures RangeMatchesPredicate(show, lo, hi, p) <==>
            exists v :: Between(show, lo, v, hi) && Comparable(v, p.value) && Holds(show, other, v, p.op, p.value)
  {
    RangeMeetsIff(show, other, lo, hi, p);
    OrderWithinKind(show, lo, p.value);
    OrderWithinKind(show, hi, p.value);
    hide Order, CompareValues;
  }

  /** Between kinds a range with a matching number is skipped exactly if its printed bounds are misread. */
  lemma MixedRangeIsSkippedIff(show: Printer, other: (string, Value, Value) -> bool, lo: Value, hi: Value, p: Predicate)
    requires Mixed(lo, hi, p.value) && Num(lo) <= Num(hi) && Known(p.op)
    ensures (exists v :: Between(show, lo, v, hi) && Comparable(v, p.value) && Holds(show, other, v, p.op, p.value))
              && !RangeMatchesPredicate(show, lo, hi, p)
            <==> Misread(show, lo, hi, p)
  {
    RangeMeetsIff(show, other, lo, hi, p);
    hide Compare, Holds, Between;
  }

  /** A value that meets the predicate lets its file's range pass, unless the range is misread. */
  lemma HeldValuePasses(show: Printer, other: (string, Value, Value) -> bool, lo: Value, v: Value, hi: Value,
                        p: Predicate)
    requires Between(show, lo, v, hi) && Comparable(v, p.value) && Holds(show, other, v, p.op, p.value)
    requires (SameKind(lo, p.value) && SameKind(hi, p.value)) || (Mixed(lo, hi, p.value) && !Misread(show, lo, hi, p))
    ensures RangeMatchesPredicate(show, lo, hi, p)
  {
    HeldValueMeets(show, other, lo, v, hi, p);
    if SameKind(lo, p.value) {
      OrderWithinKind(show, lo, p.value);
      OrderWithinKind(show, hi, p.value);
      hide Order, CompareValues;
    } else {
      hide Compare, Holds, Between;
    }
  }

  // Pruning by predicates

  predicate Passes(show: Printer, f: File, p: Predicate) {
    if p.column in f.minValues && p.column in f.maxValues
    then RangeMatchesPredicate(show, f.minValues[p.column], f.maxValues[p.column], p)
    else true
  }

  predicate Matches(show: Printer, f: File, ps: seq<Predicate>) {
    forall p <- ps :: Passes(show, f, p)
  }

  method FileMatchesPredicates(show: Printer, f: File, ps: seq<Predicate>) returns (b: bool)
    ensures b == Matches(show, f, ps)
  {
    hide RangeMatchesPredicate;
    for i := 0 to |ps|
      invariant Matches(show, f, ps[..i])
    {
      var p := ps[i];
      if p.column in f.minValues && p.column in f.maxValues {
        if !RangeMatchesPredicate(show, f.minValues[p.column], f.maxValues[p.column], p) {
          assert !Passes(show, f, p) && p in ps;
          return false;
        }
      }
      assert ps[..i + 1] == ps[..i] + [p];
    }
    assert ps[..|ps|] == ps;
    return true;
  }

  function KeptByPredicates(show: Printer, files: seq<File>, ps: seq<Predicate>): seq<File> {
    if files == [] then []
    else
      var f := files[|files| - 1];
      KeptByPredicates(show, files[..|files| - 1], ps) + (if Matches(show, f, ps) then [f] else [])
  }

  lemma {:induction false} NoPredicatesKeepAll(show: Printer, files: seq<File>)
    ensures KeptByPredicates(show, files, []) == files
  {
    if files != [] {
      NoPredicatesKeepAll(show, files[..|files| - 1]);
    }
  }

  method PruneFiles(show: Printer, files: seq<File>, ps: seq<Predicate>) returns (r: seq<File>)
    ensures r == KeptByPredicates(show, files, ps)
  {
    if |ps| == 0 {
      NoPredicatesKeepAll(show, files);
      return files;
    }
    hide Matches;
    r := [];
    for i := 0 to |files|
      invariant r == KeptByPredicates(show, files[..i], ps)
    {
      assert files[..i + 1][..i] == files[..i];
      var keep := FileMatchesPredicates(show, files[i], ps);
      if keep {
        r := r + [files[i]];
      }
    }
    assert files[..|files|] == files;
  }

  // Pruning by date partition

  const SECOND := 1_000_000_000
  const DAY := 86_400 * SECOND

  /** Midnight of the instant's day, in universal time. */
  function StartOfDay(t: int): int {
    t - t % DAY
  }

  function EndOfDay(t: int): int {
    StartOfDay(t) + DAY - 1
  }

  /** A day of 86400 seconds, counted from the epoch, with every instant of it and no other. */
  lemma DayOf(t: int, u: int)
    ensures StartOfDay(t) % 86_400_000_000_000 == 0
    ensures StartOfDay(t) <= u <= EndOfDay(t) <==> u / 86_400_000_000_000 == t / 86_400_000_000_000
    ensures EndOfDay(t) - StartOfDay(t) == 86_400_000_000_000 - 1 && StartOfDay(t) <= t <= EndOfDay(t)
  {
    var n := 86_400_000_000_000;
    assert t == n * (t / n) + t % n && u == n * (u / n) + u % n;
    assert StartOfDay(t) == n * (t / n);
  }

  datatype TimeRange = TimeRange(min: Option<int>, max: Option<int>)

  /** The conditions found for one time column; an equality with a bare date is marked as such. */
  datatype Conditions = Conditions(ge: Option<int>, gt: Option<int>, le: Option<int>, lt: Option<int>, eq: Option<int>,
                                   dateOnly: bool)

  predicate Unbounded(r: TimeRange) {
    r.min.None? && r.max.None?
  }

  predicate Meets(t: int, c: Conditions) {
    && (c.ge.Some? ==> t >= c.ge.value)
    && (c.gt.Some? ==> t > c.gt.value)
    && (c.le.Some? ==> t <= c.le.value)
    && (c.lt.Some? ==> t < c.lt.value)
    && (c.eq.Some? ==> t == c.eq.value || (c.dateOnly && StartOfDay(t) == StartOfDay(c.eq.value)))
  }

  predicate InRange(t: int, r: TimeRange) {
    && (r.min.Some? ==> r.min.value <= t)
    && (r.max.Some? ==> t <= r.max.value)
  }

  predicate ShouldScanPartition(r: TimeRange, day: int) {
    && !(r.min.Some? && day < r.min.value && EndOfDay(day) < r.min.value)
    && !(r.max.Some? && day > r.max.value && StartOfDay(day) > r.max.value)
  }

  /**
   * A partition is scanned exactly if its day holds an instant not before the lower bound and one not after
   * the upper bound; for a range that is not empty, exactly if its day holds an instant inside the range.
   */
  lemma ScannedIff(r: TimeRange, day: int)
    ensures ShouldScanPartition(r, day) <==>
            (r.min.Some? ==> EndOfDay(day) >= r.min.value) && (r.max.Some? ==> StartOfDay(day) <= r.max.value)
    ensures (r.min.Some? && r.max.Some? ==> r.min.value <= r.max.value) ==>
              (ShouldScanPartition(r, day) <==> exists t :: StartOfDay(day) <= t <= EndOfDay(day) && InRange(t, r))
  {
    var lo, hi := StartOfDay(day), EndOfDay(day);
    assert lo <= day <= hi;
    if ShouldScanPartition(r, day) && (r.min.Some? && r.max.Some? ==> r.min.value <= r.max.value) {
      var t := if r.min.Some? && r.min.value > lo then r.min.value else lo;
      assert lo <= t <= hi && InRange(t, r);
    }
  }

  /** Each condition that is present overwrites the bound it gives, in this order. */
  function Narrowed(r: TimeRange, c: Conditions): TimeRange {
    var r := if c.ge.Some? then r.(min := c.ge) else r;
    var r := if c.gt.Some? then r.(min := Some(c.gt.value + 1)) else r;
    var r := if c.le.Some? then r.(max := c.le) else r;
    var r := if c.lt.Some? then r.(max := Some(c.lt.value - 1)) else r;
    if c.eq.Some? then TimeRange(c.eq, Some(if c.dateOnly then c.eq.value + DAY - SECOND else c.eq.value)) else r
  }

  /** With at most one lower and one upper bound, or a full instant alone, the range is exactly the conditions. */
  lemma RangeIsExact(c: Conditions, t: int)
    requires !(c.ge.Some? && c.gt.Some?) && !(c.le.Some? && c.lt.Some?)
    requires c.eq.Some? ==> !c.dateOnly && c.ge.None? && c.gt.None? && c.le.None? && c.lt.None?
    ensures InRange(t, Narrowed(TimeRange(None, None), c)) <==> Meets(t, c)
  {
  }

  /** For a bare date the range leaves out what comes after the beginning of the day's last second. */
  lemma DateRangeIsExactUpTo(c: Conditions, t: int)
    requires c.eq.Some? && c.dateOnly && c.eq.value == StartOfDay(c.eq.value)
    requires c.ge.None? && c.gt.None? && c.le.None? && c.lt.None?
    ensures InRange(t, Narrowed(TimeRange(None, None), c)) <==>
            Meets(t, c) && t - c.eq.value <= 86_399_000_000_000
  {
    DayOf(c.eq.value, t);
    DayOf(t, c.eq.value);
    hide StartOfDay;
  }

  /** The range of the first time column that has any bound. */
  function RangeOf(columns: seq<Conditions>): TimeRange {
    if columns == [] then TimeRange(None, None)
    else
      var r := Narrowed(TimeRange(None, None), columns[0]);
      if Unbounded(r) then RangeOf(columns[1..]) else r
  }

  function BoundedColumn(columns: seq<Conditions>): (k: nat)
    ensures k <= |columns|
    ensures RangeOf(columns) ==
            if k < |columns| then Narrowed(TimeRange(None, None), columns[k]) else TimeRange(None, None)
  {
    if columns == [] then 0
    else if Unbounded(Narrowed(TimeRange(None, None), columns[0])) then 1 + BoundedColumn(columns[1..])
    else 0
  }

  /** The first path component that is a date decides; `dayOf` reads one component. */
  function FirstDay(dayOf: string -> Option<int>, parts: seq<string>): Option<int> {
    if parts == [] then None
    else if dayOf(parts[0]).Some? then dayOf(parts[0])
    else FirstDay(dayOf, parts[1..])
  }

  predicate Scanned(r: TimeRange, dayOf: string -> Option<int>, f: File) {
    var day := FirstDay(dayOf, f.parts);
    day.Some? ==> ShouldScanPartition(r, day.value)
  }

  function KeptByTime(r: TimeRange, dayOf: string -> Option<int>, files: seq<File>): seq<File> {
    if files == [] then []
    else
      var f := files[|files| - 1];
      KeptByTime(r, dayOf, files[..|files| - 1]) + (if Scanned(r, dayOf, f) then [f] else [])
  }

  lemma {:induction false} UnboundedKeepsAll(r: TimeRange, dayOf: string -> Option<int>, files: seq<File>)
    requires Unbounded(r)
    ensures KeptByTime(r, dayOf, files) == files
  {
    hide FirstDay;
    if files != [] {
      UnboundedKeepsAll(r, dayOf, files[..|files| - 1]);
    }
  }

  class TimePartitionPruner {
    var range: TimeRange

    constructor ()
      ensures range == TimeRange(None, None)
    {
      range := TimeRange(None, None);
    }

    method ExtractTimeConditions(c: Conditions)
      modifies this
      ensures range == Narrowed(old(range), c)
    {
      if c.ge.Some? { range := range.(min := c.ge); }
      if c.gt.Some? { range := range.(min := Some(c.gt.value + 1)); }
      if c.le.Some? { range := range.(max := c.le); }
      if c.lt.Some? { range := range.(max := Some(c.lt.value - 1)); }
      if c.eq.Some? {
        range := TimeRange(c.eq, Some(if c.dateOnly then c.eq.value + DAY - SECOND else c.eq.value));
      }
    }

    method ExtractTimeRange(columns: seq<Conditions>)
      modifies this
      ensures range == RangeOf(columns)
    {
      hide Narrowed;
      range := TimeRange(None, None);
      assert columns[0..] == columns;
      for i := 0 to |columns|
        invariant range == TimeRange(None, None) && RangeOf(columns) == RangeOf(columns[i..])
      {
        assert columns[i..][1..] == columns[i + 1..];
        ExtractTimeConditions(columns[i]);
        if !Unbounded(range) {
          break;
        }
      }
    }

    method PartitionDay(dayOf: string -> Option<int>, parts: seq<string>) returns (day: Option<int>)
      ensures day == FirstDay(dayOf, parts)
    {
      assert parts[0..] == parts;
      for i := 0 to |parts|
        invariant FirstDay(dayOf, parts) == FirstDay(dayOf, parts[i..])
      {
        assert parts[i..][1..] == parts[i + 1..];
        if dayOf(parts[i]).Some? {
          return dayOf(parts[i]);
        }
      }
      return None;
    }

    method PruneFilesByTimePartition(dayOf: string -> Option<int>, files: seq<File>) returns (r: seq<File>)
      ensures r == KeptByTime(range, dayOf, files)
    {
      hide FirstDay, ShouldScanPartition;
      if Unbounded(range) {
        UnboundedKeepsAll(range, dayOf, files);
        return files;
      }
      r := [];
      for i := 0 to |files|
        invariant r == KeptByTime(range, dayOf, files[..i])
      {
        assert files[..i + 1][..i] == files[..i];
        var day := PartitionDay(dayOf, files[i].parts);
        if day.None? || ShouldScanPartition(range, day.value) {
          r := r + [files[i]];
        }
      }
      assert files[..|files|] == files;
    }
  }

  // The optimizer

  /** A parsed WHERE clause: a conjunction of column predicates and, per time column, its conditions. */
  datatype Query = Query(predicates: seq<Predicate>, columns: seq<Conditions>)

  function Chosen(show: Printer, dayOf: string -> Option<int>, q: Query, files: seq<File>): seq<File> {
    KeptByPredicates(show, KeptByTime(RangeOf(q.columns), dayOf, files), q.predicates)
  }

  method OptimizeQuery(show: Printer, dayOf: string -> Option<int>, q: Query, pruner: TimePartitionPruner,
                       files: seq<File>)
      returns (selected: seq<File>, filesSkipped: int, timePruned: int, predicatePruned: int)
    modifies pruner
    ensures selected == Chosen(show, dayOf, q, files)
    ensures filesSkipped == timePruned + predicatePruned == |files| - |selected|
    ensures timePruned == |files| - |KeptByTime(RangeOf(q.columns), dayOf, files)| >= 0 && predicatePruned >= 0
  {
    pruner.ExtractTimeRange(q.columns);
    hide RangeOf;
    var byTime := pruner.PruneFilesByTimePartition(dayOf, files);
    timePruned := |files| - |byTime|;
    selected := PruneFiles(show, byTime, q.predicates);
    predicatePruned := |byTime| - |selected|;
    filesSkipped := |files| - |selected|;
    KeptIsFewer(show, RangeOf(q.columns), dayOf, files, []);
    KeptIsFewer(show, RangeOf(q.columns), dayOf, byTime, q.predicates);
  }

  lemma {:induction false} KeptIsFewer(show: Printer, r: TimeRange, dayOf: string -> Option<int>, files: seq<File>,
                                       ps: seq<Predicate>)
    ensures |KeptByTime(r, dayOf, files)| <= |files| && |KeptByPredicates(show, files, ps)| <= |files|
  {
    hide Scanned, Matches;
    if files != [] {
      KeptIsFewer(show, r, dayOf, files[..|files| - 1], ps);
    }
  }

  // Which files are chosen

  lemma {:induction false} ChosenMembers(show: Printer, dayOf: string -> Option<int>, q: Query, files: seq<File>,
                                         f: File)
    ensures f in Chosen(show, dayOf, q, files) <==>
            f in files && Scanned(RangeOf(q.columns), dayOf, f) && Matches(show, f, q.predicates)
  {
    hide Scanned, Matches, RangeOf, Chosen;
    if files == [] {
      NothingChosen(show, dayOf, q);
    } else {
      ChosenMembers(show, dayOf, q, files[..|files| - 1], f);
      ChosenNext(show, dayOf, q, files);
      assert files == files[..|files| - 1] + [files[|files| - 1]];
    }
  }

  /** The day a file's path names is its first component that is a date. */
  lemma {:induction false} FirstDayMeans(dayOf: string -> Option<int>, parts: seq<string>) returns (k: nat)
    ensures k <= |parts| && forall i | 0 <= i < k :: dayOf(parts[i]) == None
    ensures if k < |parts| then dayOf(parts[k]).Some? && FirstDay(dayOf, parts) == dayOf(parts[k])
            else FirstDay(dayOf, parts) == None
  {
    k := 0;
    if parts != [] && dayOf(parts[0]).None? {
      var j := FirstDayMeans(dayOf, parts[1..]);
      k := j + 1;
      assert forall i | 0 < i < k :: parts[i] == parts[1..][i - 1];
    }
  }

  ghost predicate Unconditional(c: Conditions) {
    c.ge.None? && c.gt.None? && c.le.None? && c.lt.None? && c.eq.None?
  }

  /** The time column that bounds the query is the first with any condition. */
  lemma {:induction false} FirstConditionalColumn(columns: seq<Conditions>)
    ensures var k := BoundedColumn(columns);
            (k < |columns| ==> !Unconditional(columns[k])) && forall i | 0 <= i < k :: Unconditional(columns[i])
  {
    if columns != [] {
      FirstConditionalColumn(columns[1..]);
      var j := BoundedColumn(columns[1..]);
      forall i | 0 < i < j + 1 && Unbounded(Narrowed(TimeRange(None, None), columns[0]))
        ensures Unconditional(columns[i])
      {
        assert columns[i] == columns[1..][i - 1];
      }
    }
  }

  /** The predicate's column has bounds in this file, in order and of the kind of its value. */
  ghost predicate Ranged(show: Printer, f: File, p: Predicate) {
    p.column in f.minValues && p.column in f.maxValues ==>
      var lo, hi := f.minValues[p.column], f.maxValues[p.column];
      SameKind(lo, p.value) && SameKind(hi, p.value) && Between(show, lo, lo, hi) && Known(p.op)
  }

  /**
   * With such bounds, and a time range that is not empty, a file is chosen exactly if its path names no day or one
   * with an instant in the range, and for each predicate some value between the bounds would meet it.
   */
  lemma ChosenIff(show: Printer, other: (string, Value, Value) -> bool, dayOf: string -> Option<int>, q: Query,
                  files: seq<File>, f: File)
    requires forall p <- q.predicates :: Ranged(show, f, p)
    requires var r := RangeOf(q.columns); r.min.Some? && r.max.Some? ==> r.min.value <= r.max.value
    ensures f in Chosen(show, dayOf, q, files) <==>
            && f in files
            && (var day := FirstDay(dayOf, f.parts);
                day.Some? ==>
                  exists t :: StartOfDay(day.value) <= t <= EndOfDay(day.value) && InRange(t, RangeOf(q.columns)))
            && forall p <- q.predicates | p.column in f.minValues && p.column in f.maxValues ::
                 exists v :: Between(show, f.minValues[p.column], v, f.maxValues[p.column]) && Comparable(v, p.value)
                             && Holds(show, other, v, p.op, p.value)
  {
    hide Chosen, RangeOf, FirstDay, ShouldScanPartition, StartOfDay, EndOfDay, InRange, Between, Holds,
      RangeMatchesPredicate, Comparable, SameKind, Known;
    ChosenMembers(show, dayOf, q, files, f);
    var day := FirstDay(dayOf, f.parts);
    if day.Some? { ScannedIff(RangeOf(q.columns), day.value); }
    forall p | p in q.predicates && p.column in f.minValues && p.column in f.maxValues
      ensures Passes(show, f, p) <==>
              exists v :: Between(show, f.minValues[p.column], v, f.maxValues[p.column]) && Comparable(v, p.value)
                          && Holds(show, other, v, p.op, p.value)
    {
      RangeMatchesIff(show, other, f.minValues[p.column], f.maxValues[p.column], p);
    }
  }

  // Meaning: the rows a query selects

  /** `At(row, k)` is the row's value in the k-th time column. */
  type At = (Row, nat) -> int

  type Meaning = (string, Value, Value) -> bool

  predicate Selects(show: Printer, other: Meaning, at: At, q: Query, row: Row) {
    && (forall p <- q.predicates :: p.column in row && Holds(show, other, row[p.column], p.op, p.value))
    && (forall k | 0 <= k < |q.columns| :: Meets(at(row, k), q.columns[k]))
  }

  function SelectedRows(show: Printer, other: Meaning, at: At, q: Query, rows: seq<Row>): seq<Row> {
    if rows == [] then []
    else
      var row := rows[|rows| - 1];
      SelectedRows(show, other, at, q, rows[..|rows| - 1]) + (if Selects(show, other, at, q, row) then [row] else [])
  }

  /** A full scan of the files. */
  function Scan(show: Printer, other: Meaning, at: At, q: Query, contents: File -> seq<Row>,
                files: seq<File>): seq<Row> {
    if files == [] then []
    else
      Scan(show, other, at, q, contents, files[..|files| - 1])
      + SelectedRows(show, other, at, q, contents(files[|files| - 1]))
  }

  /** The file's minima and maxima bound its rows, in the kind of the predicates on them or without being misread. */
  ghost predicate Described(show: Printer, ps: seq<Predicate>, f: File, rows: seq<Row>) {
    forall p <- ps, row <- rows | p.column in f.minValues && p.column in f.maxValues && p.column in row ::
      Bounds(show, f.minValues[p.column], row[p.column], f.maxValues[p.column], p)
  }

  predicate Bounds(show: Printer, lo: Value, v: Value, hi: Value, p: Predicate) {
    && Comparable(v, p.value) && Between(show, lo, v, hi)
    && ((SameKind(lo, p.value) && SameKind(hi, p.value)) || (Mixed(lo, hi, p.value) && !Misread(show, lo, hi, p)))
  }

  /** The date in the file's path is the day of its rows, in the time column that bounds the query. */
  ghost predicate Partitioned(at: At, columns: seq<Conditions>, dayOf: string -> Option<int>, f: File, rows: seq<Row>) {
    FirstDay(dayOf, f.parts).Some? && BoundedColumn(columns) < |columns| ==>
      forall row <- rows :: FirstDay(dayOf, f.parts).value == StartOfDay(at(row, BoundedColumn(columns)))
  }

  /** The day of an instant that meets the conditions is scanned. */
  lemma MeetingDayIsScanned(c: Conditions, t: int)
    requires Meets(t, c)
    ensures ShouldScanPartition(Narrowed(TimeRange(None, None), c), StartOfDay(t))
  {
    assert StartOfDay(StartOfDay(t)) == StartOfDay(t);
  }

  lemma SelectedRowIsKept(show: Printer, other: Meaning, at: At, dayOf: string -> Option<int>, q: Query, f: File,
                          rows: seq<Row>, row: Row)
    requires Described(show, q.predicates, f, rows) && Partitioned(at, q.columns, dayOf, f, rows)
    requires row in rows && Selects(show, other, at, q, row)
    ensures Matches(show, f, q.predicates) && Scanned(RangeOf(q.columns), dayOf, f)
  {
    hide FirstDay, RangeOf, Narrowed, Meets, ShouldScanPartition, Holds, RangeMatchesPredicate, SameKind, Between,
         Misread;
    forall p | p in q.predicates ensures Passes(show, f, p) {
      if p.column in f.minValues && p.column in f.maxValues {
        HeldValuePasses(show, other, f.minValues[p.column], row[p.column], f.maxValues[p.column], p);
      }
    }
    var k := BoundedColumn(q.columns);
    if k < |q.columns| {
      MeetingDayIsScanned(q.columns[k], at(row, k));
    } else {
      NoBoundScans(FirstDay(dayOf, f.parts));
    }
  }

  lemma NoBoundScans(day: Option<int>)
    ensures day.Some? ==> ShouldScanPartition(TimeRange(None, None), day.value)
  {
  }

  lemma {:induction false} NoneSelected(show: Printer, other: Meaning, at: At, q: Query, rows: seq<Row>)
    requires forall row <- rows :: !Selects(show, other, at, q, row)
    ensures SelectedRows(show, other, at, q, rows) == []
  {
    hide Selects;
    if rows != [] {
      NoneSelected(show, other, at, q, rows[..|rows| - 1]);
    }
  }

  ghost predicate Sound(show: Printer, at: At, dayOf: string -> Option<int>, q: Query, contents: File -> seq<Row>,
                        files: seq<File>) {
    forall f <- files ::
      Described(show, q.predicates, f, contents(f)) && Partitioned(at, q.columns, dayOf, f, contents(f))
  }

  lemma SkippedFileSelectsNothing(show: Printer, other: Meaning, at: At, dayOf: string -> Option<int>, q: Query,
                                  f: File, rows: seq<Row>)
    requires Described(show, q.predicates, f, rows) && Partitioned(at, q.columns, dayOf, f, rows)
    requires !Matches(show, f, q.predicates) || !Scanned(RangeOf(q.columns), dayOf, f)
    ensures SelectedRows(show, other, at, q, rows) == []
  {
    hide Selects, Matches, Scanned, Described, Partitioned, RangeOf;
    forall row | row in rows ensures !Selects(show, other, at, q, row) {
      if Selects(show, other, at, q, row) {
        SelectedRowIsKept(show, other, at, dayOf, q, f, rows, row);
      }
    }
    NoneSelected(show, other, at, q, rows);
  }

  /**
   * Pruning preserves the answer: scanning the chosen files selects the same rows, in the same order, as scanning all.
   */
  lemma {:induction false} ChosenFilesGiveAllRows(show: Printer, other: Meaning, at: At, dayOf: string -> Option<int>,
                                                  q: Query, contents: File -> seq<Row>, files: seq<File>)
    requires Sound(show, at, dayOf, q, contents, files)
    ensures Scan(show, other, at, q, contents, Chosen(show, dayOf, q, files)) ==
            Scan(show, other, at, q, contents, files)
  {
    hide SelectedRows, Matches, Scanned, Described, Partitioned, RangeOf, Chosen;
    if files == [] {
      NothingChosen(show, dayOf, q);
    } else {
      var front, f := files[..|files| - 1], files[|files| - 1];
      ChosenFilesGiveAllRows(show, other, at, dayOf, q, contents, front);
      ChosenNext(show, dayOf, q, files);
      var rest := Chosen(show, dayOf, q, front);
      if Scanned(RangeOf(q.columns), dayOf, f) && Matches(show, f, q.predicates) {
        assert (rest + [f])[..|rest|] == rest;
      } else {
        assert f in files;
        SkippedFileSelectsNothing(show, other, at, dayOf, q, f, contents(f));
      }
    }
  }

  lemma NothingChosen(show: Printer, dayOf: string -> Option<int>, q: Query)
    ensures Chosen(show, dayOf, q, []) == []
  {
  }

  lemma ChosenNext(show: Printer, dayOf: string -> Option<int>, q: Query, files: seq<File>)
    requires files != []
    ensures var rest, f := Chosen(show, dayOf, q, files[..|files| - 1]), files[|files| - 1];
            Chosen(show, dayOf, q, files) ==
            if Scanned(RangeOf(q.columns), dayOf, f) && Matches(show, f, q.predicates) then rest + [f] else rest
  {
    hide Matches, Scanned, RangeOf;
    var kept, f := KeptByTime(RangeOf(q.columns), dayOf, files[..|files| - 1]), files[|files| - 1];
    assert (kept + [f])[..|kept|] == kept && kept + [] == kept;
  }

  /**
   * Between kinds the answer can change: a file of the row 100.0, with bounds 5.0 and 100.0, is skipped for values
   * of at least 9, although the query selects the row.
   */
  lemma MixedKindsPruneWrongly(show: Printer, other: Meaning, at: At, dayOf: string -> Option<int>, parts: seq<string>)
    requires show(Float(100.0)) == "100" && show(Int64(9)) == "9"
    ensures var row: Row := map["score" := Float(100.0)];
            var f := File(parts, map["score" := Float(5.0)], map["score" := Float(100.0)], 1);
            var q := Query([Predicate("score", ">=", Int64(9))], []);
            && Scan(show, other, at, q, _ => [row], [f]) == [row]
            && Scan(show, other, at, q, _ => [row], Chosen(show, dayOf, q, [f])) == []
  {
    hide *;
    var row: Row := map["score" := Float(100.0)];
    var f := File(parts, map["score" := Float(5.0)], map["score" := Float(100.0)], 1);
    var p := Predicate("score", ">=", Int64(9));
    HundredIsSelected(show, other, at, row, f, p);
    OneFileScan(show, other, at, Query([p], []), row, f);
    OneFileSkipped(show, dayOf, Query([p], []), f, p);
  }

  lemma HundredIsSelected(show: Printer, other: Meaning, at: At, row: Row, f: File, p: Predicate)
    requires show(Float(100.0)) == "100" && show(Int64(9)) == "9" && row == map["score" := Float(100.0)]
    requires f.minValues == map["score" := Float(5.0)] && f.maxValues == row && p == Predicate("score", ">=", Int64(9))
    ensures Selects(show, other, at, Query([p], []), row) && !Passes(show, f, p)
  {
    assert Compare("100", "9") == -1;
  }

  lemma OneFileScan(show: Printer, other: Meaning, at: At, q: Query, row: Row, f: File)
    requires Selects(show, other, at, q, row)
    ensures Scan(show, other, at, q, _ => [row], [f]) == [row] && Scan(show, other, at, q, _ => [row], []) == []
  {
    hide Selects;
    assert [f][..0] == [] && [row][..0] == [];
    assert SelectedRows(show, other, at, q, [row]) == [row];
  }

  lemma OneFileSkipped(show: Printer, dayOf: string -> Option<int>, q: Query, f: File, p: Predicate)
    requires p in q.predicates && !Passes(show, f, p)
    ensures Chosen(show, dayOf, q, [f]) == []
  {
    ChosenNext(show, dayOf, q, [f]);
    NothingChosen(show, dayOf, q);
    hide Chosen, Passes;
    assert [f][..0] == [];
  }

  // Local days

  /**
   * Rows are put into partitions by the local day, and partitions are read as days in universal time. With a
   * zone `offset`, asking for a row's exact instant scans the row's partition, for all instants, exactly if
   * the offset is zero.
   */
  lemma LocalDaysAreScannedIff(offset: int)
    requires -DAY < offset < DAY
    ensures (forall t :: ShouldScanPartition(TimeRange(Some(t), Some(t)), StartOfDay(t + offset))) <==> offset == 0
  {
    if offset == 0 {
      forall t ensures ShouldScanPartition(TimeRange(Some(t), Some(t)), StartOfDay(t + offset)) {
        assert StartOfDay(StartOfDay(t)) == StartOfDay(t);
      }
    } else {
      LocalDayIsSkipped(offset);
    }
  }

  /** East of Greenwich, the local midnight that falls on the epoch's universal day; west of it, the epoch. */
  function Skipped(offset: int): int {
    if offset > 0 then DAY - offset else 0
  }

  /** With any other offset a query for exactly this instant skips the partition of a row of this instant. */
  lemma LocalDayIsSkipped(offset: int)
    requires -DAY < offset < DAY && offset != 0
    ensures var t := Skipped(offset);
            !ShouldScanPartition(TimeRange(Some(t), Some(t)), StartOfDay(t + offset))
  {
    var t := Skipped(offset);
    var day := StartOfDay(t + offset);
    assert day == if offset > 0 then DAY else -DAY;
    assert StartOfDay(day) == day;
  }
}
