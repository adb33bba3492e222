/** From row fields to Parquet columns: name sanitising, collision suffixes and row serialisation. */
module FieldMapping {
  import opened Prelude
  import opened BufferKeys

  // Column names

  predicate Digit(c: char) { '0' <= c <= '9' }

  predicate SafeChar(c: char) { 'a' <= c <= 'z' || 'A' <= c <= 'Z' || Digit(c) || c == '_' }

  function LowerChar(c: char): char {
    if 'A' <= c <= 'Z' then c + 32 as char else c
  }

  function Sanitize(name: string): string {
    if name == "" then "_col"
    else
      var lower := seq(|name|, i requires 0 <= i < |name| => if SafeChar(name[i]) then LowerChar(name[i]) else '_');
      if Digit(lower[0]) then "_" + lower else lower
  }

  /** A sanitised name is a non-empty word of lower-case letters, digits and underscores, not led by a digit. */
  lemma SanitizeShape(name: string)
    ensures Sanitize(name) != "" && !Digit(Sanitize(name)[0])
    ensures forall c <- Sanitize(name) :: 'a' <= c <= 'z' || Digit(c) || c == '_'
    ensures Sanitize(Sanitize(name)) == Sanitize(name)
  {
  }

  /**
   * What sanitising keeps: every small letter, digit and underscore in its place, a capital letter as the small one,
   * and an underscore for every other character. A name led by a digit gets an underscore in front.
   */
  lemma SanitizeMeans(name: string)
    ensures Sanitize("") == "_col"
    ensures name != "" ==>
              var shift := if '0' <= name[0] <= '9' then 1 else 0;
              && |Sanitize(name)| == |name| + shift && (shift == 1 ==> Sanitize(name)[0] == '_')
              && forall i | 0 <= i < |name| ::
                   var c, r := name[i], Sanitize(name)[i + shift];
                   if 'a' <= c <= 'z' || '0' <= c <= '9' then r == c
                   else if 'A' <= c <= 'Z' then r as int - 'a' as int == c as int - 'A' as int
                   else r == '_'
  {
  }

  /** Reads a text of digits as a number. */
  function ReadNumber(d: string): nat
    requires forall c <- d :: Digit(c)
  {
    if d == "" then 0
    else
      assert Digit(d[|d| - 1]) by { assert d[|d| - 1] in d; }
      10 * ReadNumber(d[..|d| - 1]) + (d[|d| - 1] as int - '0' as int)
  }

  lemma {:induction false} DecimalMeans(n: nat)
    ensures ReadNumber(Decimal(n)) == n && (n > 0 ==> Decimal(n)[0] != '0')
  {
    var d := Decimal(n);
    if n >= 10 {
      DecimalMeans(n / 10);
      assert d[..|d| - 1] == Decimal(n / 10) && d[|d| - 1] == '0' + (n % 10) as char;
    } else {
      assert d[..0] == "" && d[0] == '0' + n as char;
    }
  }

  function Decimal(n: nat): (d: string)
    ensures d != "" && forall c <- d :: Digit(c)
  {
    if n < 10 then ['0' + n as char] else Decimal(n / 10) + ['0' + (n % 10) as char]
  }

  lemma {:induction false} DecimalInjective(m: nat, n: nat)
    requires Decimal(m) == Decimal(n)
    ensures m == n
  {
    var a, b := Decimal(m), Decimal(n);
    assert a[|a| - 1] == '0' + (m % 10) as char && b[|b| - 1] == '0' + (n % 10) as char;
    assert m >= 10 ==> a[..|a| - 1] == Decimal(m / 10);
    assert n >= 10 ==> b[..|b| - 1] == Decimal(n / 10);
    if m >= 10 && n >= 10 {
      DecimalInjective(m / 10, n / 10);
    }
  }

  function Suffixed(s: string, n: nat): string {
    s + "_" + Decimal(n)
  }

  /** A suffixed name determines both the name and the number: the number has no underscore. */
  lemma SuffixedInjective(s: string, m: nat, t: string, n: nat)
    requires Suffixed(s, m) == Suffixed(t, n)
    ensures s == t && m == n
  {
    var a, b := Decimal(m), Decimal(n);
    LastUnderscore(s, a, t, b);
    DecimalInjective(m, n);
  }

  lemma {:induction false} LastUnderscore(s: string, a: string, t: string, b: string)
    requires s + "_" + a == t + "_" + b && '_' !in a && '_' !in b
    ensures s == t && a == b
    decreases |a|
  {
    var x := s + "_" + a;
    assert x[|x| - 1] == (if a == [] then '_' else a[|a| - 1]);
    assert x[|x| - 1] == (if b == [] then '_' else b[|b| - 1]);
    assert x[..|x| - 1] == (if a == [] then s else s + "_" + a[..|a| - 1]);
    assert x[..|x| - 1] == (if b == [] then t else t + "_" + b[..|b| - 1]);
    if a != [] && b != [] {
      LastUnderscore(s, a[..|a| - 1], t, b[..|b| - 1]);
      assert a == a[..|a| - 1] + [a[|a| - 1]] && b == b[..|b| - 1] + [b[|b| - 1]];
    }
  }

  const SYSTEM_COLUMNS: set<string> := {"id", "timestamp", "table_name"}

  lemma SuffixedIsNotSystem(s: string, n: nat)
    ensures !IsSystem(Suffixed(s, n))
  {
    var x, d := Suffixed(s, n), Decimal(n);
    assert x[|x| - 1] == d[|d| - 1] && d[|d| - 1] in d;
  }

  // The mapping as a function of the set of field names

  predicate IsSystem(s: string) {
    s in SYSTEM_COLUMNS
  }

  function Reserved(s: string): nat {
    if IsSystem(s) then 1 else 0
  }

  /** The fields with a given sanitised name. */
  function Class(keys: set<string>, s: string): set<string> {
    set k | k in keys && Sanitize(k) == s
  }

  /** The fields that were given the same sanitised name before `k`. */
  function Earlier(keys: set<string>, k: string): set<string> {
    set j | j in keys && Sanitize(j) == Sanitize(k) && Compare(j, k) < 0
  }

  function Rank(keys: set<string>, k: string): nat {
    |Earlier(keys, k)| + Reserved(Sanitize(k))
  }

  function ColumnOf(keys: set<string>, k: string): string {
    if Rank(keys, k) == 0 then Sanitize(k) else Suffixed(Sanitize(k), Rank(keys, k) + 1)
  }

  /** The columns of some of the fields; the suffixes depend on all of them. */
  function Columned(keys: set<string>, some: set<string>): map<string, string> {
    map k | k in some :: ColumnOf(keys, k)
  }

  function Mapping(keys: set<string>): map<string, string> {
    Columned(keys, keys)
  }

  // Properties of the mapping

  /** No field is ever stored under a system column. */
  lemma NeverASystemColumn(keys: set<string>, k: string)
    requires k in keys
    ensures !IsSystem(ColumnOf(keys, k))
  {
    hide Sanitize, Suffixed, IsSystem;
    if Rank(keys, k) > 0 {
      SuffixedIsNotSystem(Sanitize(k), Rank(keys, k) + 1);
    }
  }

  /**
   * Fields that share a sanitised name are numbered in order: the least has the plain name, or number 2 if that is a
   * system column, and the next one always one number more.
   */
  lemma NumberedInOrder(keys: set<string>, j: string, k: string)
    requires j in keys && k in keys && Sanitize(j) == Sanitize(k)
    ensures (forall x <- keys | x != k && Sanitize(x) == Sanitize(k) :: Precedes(k, x)) ==>
              ColumnOf(keys, k) ==
              if Sanitize(k) in {"id", "timestamp", "table_name"} then Sanitize(k) + "_2" else Sanitize(k)
    ensures Precedes(j, k)
            && (forall x <- keys | Sanitize(x) == Sanitize(k) && Precedes(x, k) :: x == j || Precedes(x, j)) ==>
              Rank(keys, k) == Rank(keys, j) + 1
              && ColumnOf(keys, k) == Sanitize(k) + "_" + Decimal(Rank(keys, j) + 2)
  {
    hide Sanitize, Compare, Precedes;
    assert Decimal(2) == "2";
    forall x ensures Compare(x, k) < 0 <==> Precedes(x, k) { CompareMeans(x, k); }
    forall x ensures Compare(x, j) < 0 <==> Precedes(x, j) { CompareMeans(x, j); }
    if forall x <- keys | x != k && Sanitize(x) == Sanitize(k) :: Precedes(k, x) {
      forall x | x in Earlier(keys, k) ensures false { CompareSwap(x, k); CompareMeans(k, x); }
      assert Earlier(keys, k) == {};
    }
    if Precedes(j, k) && (forall x <- keys | Sanitize(x) == Sanitize(k) && Precedes(x, k) :: x == j || Precedes(x, j)) {
      EarlierGrows(keys, j, k);
      assert Earlier(keys, k) == Earlier(keys, j) + {j} by {
        forall x | x in Earlier(keys, j) ensures x in Earlier(keys, k) { CompareTransitive(x, j, k); }
      }
      assert j !in Earlier(keys, j);
    }
  }

  lemma EarlierGrows(keys: set<string>, j: string, k: string)
    requires j in keys && Sanitize(j) == Sanitize(k) && Compare(j, k) < 0
    ensures Rank(keys, j) < Rank(keys, k)
  {
    hide Sanitize;
    var a, b := Earlier(keys, j), Earlier(keys, k);
    forall x | x in a ensures x in b {
      CompareTransitive(x, j, k);
    }
    assert j in b && j !in a;
    SmallerSet(a, b);
  }

  lemma SmallerSet<T>(a: set<T>, b: set<T>)
    requires a < b
    ensures |a| < |b|
  {
    var x :| x in b && x !in a;
    assert |b| == |a| + |b - a| by { assert b == a + (b - a); }
    assert x in b - a;
  }

  /** Within one class the fields get different columns. */
  lemma ClassMatesDiffer(keys: set<string>, j: string, k: string)
    requires j in keys && k in keys && j != k && Sanitize(j) == Sanitize(k)
    ensures ColumnOf(keys, j) != ColumnOf(keys, k)
  {
    hide Sanitize, Suffixed, Rank;
    CompareSwap(j, k);
    if Compare(j, k) < 0 { EarlierGrows(keys, j, k); } else { EarlierGrows(keys, k, j); }
    var s, m, n := Sanitize(j), Rank(keys, j), Rank(keys, k);
    if ColumnOf(keys, j) == ColumnOf(keys, k) {
      if m > 0 && n > 0 {
        SuffixedInjective(s, m + 1, s, n + 1);
      } else {
        SuffixedIsLonger(s, m + 1);
        SuffixedIsLonger(s, n + 1);
      }
    }
  }

  lemma SuffixedIsLonger(s: string, n: nat)
    ensures |Suffixed(s, n)| > |s|
  {
  }

  /** No sanitised name is another one followed by a suffix that the mapping hands out. */
  ghost predicate CollisionFree(keys: set<string>) {
    forall k <- keys, n: nat | 2 <= n <= |Class(keys, Sanitize(k))| + Reserved(Sanitize(k)) ::
      Class(keys, Suffixed(Sanitize(k), n)) == {}
  }

  ghost predicate Injective(keys: set<string>) {
    forall j <- keys, k <- keys | ColumnOf(keys, j) == ColumnOf(keys, k) :: j == k
  }

  lemma RankBelowClass(keys: set<string>, k: string)
    requires k in keys
    ensures Rank(keys, k) + 1 <= |Class(keys, Sanitize(k))| + Reserved(Sanitize(k))
  {
    hide Sanitize;
    assert Earlier(keys, k) < Class(keys, Sanitize(k)) by {
      assert k in Class(keys, Sanitize(k)) && Compare(k, k) == 0;
    }
    SmallerSet(Earlier(keys, k), Class(keys, Sanitize(k)));
  }

  lemma CollisionFreeIsInjective(keys: set<string>, j: string, k: string)
    requires CollisionFree(keys) && j in keys && k in keys && ColumnOf(keys, j) == ColumnOf(keys, k)
    ensures j == k
  {
    var s, t, m, n := Sanitize(j), Sanitize(k), Rank(keys, j), Rank(keys, k);
    RankBelowClass(keys, j);
    RankBelowClass(keys, k);
    assert j in Class(keys, s) && k in Class(keys, t);
    hide Sanitize, Rank, Suffixed, Reserved, Class;
    if m > 0 && n > 0 {
      SuffixedInjective(s, m + 1, t, n + 1);
    }
    if j != k && s == t {
      ClassMatesDiffer(keys, j, k);
    }
  }

  // The other direction: every rank of a class is taken

  lemma {:induction false} Greatest(ks: set<string>) returns (top: string)
    requires ks != {}
    ensures top in ks && forall k <- ks :: k != top ==> Compare(k, top) < 0
  {
    var k :| k in ks;
    if ks == {k} {
      top := k;
    } else {
      var rest := Greatest(ks - {k});
      CompareSwap(k, rest);
      top := if Compare(k, rest) < 0 then rest else k;
      forall j | j in ks && j != top ensures Compare(j, top) < 0 {
        if j != k && top == k && j != rest { CompareTransitive(j, rest, k); }
      }
    }
  }

  lemma {:induction false} RankIsTaken(keys: set<string>, s: string, c: nat) returns (k: string)
    requires c < |Class(keys, s)|
    ensures k in keys && Sanitize(k) == s && |Earlier(keys, k)| == c
    decreases |keys|
  {
    hide Sanitize;
    var mates := Class(keys, s);
    var top := Greatest(mates);
    assert forall j <- mates :: Compare(top, j) >= 0 by {
      forall j | j in mates ensures Compare(top, j) >= 0 { CompareSwap(top, j); }
    }
    if c == |mates| - 1 {
      k := top;
      assert Earlier(keys, top) == mates - {top};
    } else {
      assert Class(keys - {top}, s) == mates - {top};
      k := RankIsTaken(keys - {top}, s, c);
      assert Earlier(keys, k) == Earlier(keys - {top}, k);
    }
  }

  /**
   * The mapping is one-to-one exactly when no sanitised name has the shape of a suffix that
   * another name hands out. Fields named `A`, `a` and `a_2`, for instance, collide.
   */
  lemma InjectiveIffCollisionFree(keys: set<string>)
    ensures Injective(keys) <==> CollisionFree(keys)
  {
    if CollisionFree(keys) {
      forall j, k | j in keys && k in keys && ColumnOf(keys, j) == ColumnOf(keys, k) ensures j == k {
        CollisionFreeIsInjective(keys, j, k);
      }
    } else {
      hide Sanitize, Suffixed, Compare, IsSystem;
      var k0, n: nat :| k0 in keys && 2 <= n <= |Class(keys, Sanitize(k0))| + Reserved(Sanitize(k0)) &&
                        Class(keys, Suffixed(Sanitize(k0), n)) != {};
      var s := Sanitize(k0);
      var t := Suffixed(s, n);
      SuffixedIsNotSystem(s, n);
      SuffixedIsLonger(s, n);
      var j := RankIsTaken(keys, s, n - 1 - Reserved(s));
      var k := RankIsTaken(keys, t, 0) by { NonEmptyClass(keys, t); }
      assert ColumnOf(keys, j) == t == ColumnOf(keys, k) && j != k;
    }
  }

  lemma NonEmptyClass(keys: set<string>, t: string)
    requires Class(keys, t) != {}
    ensures |Class(keys, t)| > 0
  {
  }

  lemma SuffixClash()
    ensures !CollisionFree({"A", "a", "a_2"}) && !Injective({"A", "a", "a_2"})
  {
    var keys := {"A", "a", "a_2"};
    assert Sanitize("A") == "a" && Sanitize("a") == "a" && Sanitize("a_2") == "a_2";
    assert "A" in Class(keys, "a") && "a" in Class(keys, "a");
    assert {"A", "a"} <= Class(keys, "a");
    assert |{"A", "a"}| == 2;
    NotLarger({"A", "a"}, Class(keys, "a"));
    assert Decimal(2) == "2" && Suffixed("a", 2) == "a_2";
    assert "a_2" in Class(keys, Suffixed(Sanitize("a"), 2));
    InjectiveIffCollisionFree(keys);
  }

  lemma NotLarger<T>(a: set<T>, b: set<T>)
    requires a <= b
    ensures |a| <= |b|
  {
    assert b == a + (b - a);
  }

  // The code: sort the names, then number them in order

  ghost predicate Sorted(ks: seq<string>) {
    forall i, j | 0 <= i < j < |ks| :: Compare(ks[i], ks[j]) < 0
  }

  function Elements(ks: seq<string>): set<string> {
    set k | k in ks
  }

  /** Inserts a new name at its place in a sorted list. */
  method Insert(ks: seq<string>, k: string) returns (r: seq<string>)
    requires Sorted(ks) && k !in ks
    ensures Sorted(r) && Elements(r) == Elements(ks) + {k}
  {
    hide Compare;
    var i := 0;
    while i < |ks| && Compare(ks[i], k) < 0
      invariant 0 <= i <= |ks|
      invariant forall j | 0 <= j < i :: Compare(ks[j], k) < 0
    {
      i := i + 1;
    }
    forall j | i <= j < |ks| ensures Compare(k, ks[j]) < 0 {
      CompareSwap(k, ks[i]);
      if j > i { CompareTransitive(k, ks[i], ks[j]); }
    }
    r := ks[..i] + [k] + ks[i..];
    assert Sorted(r);
    assert ks == ks[..i] + ks[i..];
  }

  /** Collects the keys of a map in any order and sorts them. */
  method SortedKeys(keys: set<string>) returns (ks: seq<string>)
    ensures Sorted(ks) && Elements(ks) == keys
  {
    ks := [];
    var todo := keys;
    while todo != {}
      invariant Sorted(ks) && Elements(ks) == keys - todo && todo <= keys
      decreases |todo|
    {
      var k :| k in todo;
      assert k !in Elements(ks);
      ks := Insert(ks, k);
      todo := todo - {k};
    }
  }

  /** How many of the names sanitise to `s`. */
  ghost function Same(ks: seq<string>, s: string): nat {
    if ks == [] then 0
    else Same(ks[..|ks| - 1], s) + (if Sanitize(ks[|ks| - 1]) == s then 1 else 0)
  }

  lemma SortedFront(ks: seq<string>)
    requires Sorted(ks) && ks != []
    ensures Sorted(ks[..|ks| - 1]) && ks[|ks| - 1] !in ks[..|ks| - 1]
  {
    var front, k := ks[..|ks| - 1], ks[|ks| - 1];
    forall x | x in front ensures x != k {
      var i :| 0 <= i < |front| && front[i] == x;
      assert Compare(ks[i], ks[|ks| - 1]) < 0;
    }
  }

  lemma ClassNext(front: seq<string>, k: string, s: string)
    requires k !in front
    ensures |Class(Elements(front + [k]), s)| == |Class(Elements(front), s)| + (if Sanitize(k) == s then 1 else 0)
  {
    hide Sanitize;
    var before, after := Class(Elements(front), s), Class(Elements(front + [k]), s);
    if Sanitize(k) == s {
      assert after == before + {k};
    } else {
      assert after == before;
    }
  }

  lemma {:induction false} SameIsClassSize(ks: seq<string>, s: string)
    requires Sorted(ks)
    ensures Same(ks, s) == |Class(Elements(ks), s)|
  {
    hide Sanitize, Sorted;
    if ks == [] {
      assert Class(Elements([]), s) == {};
    } else {
      var front, k := ks[..|ks| - 1], ks[|ks| - 1];
      SortedFront(ks);
      SameIsClassSize(front, s);
      hide Class, Elements;
      ClassNext(front, k, s);
      assert ks == front + [k];
    }
  }

  lemma EarlierInOrder(ks: seq<string>, i: nat)
    requires Sorted(ks) && i < |ks|
    ensures Same(ks[..i], Sanitize(ks[i])) == |Earlier(Elements(ks), ks[i])|
  {
    hide Sanitize, Compare;
    var k := ks[i];
    SameIsClassSize(ks[..i], Sanitize(k));
    forall j | 0 <= j < |ks| ensures j < i <==> Compare(ks[j], k) < 0 {
      CompareSwap(ks[j], k);
    }
    assert Class(Elements(ks[..i]), Sanitize(k)) == Earlier(Elements(ks), k) by {
      forall x | x in Earlier(Elements(ks), k) ensures x in ks[..i] {
        var j :| 0 <= j < |ks| && ks[j] == x;
        assert ks[..i][j] == x;
      }
    }
  }

  function Seen(seen: map<string, nat>, s: string): nat {
    if s in seen then seen[s] else 0
  }

  /**
   * The numbering loop. Its result is the set-based mapping, so neither the order in which the
   * map was ranged over nor the field values play a part.
   */
  method BuildGlobalFieldMapping(fields: map<string, Value>) returns (mapping: map<string, string>)
    ensures mapping == Mapping(fields.Keys)
  {
    hide Sanitize, Suffixed, Earlier, Compare, Same, Elements, Sorted, IsSystem, Columned;
    var ks := SortedKeys(fields.Keys);
    var seen: map<string, nat> := map[];
    mapping := map[];
    NothingSame();
    assert Columned(fields.Keys, {}) == map[] by { NothingColumned(fields.Keys); }
    var i := 0;
    while i < |ks|
      invariant 0 <= i <= |ks|
      invariant forall s :: Seen(seen, s) == Numbered(Same(ks[..i], s), s)
      invariant mapping == Columned(fields.Keys, Elements(ks[..i]))
    {
      var k := ks[i];
      var safe := Sanitize(k);
      ElementsNext(ks, i);
      EarlierInOrder(ks, i);
      ghost var before := seen;
      if IsSystem(safe) && Seen(seen, safe) == 0 { seen := seen[safe := 1]; }
      var count := Seen(seen, safe);
      assert count == Rank(fields.Keys, k);
      var name := if count == 0 then safe else Suffixed(safe, count + 1);
      seen := seen[safe := count + 1];
      forall s ensures Seen(seen, s) == Numbered(Same(ks[..i + 1], s), s) {
        SameNext(ks, i, s);
        assert Seen(before, s) == Numbered(Same(ks[..i], s), s);
      }
      ColumnedNext(fields.Keys, Elements(ks[..i]), k);
      mapping := mapping[k := name];
      i := i + 1;
    }
    assert ks[..i] == ks;
  }

  /** The value of the counter of `s` after `n` of its fields. */
  function Numbered(n: nat, s: string): nat {
    if n > 0 then n + Reserved(s) else 0
  }

  lemma ColumnedNext(keys: set<string>, some: set<string>, k: string)
    ensures Columned(keys, some + {k}) == Columned(keys, some)[k := ColumnOf(keys, k)]
  {
    hide ColumnOf;
  }

  lemma NothingColumned(keys: set<string>)
    ensures Columned(keys, {}) == map[]
  {
  }

  lemma NothingSame()
    ensures Elements([]) == {} && forall s :: Same([], s) == 0
  {
  }

  lemma ElementsNext(ks: seq<string>, i: nat)
    requires i < |ks|
    ensures Elements(ks[..i + 1]) == Elements(ks[..i]) + {ks[i]}
  {
    assert ks[..i + 1] == ks[..i] + [ks[i]];
  }

  lemma SameNext(ks: seq<string>, i: nat, s: string)
    requires i < |ks|
    ensures Same(ks[..i + 1], s) == Same(ks[..i], s) + (if Sanitize(ks[i]) == s then 1 else 0)
  {
    assert ks[..i + 1][..i] == ks[..i];
  }

  // Rows

  /** A serialised row: column name to value. */
  type Columns = map<string, Value>

  function SystemColumns(row: DataRow): Columns {
    map["id" := Text(row.id), "timestamp" := Number(row.timestamp as real), "table_name" := Text(row.table)]
  }

  /** What a serialised row may look like: where two fields share a column, either value may stand. */
  ghost predicate Serialised(row: DataRow, mapping: map<string, string>, m: Columns) {
    && (forall c <- SystemColumns(row) :: c in m && m[c] == SystemColumns(row)[c])
    && (forall k <- row.fields | k in mapping :: mapping[k] in m)
    && (forall c <- m | c !in SystemColumns(row) ::
          exists k <- row.fields :: k in mapping && mapping[k] == c && m[c] == row.fields[k])
  }

  /** Writes the fields in any order and the system columns last. */
  method MarshalRow(row: DataRow, mapping: map<string, string>) returns (m: Columns)
    ensures Serialised(row, mapping, m)
  {
    m := map[];
    var todo := row.fields.Keys;
    while todo != {}
      invariant todo <= row.fields.Keys
      invariant forall k <- row.fields.Keys - todo | k in mapping :: mapping[k] in m
      invariant forall c <- m :: exists k <- row.fields :: k in mapping && mapping[k] == c && m[c] == row.fields[k]
      decreases |todo|
    {
      var k :| k in todo;
      todo := todo - {k};
      if k in mapping { m := m[mapping[k] := row.fields[k]]; }
    }
    m := m + SystemColumns(row);
  }

  ghost predicate ReadsBack(row: DataRow, mapping: map<string, string>, m: Columns) {
    forall k <- row.fields :: k in mapping && mapping[k] in m && m[mapping[k]] == row.fields[k]
  }

  lemma InjectiveReadsBack(keys: set<string>, row: DataRow, m: Columns)
    requires Injective(keys) && row.fields.Keys <= keys && Serialised(row, Mapping(keys), m)
    ensures ReadsBack(row, Mapping(keys), m)
  {
    hide ColumnOf;
    forall k | k in row.fields ensures m[Mapping(keys)[k]] == row.fields[k] {
      NeverASystemColumn(keys, k);
      var c := Mapping(keys)[k];
      assert c in m && c !in SystemColumns(row);
      var j :| j in row.fields && j in Mapping(keys) && Mapping(keys)[j] == c && m[c] == row.fields[j];
      assert ColumnOf(keys, j) == ColumnOf(keys, k);
    }
  }

  /**
   * Every value of every row of a batch can be read back under its own schema column, whatever
   * the order of the map iterations, exactly when the batch's field names are collision free.
   */
  lemma BatchReadsBackIff(keys: set<string>)
    ensures (forall row: DataRow, m: Columns | row.fields.Keys <= keys && Serialised(row, Mapping(keys), m) ::
               ReadsBack(row, Mapping(keys), m))
            <==> CollisionFree(keys)
  {
    InjectiveIffCollisionFree(keys);
    hide ColumnOf, CollisionFree;
    if CollisionFree(keys) {
      forall row: DataRow, m: Columns | row.fields.Keys <= keys && Serialised(row, Mapping(keys), m)
        ensures ReadsBack(row, Mapping(keys), m)
      {
        InjectiveReadsBack(keys, row, m);
      }
    } else {
      var j, k :| j in keys && k in keys && ColumnOf(keys, j) == ColumnOf(keys, k) && j != k;
      var c := ColumnOf(keys, j);
      NeverASystemColumn(keys, j);
      var row := DataRow("", 0, "", map[j := Flag(true), k := Flag(false)]);
      var m := SystemColumns(row)[c := Flag(true)];
      assert Mapping(keys)[j] == c == Mapping(keys)[k];
      assert Serialised(row, Mapping(keys), m);
      assert !ReadsBack(row, Mapping(keys), m);
    }
  }
}
