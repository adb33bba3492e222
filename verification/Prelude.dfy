/**
 * Definitions shared by the component models: options, string order, joining and splitting, and counting in maps of
 * lists.
 */
module Prelude {

  datatype Option<+T> = None | Some(value: T)

  /** Three-way lexicographic comparison, as `strings.Compare` computes it. */
  function Compare(a: string, b: string): (c: int)
    ensures -1 <= c <= 1
    ensures c == 0 <==> a == b
  {
    if a == [] then (if b == [] then 0 else -1)
    else if b == [] then 1
    else if a[0] < b[0] then -1
    else if b[0] < a[0] then 1
    else
      assert a == [a[0]] + a[1..] && b == [b[0]] + b[1..];
      Compare(a[1..], b[1..])
  }

  lemma {:induction false} CompareSwap(a: string, b: string)
    ensures Compare(a, b) == -Compare(b, a)
  {
    if a != [] && b != [] && a[0] == b[0] {
      CompareSwap(a[1..], b[1..]);
    }
  }

  lemma {:induction false} CompareTransitive(a: string, b: string, c: string)
    requires Compare(a, b) <= 0 && Compare(b, c) <= 0
    ensures Compare(a, c) <= 0
    ensures Compare(a, c) == 0 ==> Compare(a, b) == 0 && Compare(b, c) == 0
  {
    if a != [] && b != [] && c != [] && a[0] == b[0] == c[0] {
      CompareTransitive(a[1..], b[1..], c[1..]);
      assert a == [a[0]] + a[1..] && b == [b[0]] + b[1..] && c == [c[0]] + c[1..];
    }
  }

  /** The first character that differs decides; a proper prefix comes first. */
  ghost predicate Precedes(a: string, b: string) {
    a < b || exists k | 0 <= k < |a| && k < |b| :: a[..k] == b[..k] && a[k] < b[k]
  }

  lemma PrecedesNext(a: string, b: string)
    requires a != "" && b != "" && a[0] == b[0]
    ensures Precedes(a, b) <==> Precedes(a[1..], b[1..])
  {
    assert a == [a[0]] + a[1..] && b == [b[0]] + b[1..];
    assert a < b <==> a[1..] < b[1..];
    if k :| 0 <= k < |a| && k < |b| && a[..k] == b[..k] && a[k] < b[k] {
      assert a[1..][..k - 1] == a[..k][1..] && b[1..][..k - 1] == b[..k][1..];
      assert a[1..][k - 1] < b[1..][k - 1];
    }
    if k :| 0 <= k < |a| - 1 && k < |b| - 1 && a[1..][..k] == b[1..][..k] && a[1..][k] < b[1..][k] {
      assert a[..k + 1] == [a[0]] + a[1..][..k] && b[..k + 1] == [b[0]] + b[1..][..k];
      assert a[k + 1] < b[k + 1];
    }
  }

  /** The comparison says which text precedes the other. */
  lemma {:induction false} CompareMeans(a: string, b: string)
    ensures Compare(a, b) < 0 <==> Precedes(a, b)
    ensures Compare(a, b) > 0 <==> Precedes(b, a)
  {
    if a == "" || b == "" {
    } else if a[0] == b[0] {
      CompareMeans(a[1..], b[1..]);
      PrecedesNext(a, b);
      PrecedesNext(b, a);
      hide Precedes;
    } else {
      FirstDiffers(a, b);
      FirstDiffers(b, a);
      hide Precedes;
    }
  }

  lemma FirstDiffers(a: string, b: string)
    requires a != "" && b != "" && a[0] != b[0]
    ensures Precedes(a, b) <==> a[0] < b[0]
  {
    assert a[..0] == b[..0];
    assert forall k | 0 < k < |a| && k < |b| :: a[..k][0] != b[..k][0];
  }

  function Concat<T>(parts: seq<seq<T>>): seq<T> {
    if parts == [] then [] else Concat(parts[..|parts| - 1]) + parts[|parts| - 1]
  }

  /** Everything held in a map of lists, with multiplicity. */
  ghost function Flatten<K, T>(m: map<K, seq<T>>): multiset<T> {
    if m == map[] then multiset{}
    else
      var k :| k in m;
      multiset(m[k]) + Flatten(m - {k})
  }

  lemma {:induction false} FlattenPick<K, T>(m: map<K, seq<T>>, k: K)
    requires k in m
    ensures Flatten(m) == multiset(m[k]) + Flatten(m - {k})
  {
    var j :| j in m && Flatten(m) == multiset(m[j]) + Flatten(m - {j});
    if j != k {
      FlattenPick(m - {j}, k);
      FlattenPick(m - {k}, j);
      assert m - {j} - {k} == m - {k} - {j};
    }
  }

  lemma FlattenPut<K, T>(m: map<K, seq<T>>, k: K, v: seq<T>)
    ensures Flatten(m[k := v]) == multiset(v) + Flatten(m - {k})
  {
    FlattenPick(m[k := v], k);
    assert m[k := v] - {k} == m - {k};
  }

  /** How often the element occurs. */
  ghost function Times<T>(s: seq<T>, x: T): nat {
    multiset(s)[x]
  }

  lemma TimesConcat<T>(a: seq<T>, b: seq<T>, x: T)
    ensures Times(a + b, x) == Times(a, x) + Times(b, x)
  {
  }

  lemma TimesNone<T>(x: T)
    ensures Times([], x) == 0
  {
  }

  /** A record's number of occurrences in a whole map of sequences. */
  ghost function Held<K, T>(m: map<K, seq<T>>, x: T): nat {
    Flatten(m)[x]
  }

  lemma HeldPick<K, T>(m: map<K, seq<T>>, k: K, x: T)
    requires k in m
    ensures Held(m, x) == Times(m[k], x) + Held(m - {k}, x)
  {
    hide Flatten;
    FlattenPick(m, k);
  }

  lemma HeldPut<K, T>(m: map<K, seq<T>>, k: K, v: seq<T>, x: T)
    requires k !in m
    ensures Held(m[k := v], x) == Times(v, x) + Held(m, x)
  {
    hide Flatten;
    FlattenPut(m, k, v);
    assert m - {k} == m;
  }

  // Joining and splitting texts at a separator

  function Join(sep: char, parts: seq<string>): string {
    if parts == [] then "" else if |parts| == 1 then parts[0] else parts[0] + [sep] + Join(sep, parts[1..])
  }

  function Split(sep: char, s: string): (parts: seq<string>)
    ensures parts != []
  {
    if s == "" then [""] else Glued(sep, s[0], Split(sep, s[1..]))
  }

  /** One more character in front of a text already split. */
  function Glued(sep: char, x: char, parts: seq<string>): (more: seq<string>)
    requires parts != []
    ensures more != []
  {
    if x == sep then [""] + parts else [[x] + parts[0]] + parts[1..]
  }

  lemma GluedConcat(sep: char, x: char, a: seq<string>, b: seq<string>)
    requires a != []
    ensures Glued(sep, x, a + b) == Glued(sep, x, a) + b
  {
    assert (a + b)[1..] == a[1..] + b;
  }

  lemma {:induction false} SplitWhole(sep: char, p: string)
    requires sep !in p
    ensures Split(sep, p) == [p]
  {
    if p != "" {
      SplitWhole(sep, p[1..]);
      assert p == [p[0]] + p[1..];
    }
  }

  lemma {:induction false} SplitPartsAreWhole(sep: char, s: string)
    ensures forall p <- Split(sep, s) :: sep !in p
  {
    if s != "" {
      SplitPartsAreWhole(sep, s[1..]);
    }
  }

  lemma SplitNext(sep: char, x: char, s: string)
    ensures Split(sep, [x] + s) == Glued(sep, x, Split(sep, s))
  {
    assert ([x] + s)[1..] == s;
  }

  lemma {:induction false} SplitAt(sep: char, p: string, rest: string)
    ensures Split(sep, p + [sep] + rest) == Split(sep, p) + Split(sep, rest)
  {
    if p == "" {
      SplitNext(sep, sep, rest);
      assert p + [sep] + rest == [sep] + rest;
    } else {
      hide Split, Glued;
      SplitAt(sep, p[1..], rest);
      SplitNext(sep, p[0], p[1..] + [sep] + rest);
      SplitNext(sep, p[0], p[1..]);
      assert p + [sep] + rest == [p[0]] + (p[1..] + [sep] + rest) && p == [p[0]] + p[1..];
      GluedConcat(sep, p[0], Split(sep, p[1..]), Split(sep, rest));
    }
  }

  lemma {:induction false} SplitJoin(sep: char, parts: seq<string>)
    requires parts != [] && forall p <- parts :: sep !in p
    ensures Split(sep, Join(sep, parts)) == parts
  {
    SplitWhole(sep, parts[0]);
    if |parts| > 1 {
      SplitJoin(sep, parts[1..]);
      SplitAt(sep, parts[0], Join(sep, parts[1..]));
      assert parts == [parts[0]] + parts[1..];
    }
  }

  /** Splitting a joined list gives the list back in front exactly if no text contains the separator. */
  lemma SplitJoinIff(sep: char, parts: seq<string>)
    requires parts != []
    ensures parts <= Split(sep, Join(sep, parts)) <==> forall p <- parts :: sep !in p
    ensures Split(sep, Join(sep, parts)) == parts <==> forall p <- parts :: sep !in p
  {
    hide Split, Join;
    SplitPartsAreWhole(sep, Join(sep, parts));
    if forall p <- parts :: sep !in p {
      SplitJoin(sep, parts);
    }
    assert parts <= Split(sep, Join(sep, parts)) ==> forall p <- parts :: p in Split(sep, Join(sep, parts));
  }

  /** Two neighbours joined beforehand give the same text. */
  lemma {:induction false} JoinFuse(sep: char, a: seq<string>, x: string, y: string, b: seq<string>)
    ensures Join(sep, a + [x, y] + b) == Join(sep, a + [x + [sep] + y] + b)
  {
    if a == [] {
      assert (a + [x, y] + b)[1..] == [y] + b && ([y] + b)[1..] == b;
      assert (a + [x + [sep] + y] + b)[1..] == b;
    } else {
      JoinFuse(sep, a[1..], x, y, b);
      assert (a + [x, y] + b)[1..] == a[1..] + [x, y] + b;
      assert (a + [x + [sep] + y] + b)[1..] == a[1..] + [x + [sep] + y] + b;
    }
  }

  lemma JoinShift(sep: char, a: seq<string>, x: string, y: string, z: string, b: seq<string>)
    ensures Join(sep, a + [x + [sep] + y, z] + b) == Join(sep, a + [x, y + [sep] + z] + b)
  {
    hide Join;
    JoinFuse(sep, a, x + [sep] + y, z, b);
    JoinFuse(sep, a, x, y + [sep] + z, b);
    assert x + [sep] + y + [sep] + z == x + [sep] + (y + [sep] + z);
  }

  /** A text with the separator in it lets the list be cut elsewhere, into another list with the same joined text. */
  lemma JoinedElsewhere(sep: char, parts: seq<string>, i: nat) returns (other: seq<string>)
    requires |parts| >= 2 && i < |parts| && sep in parts[i]
    ensures |other| == |parts| && other != parts && Join(sep, other) == Join(sep, parts)
  {
    hide Join;
    var k :| 0 <= k < |parts[i]| && parts[i][k] == sep;
    var x, y := parts[i][..k], parts[i][k + 1..];
    assert parts[i] == x + [sep] + y;
    if i + 1 < |parts| {
      var a, z, b := parts[..i], parts[i + 1], parts[i + 2..];
      other := a + [x, y + [sep] + z] + b;
      assert parts == a + [x + [sep] + y, z] + b;
      JoinShift(sep, a, x, y, z, b);
      assert |other[i]| < |parts[i]|;
    } else {
      var a, w := parts[..i - 1], parts[i - 1];
      other := a + [w + [sep] + x, y] + [];
      assert parts == a + [w, x + [sep] + y] + [];
      JoinShift(sep, a, w, x, y, []);
      assert |other[i]| < |parts[i]|;
    }
  }

  /** A list of at least two texts is alone of its length with its joined text exactly if no text has the separator. */
  lemma JoinedAloneIff(sep: char, parts: seq<string>)
    requires |parts| >= 2
    ensures (forall other: seq<string> | |other| == |parts| && Join(sep, other) == Join(sep, parts) :: other == parts)
            <==> forall p <- parts :: sep !in p
  {
    hide Split, Join;
    if forall p <- parts :: sep !in p {
      forall other: seq<string> | |other| == |parts| && Join(sep, other) == Join(sep, parts) ensures other == parts {
        OnlyWholeLists(sep, parts, other);
      }
    } else {
      var p :| p in parts && sep in p;
      var i :| 0 <= i < |parts| && parts[i] == p;
      var other := JoinedElsewhere(sep, parts, i);
    }
  }

  function Pieces(sep: char, parts: seq<string>): seq<string> {
    if parts == [] then [] else Split(sep, parts[0]) + Pieces(sep, parts[1..])
  }

  lemma {:induction false} SplitJoinPieces(sep: char, parts: seq<string>)
    requires parts != []
    ensures Split(sep, Join(sep, parts)) == Pieces(sep, parts)
  {
    hide Split;
    if |parts| > 1 {
      SplitAt(sep, parts[0], Join(sep, parts[1..]));
      SplitJoinPieces(sep, parts[1..]);
    } else {
      assert Pieces(sep, parts[1..]) == [];
    }
  }

  lemma {:induction false} FewestPieces(sep: char, parts: seq<string>)
    ensures |Pieces(sep, parts)| >= |parts|
    ensures |Pieces(sep, parts)| == |parts| ==> forall p <- parts :: |Split(sep, p)| == 1
  {
    hide Split;
    if parts != [] {
      FewestPieces(sep, parts[1..]);
    }
  }

  lemma {:induction false} OnePiece(sep: char, s: string)
    ensures |Split(sep, s)| == 1 <==> sep !in s
  {
    if s != "" {
      OnePiece(sep, s[1..]);
      assert s == [s[0]] + s[1..];
    }
  }

  lemma OnlyWholeLists(sep: char, parts: seq<string>, other: seq<string>)
    requires parts != [] && |other| == |parts| && Join(sep, other) == Join(sep, parts)
    requires forall p <- parts :: sep !in p
    ensures other == parts
  {
    hide Split, Join, Pieces;
    SplitJoin(sep, parts);
    SplitJoinPieces(sep, other);
    FewestPieces(sep, other);
    forall p <- other ensures sep !in p {
      OnePiece(sep, p);
    }
    SplitJoin(sep, other);
  }
}
