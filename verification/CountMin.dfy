/** The Count-Min sketch: a matrix of 32-bit counters, one hashed cell per row for every item. */
module CountMin {

  const WORD := 0x1_0000_0000

  /** Additions to a sketch, in order. */
  type Stream = seq<(string, nat)>

  datatype Shape = Shape(width: nat, depth: nat, seed: nat)

  function Hash(h: nat, item: string): (r: nat)
    requires h < WORD
    ensures r < WORD
    decreases |item|
  {
    if item == "" then h else Hash((h * 31 + item[0] as int) % WORD, item[1..])
  }

  function Power(n: nat): nat {
    if n == 0 then 1 else 31 * Power(n - 1)
  }

  /** The characters as the digits of a number in base 31. */
  function Polynomial(item: string): nat {
    if item == "" then 0 else item[0] as int * Power(|item| - 1) + Polynomial(item[1..])
  }

  lemma Modular(a: nat, b: nat, c: nat)
    ensures (a % WORD * b + c) % WORD == (a * b + c) % WORD
  {
    var q, r := a / WORD, a % WORD;
    assert a == WORD * q + r;
    assert a * b + c == WORD * (q * b) + (r * b + c) by {
      assert (WORD * q + r) * b == WORD * (q * b) + r * b;
    }
    Multiples(q * b, r * b + c);
  }

  lemma Multiples(k: nat, x: nat)
    ensures (WORD * k + x) % WORD == x % WORD
  {
  }

  /** The hash is the start value and the item read as one number in base 31, modulo two to the thirty-second. */
  lemma {:induction false} HashIsPolynomial(h: nat, item: string)
    requires h < WORD
    ensures Hash(h, item) == (h * Power(|item|) + Polynomial(item)) % WORD
    decreases |item|
  {
    if item == "" {
      assert h * Power(0) + 0 == h;
    } else {
      var next, c, p, rest := h * 31 + item[0] as int, item[0] as int, Power(|item| - 1), Polynomial(item[1..]);
      HashIsPolynomial(next % WORD, item[1..]);
      assert Hash(h, item) == (next % WORD * p + rest) % WORD;
      assert Power(|item|) == 31 * p && Polynomial(item) == c * p + rest;
      hide *;
      Modular(next, p, rest);
      Distribute(h, c, p);
    }
  }

  lemma Distribute(h: nat, c: nat, p: nat)
    ensures (h * 31 + c) * p == h * (31 * p) + c * p
  {
  }

  /** The column of an item in row `i`; row seeds count up from the sketch's seed. */
  function Column(p: Shape, i: nat, item: string): (j: nat)
    requires p.width > 0
    ensures j < p.width
  {
    Hash((p.seed + i) % WORD, item) % p.width
  }

  /** Each row hashes with a start value of its own. */
  lemma ColumnMeans(p: Shape, i: nat, item: string)
    requires p.width > 0
    ensures Column(p, i, item) == ((p.seed + i) % WORD * Power(|item|) + Polynomial(item)) % WORD % p.width
  {
    HashIsPolynomial((p.seed + i) % WORD, item);
  }

  // What the cells hold, as unbounded numbers

  /** The empty item is never counted. */
  function Amount(a: (string, nat)): nat {
    if a.0 == "" then 0 else a.1
  }

  function Cell(p: Shape, s: Stream, i: nat, j: nat): nat
    requires p.width > 0
  {
    if s == [] then 0
    else
      var a := s[|s| - 1];
      Cell(p, s[..|s| - 1], i, j) + (if Column(p, i, a.0) == j then Amount(a) else 0)
  }

  function TotalAmount(s: Stream): nat {
    if s == [] then 0 else TotalAmount(s[..|s| - 1]) + Amount(s[|s| - 1])
  }

  /** The true frequency of an item. */
  function Frequency(s: Stream, x: string): nat {
    if s == [] then 0 else Frequency(s[..|s| - 1], x) + (if s[|s| - 1].0 == x then Amount(s[|s| - 1]) else 0)
  }

  function RowSum(p: Shape, s: Stream, i: nat, n: nat): nat
    requires p.width > 0
  {
    if n == 0 then 0 else RowSum(p, s, i, n - 1) + Cell(p, s, i, n - 1)
  }

  lemma {:induction false} RowSumNext(p: Shape, s: Stream, i: nat, n: nat)
    requires p.width > 0 && s != []
    ensures RowSum(p, s, i, n) ==
            RowSum(p, s[..|s| - 1], i, n) + (if Column(p, i, s[|s| - 1].0) < n then Amount(s[|s| - 1]) else 0)
  {
    hide Column, Amount;
    if n > 0 {
      RowSumNext(p, s, i, n - 1);
    }
  }

  lemma {:induction false} RowSumNothing(p: Shape, i: nat, n: nat)
    requires p.width > 0
    ensures RowSum(p, [], i, n) == 0
  {
    if n > 0 {
      RowSumNothing(p, i, n - 1);
    }
  }

  /** Every row counts every addition once. */
  lemma {:induction false} RowSumIsTotal(p: Shape, s: Stream, i: nat)
    requires p.width > 0
    ensures RowSum(p, s, i, p.width) == TotalAmount(s)
  {
    if s == [] {
      RowSumNothing(p, i, p.width);
    } else {
      RowSumIsTotal(p, s[..|s| - 1], i);
      RowSumNext(p, s, i, p.width);
    }
  }

  /** An item's cell holds at least its frequency, and no cell holds more than the total. */
  lemma {:induction false} CellBounds(p: Shape, s: Stream, i: nat, j: nat, x: string)
    requires p.width > 0
    ensures Cell(p, s, i, j) <= TotalAmount(s)
    ensures j == Column(p, i, x) ==> Frequency(s, x) <= Cell(p, s, i, j)
  {
    hide Column, Amount;
    if s != [] {
      CellBounds(p, s[..|s| - 1], i, j, x);
    }
  }

  /** No other item of the stream shares the item's cell in row `i`. */
  ghost predicate Alone(p: Shape, s: Stream, i: nat, x: string)
    requires p.width > 0
  {
    forall a <- s | a.0 != x && a.0 != "" :: Column(p, i, a.0) != Column(p, i, x)
  }

  lemma {:induction false} AloneIsExact(p: Shape, s: Stream, i: nat, x: string)
    requires p.width > 0 && Alone(p, s, i, x)
    ensures Cell(p, s, i, Column(p, i, x)) == Frequency(s, x)
  {
    hide Column;
    if s != [] {
      assert s[|s| - 1] in s && forall a <- s[..|s| - 1] :: a in s;
      AloneIsExact(p, s[..|s| - 1], i, x);
    }
  }

  /** Cells add up over concatenated streams. */
  lemma {:induction false} CellConcat(p: Shape, a: Stream, b: Stream, i: nat, j: nat)
    requires p.width > 0
    ensures Cell(p, a + b, i, j) == Cell(p, a, i, j) + Cell(p, b, i, j)
  {
    hide Column, Amount;
    if b == [] {
      assert a + b == a;
    } else {
      assert (a + b)[..|a + b| - 1] == a + b[..|b| - 1];
      CellConcat(p, a, b[..|b| - 1], i, j);
    }
  }

  lemma CellNext(p: Shape, s: Stream, a: (string, nat), i: nat, j: nat)
    requires p.width > 0
    ensures Cell(p, s + [a], i, j) == Cell(p, s, i, j) + (if Column(p, i, a.0) == j then Amount(a) else 0)
  {
    assert (s + [a])[..|s|] == s;
  }

  lemma WrapAdd(a: nat, b: nat)
    ensures (a % WORD + b) % WORD == (a + b) % WORD
  {
  }

  lemma WrapBoth(a: nat, b: nat)
    ensures (a % WORD + b % WORD) % WORD == (a + b) % WORD
  {
  }

  lemma WrapLess(a: nat)
    ensures a % WORD <= a && (a % WORD == a <==> a < WORD)
  {
  }

  // The sketch object

  class CountMinSketch {
    const shape: Shape
    const matrix: array2<int>

    /** The matrix holds the sketch of the stream, each cell reduced to 32 bits. */
    ghost predicate Sketches(s: Stream)
      reads matrix
    {
      && shape.width > 0 && matrix.Length0 == shape.depth && matrix.Length1 == shape.width
      && forall i, j | 0 <= i < shape.depth && 0 <= j < shape.width :: matrix[i, j] == Cell(shape, s, i, j) % WORD
    }

    constructor (width: nat, depth: nat, seed: nat)
      requires width > 0
      ensures shape == Shape(width, depth, seed) && fresh(matrix) && Sketches([])
    {
      shape := Shape(width, depth, seed);
      matrix := new int[depth, width]((i, j) => 0);
    }

    ghost function MatrixRow(i: nat, n: nat): int
      requires i < matrix.Length0 && n <= matrix.Length1
      reads this, matrix
    {
      if n == 0 then 0 else MatrixRow(i, n - 1) + matrix[i, n - 1]
    }

    /** A row of the matrix sums to the total exactly if all its cells fit in 32 bits. */
    lemma RowSumsToTotalIff(s: Stream, i: nat)
      requires Sketches(s) && i < shape.depth
      ensures MatrixRow(i, shape.width) == TotalAmount(s)
              <==> forall j | 0 <= j < shape.width :: Cell(shape, s, i, j) < WORD
    {
      SameRowIff(s, i, shape.width);
      RowSumIsTotal(shape, s, i);
    }

    lemma {:induction false} SameRowIff(s: Stream, i: nat, n: nat)
      requires Sketches(s) && i < shape.depth && n <= shape.width
      ensures MatrixRow(i, n) <= RowSum(shape, s, i, n)
      ensures MatrixRow(i, n) == RowSum(shape, s, i, n) <==> forall j | 0 <= j < n :: Cell(shape, s, i, j) < WORD
    {
      hide Cell;
      if n > 0 {
        SameRowIff(s, i, n - 1);
        WrapLess(Cell(shape, s, i, n - 1));
        assert matrix[i, n - 1] == Cell(shape, s, i, n - 1) % WORD;
        assert (forall j | 0 <= j < n :: Cell(shape, s, i, j) < WORD) <==>
               (forall j | 0 <= j < n - 1 :: Cell(shape, s, i, j) < WORD) && Cell(shape, s, i, n - 1) < WORD;
      }
    }

    method Add(item: string, count: nat, ghost s: Stream)
      requires Sketches(s) && count < WORD
      modifies matrix
      ensures Sketches(s + [(item, count)])
    {
      hide Column, Cell;
      ghost var t := s + [(item, count)];
      forall i, j | 0 <= i < shape.depth && 0 <= j < shape.width
        ensures Cell(shape, t, i, j) ==
                Cell(shape, s, i, j) + (if Column(shape, i, item) == j then Amount((item, count)) else 0)
      {
        CellNext(shape, s, (item, count), i, j);
      }
      if item == "" || count == 0 {
        return;
      }
      for i := 0 to shape.depth
        invariant forall k, j | 0 <= k < i && 0 <= j < shape.width :: matrix[k, j] == Cell(shape, t, k, j) % WORD
        invariant forall k, j | i <= k < shape.depth && 0 <= j < shape.width ::
                    matrix[k, j] == Cell(shape, s, k, j) % WORD
      {
        var j := Column(shape, i, item);
        WrapAdd(Cell(shape, s, i, j), count);
        matrix[i, j] := (matrix[i, j] + count) % WORD;
      }
    }

    /**
     * The least of the item's cells: never more than the total, and never less than the item's frequency if its
     * cells fit in 32 bits, and then exact if in some row no other item shares its cell; always less if the frequency
     * does not fit itself.
     */
    method Count(item: string, ghost s: Stream) returns (n: nat)
      requires Sketches(s)
      ensures item == "" ==> n == 0
      ensures item != "" && shape.depth == 0 ==> n == WORD - 1
      ensures item != "" ==> forall i | 0 <= i < shape.depth :: n <= Cell(shape, s, i, Column(shape, i, item)) % WORD
      ensures item != "" && shape.depth > 0 ==>
                exists i | 0 <= i < shape.depth :: n == Cell(shape, s, i, Column(shape, i, item)) % WORD
      ensures item != "" && shape.depth > 0 ==> n <= TotalAmount(s)
      ensures item != "" && shape.depth > 0
              && (forall i | 0 <= i < shape.depth :: Cell(shape, s, i, Column(shape, i, item)) < WORD)
              ==> Frequency(s, item) <= n
      ensures item != "" && Frequency(s, item) >= WORD ==> n < Frequency(s, item)
      ensures item != "" && (exists i | 0 <= i < shape.depth :: Alone(shape, s, i, item))
              && (forall i | 0 <= i < shape.depth :: Cell(shape, s, i, Column(shape, i, item)) < WORD)
              ==> n == Frequency(s, item)
    {
      hide Column, Cell, Alone;
      if item == "" {
        return 0;
      }
      n := WORD - 1;
      for i := 0 to shape.depth
        invariant 0 <= n < WORD && (i == 0 ==> n == WORD - 1)
        invariant forall k | 0 <= k < i :: n <= Cell(shape, s, k, Column(shape, k, item)) % WORD
        invariant i > 0 ==> exists k | 0 <= k < i :: n == Cell(shape, s, k, Column(shape, k, item)) % WORD
      {
        var j := Column(shape, i, item);
        if matrix[i, j] < n {
          n := matrix[i, j];
        }
      }
      if shape.depth > 0 {
        ghost var i :| 0 <= i < shape.depth && n == Cell(shape, s, i, Column(shape, i, item)) % WORD;
        CellBounds(shape, s, i, Column(shape, i, item), item);
        WrapLess(Cell(shape, s, i, Column(shape, i, item)));
      }
      forall i | 0 <= i < shape.depth && Alone(shape, s, i, item)
        ensures n <= Frequency(s, item) % WORD
      {
        AloneIsExact(shape, s, i, item);
      }
    }

    /** Cells are added, whatever the seeds; with the same seed the result is the sketch of both streams. */
    method Merge(other: CountMinSketch?, ghost s: Stream, ghost t: Stream)
      requires other != null ==> other.matrix != matrix && other.Sketches(t)
      requires Sketches(s)
      modifies matrix
      ensures other != null && other.shape == shape ==> Sketches(s + t)
      ensures other == null || other.shape.width != shape.width || other.shape.depth != shape.depth ==>
                forall i, j | 0 <= i < shape.depth && 0 <= j < shape.width :: matrix[i, j] == old(matrix[i, j])
      ensures other != null && other.shape.width == shape.width && other.shape.depth == shape.depth ==>
                forall i, j | 0 <= i < shape.depth && 0 <= j < shape.width ::
                  matrix[i, j] == (old(matrix[i, j]) + other.matrix[i, j]) % WORD
    {
      hide Cell;
      if other == null || shape.width != other.shape.width || shape.depth != other.shape.depth {
        return;
      }
      for i := 0 to shape.depth
        invariant forall k, l | 0 <= k < i && 0 <= l < shape.width ::
                    matrix[k, l] == (old(matrix[k, l]) + other.matrix[k, l]) % WORD
        invariant forall k, l | i <= k < shape.depth && 0 <= l < shape.width :: matrix[k, l] == old(matrix[k, l])
      {
        for j := 0 to shape.width
          invariant forall l | 0 <= l < j :: matrix[i, l] == (old(matrix[i, l]) + other.matrix[i, l]) % WORD
          invariant forall l | j <= l < shape.width :: matrix[i, l] == old(matrix[i, l])
          invariant forall k, l | 0 <= k < i && 0 <= l < shape.width ::
                      matrix[k, l] == (old(matrix[k, l]) + other.matrix[k, l]) % WORD
          invariant forall k, l | i < k < shape.depth && 0 <= l < shape.width :: matrix[k, l] == old(matrix[k, l])
        {
          matrix[i, j] := (matrix[i, j] + other.matrix[i, j]) % WORD;
        }
      }
      if other.shape == shape {
        forall i, j | 0 <= i < shape.depth && 0 <= j < shape.width
          ensures matrix[i, j] == Cell(shape, s + t, i, j) % WORD
        {
          CellConcat(shape, s, t, i, j);
          WrapBoth(Cell(shape, s, i, j), Cell(shape, t, i, j));
        }
      }
    }
  }

  /** Beyond 32 bits the count falls below the frequency: two additions of an item wrap its cells to zero. */
  lemma OverflowUndercounts(p: Shape, i: nat, x: string)
    requires p.width > 0 && x != ""
    ensures var s := [(x, WORD - 1), (x, 1)];
            Cell(p, s, i, Column(p, i, x)) % WORD == 0 && Frequency(s, x) == WORD
  {
    var s: Stream := [(x, WORD - 1), (x, 1)];
    var one: Stream := [(x, WORD - 1)];
    assert s[..1] == one && one[..0] == [];
    CellNext(p, one, (x, 1), i, Column(p, i, x));
    CellNext(p, [], (x, WORD - 1), i, Column(p, i, x));
    assert one + [(x, 1)] == s && [] + [(x, WORD - 1)] == one;
    assert Frequency(one, x) == WORD - 1;
  }
}
