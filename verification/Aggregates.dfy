/** SUM, MIN, MAX and AVG over numbers, and over the values of parts of them. */
module Aggregates {
  import opened Prelude

  datatype Agg = Count | Sum | Avg | Min | Max

  function SumUp(ns: seq<real>): real {
    if ns == [] then 0.0 else SumUp(ns[..|ns| - 1]) + ns[|ns| - 1]
  }

  predicate Beats(agg: Agg, x: real, y: real) {
    if agg == Max then x > y else x < y
  }

  /** The least number, for MAX the greatest. */
  function Best(agg: Agg, ns: seq<real>): real
    requires ns != []
  {
    var last := ns[|ns| - 1];
    if |ns| == 1 then last
    else
      var best := Best(agg, ns[..|ns| - 1]);
      if Beats(agg, last, best) then last else best
  }

  /** The value of an aggregate over numbers; COUNT adds up ones. */
  function Value(agg: Agg, ns: seq<real>): real
    requires ns != []
  {
    match agg
    case Min => Best(Min, ns)
    case Max => Best(Max, ns)
    case Avg => SumUp(ns) / |ns| as real
    case _ => SumUp(ns)
  }

  predicate Full(parts: seq<seq<real>>) {
    forall i | 0 <= i < |parts| :: parts[i] != []
  }

  /** One value per part. */
  function Partials(agg: Agg, parts: seq<seq<real>>): (vs: seq<real>)
    requires Full(parts)
    ensures |vs| == |parts| && forall i | 0 <= i < |vs| :: vs[i] == Value(agg, parts[i])
  {
    if parts == [] then []
    else Partials(agg, parts[..|parts| - 1]) + [Value(agg, parts[|parts| - 1])]
  }

  lemma {:induction false} SumUpConcat(a: seq<real>, b: seq<real>)
    ensures SumUp(a + b) == SumUp(a) + SumUp(b)
  {
    if b == [] {
      assert a + b == a;
    } else {
      assert (a + b)[..|a + b| - 1] == a + b[..|b| - 1];
      SumUpConcat(a, b[..|b| - 1]);
    }
  }

  lemma ValueOfOne(agg: Agg, x: real)
    ensures Value(agg, [x]) == x
  {
    SumUpNext([], x);
    assert [] + [x] == [x];
  }

  lemma {:induction false} BestOf(agg: Agg, ns: seq<real>)
    requires ns != []
    ensures Best(agg, ns) in ns && forall x <- ns :: !Beats(agg, x, Best(agg, ns))
  {
    if |ns| > 1 {
      BestOf(agg, ns[..|ns| - 1]);
      assert ns == ns[..|ns| - 1] + [ns[|ns| - 1]];
    }
  }

  /** MIN is the least of the numbers and MAX the greatest, one of them each; AVG shares out the sum evenly. */
  lemma ValueMeans(ns: seq<real>, x: real)
    requires x in ns
    ensures Value(Min, ns) <= x <= Value(Max, ns) && Value(Min, ns) in ns && Value(Max, ns) in ns
    ensures Value(Avg, ns) * |ns| as real == Value(Sum, ns) == SumUp(ns)
  {
    BestOf(Min, ns);
    BestOf(Max, ns);
    assert SumUp(ns) / |ns| as real * |ns| as real == SumUp(ns);
  }

  /** Only the best number is unbeaten. */
  lemma BestIs(agg: Agg, ns: seq<real>, x: real)
    requires x in ns && forall y <- ns :: !Beats(agg, y, x)
    ensures Best(agg, ns) == x
  {
    BestOf(agg, ns);
  }

  /** Sums of sums are sums. */
  lemma {:induction false} SumOfParts(agg: Agg, parts: seq<seq<real>>)
    requires (agg == Sum || agg == Count) && Full(parts)
    ensures SumUp(Partials(agg, parts)) == SumUp(Concat(parts))
  {
    if parts != [] {
      var k := |parts| - 1;
      SumOfParts(agg, parts[..k]);
      SumUpConcat(Concat(parts[..k]), parts[k]);
      hide SumUp;
      SumUpNext(Partials(agg, parts[..k]), Value(agg, parts[k]));
    }
  }

  lemma {:induction false} InSomePart<T>(parts: seq<seq<T>>, x: T)
    ensures x in Concat(parts) <==> exists p <- parts :: x in p
  {
    if parts != [] {
      var k := |parts| - 1;
      InSomePart(parts[..k], x);
      assert parts == parts[..k] + [parts[k]];
    }
  }

  /** The best of the parts' best numbers is the best of all. */
  lemma BestOfParts(agg: Agg, parts: seq<seq<real>>)
    requires (agg == Min || agg == Max) && parts != [] && Full(parts)
    ensures Concat(parts) != [] && Best(agg, Partials(agg, parts)) == Best(agg, Concat(parts))
  {
    var vs := Partials(agg, parts);
    var x := Best(agg, vs);
    BestOf(agg, vs);
    var i :| 0 <= i < |vs| && vs[i] == x;
    BestOf(agg, parts[i]);
    InSomePart(parts, x);
    forall y <- Concat(parts) ensures !Beats(agg, y, x) {
      InSomePart(parts, y);
      var p :| p in parts && y in p;
      var j :| 0 <= j < |parts| && parts[j] == p;
      BestOf(agg, p);
      assert vs[j] in vs;
    }
    BestIs(agg, Concat(parts), x);
  }

  lemma PartialsNext(agg: Agg, parts: seq<seq<real>>, p: seq<real>)
    requires p != [] && Full(parts)
    ensures Partials(agg, parts + [p]) == Partials(agg, parts) + [Value(agg, p)]
    ensures SumUp(Partials(agg, parts + [p])) == SumUp(Partials(agg, parts)) + Value(agg, p)
  {
    hide Value;
    assert (parts + [p])[..|parts|] == parts;
    var vs := Partials(agg, parts);
    assert (vs + [Value(agg, p)])[..|vs|] == vs;
  }

  lemma NoPartials(agg: Agg)
    ensures SumUp(Partials(agg, [])) == 0.0
  {
  }

  lemma {:induction false} NoPartsNoNumbers(parts: seq<seq<real>>)
    requires Full(parts)
    ensures parts == [] <==> Concat(parts) == []
  {
  }

  function Others(vs: seq<real>, i: nat): seq<real>
    requires i < |vs|
  {
    vs[..i] + vs[i + 1..]
  }

  lemma SumUpNext(ns: seq<real>, x: real)
    ensures SumUp(ns + [x]) == SumUp(ns) + x
  {
    assert (ns + [x])[..|ns|] == ns;
  }

  lemma {:induction false} SumUpOthers(vs: seq<real>, i: nat)
    requires i < |vs|
    ensures SumUp(vs) == vs[i] + SumUp(Others(vs, i))
  {
    var k := |vs| - 1;
    if i == k {
      assert Others(vs, i) == vs[..k];
    } else {
      SumUpOthers(vs[..k], i);
      SumUpNext(Others(vs[..k], i), vs[k]);
      assert Others(vs, i) == Others(vs[..k], i) + [vs[k]];
    }
  }

  // Shares and means

  lemma Quotient(a: real, k: real, x: real)
    requires k > 0.0
    ensures a / k == x <==> a == k * x
  {
    var q := a / k;
    assert q * k == a;
    if a == k * x {
      assert (q - x) * k == 0.0;
    }
  }

  lemma ShareOfSum(sum: real, k: nat)
    requires k > 0
    ensures sum / k as real == sum <==> k == 1 || sum == 0.0
  {
    Quotient(sum, k as real, sum);
    if sum != 0.0 && k != 1 {
      assert k as real * sum - sum == (k as real - 1.0) * sum != 0.0;
    }
  }

  function Copies(k: nat, x: real): real {
    if k == 0 then 0.0 else Copies(k - 1, x) + x
  }

  lemma {:induction false} CopiesAre(k: nat, x: real)
    ensures Copies(k, x) == k as real * x
  {
    if k > 0 {
      CopiesAre(k - 1, x);
      assert k as real * x == ((k - 1) as real + 1.0) * x == (k - 1) as real * x + x;
    }
  }

  /** Numbers that do not beat `x` add up to no better than as many times `x`, and exactly to that if all are `x`. */
  lemma {:induction false} SumUnbeaten(agg: Agg, vs: seq<real>, x: real)
    requires forall v <- vs :: !Beats(agg, v, x)
    ensures !Beats(agg, SumUp(vs), Copies(|vs|, x))
    ensures SumUp(vs) == Copies(|vs|, x) <==> forall v <- vs :: v == x
  {
    if vs != [] {
      var k := |vs| - 1;
      SumUnbeaten(agg, vs[..k], x);
      assert vs == vs[..k] + [vs[k]];
      assert !Beats(agg, vs[k], x);
      if SumUp(vs) == Copies(|vs|, x) {
        assert SumUp(vs[..k]) == Copies(k, x) && vs[k] == x;
        forall v | v in vs ensures v == x {
          assert v in vs[..k] || v == vs[k];
        }
      }
      if forall v <- vs :: v == x {
        assert vs[k] in vs && forall v <- vs[..k] :: v in vs;
      }
    }
  }

  /** The mean of numbers is their best one exactly if all are the same. */
  lemma MeanIsBestIff(agg: Agg, vs: seq<real>, x: real)
    requires vs != [] && forall v <- vs :: !Beats(agg, v, x)
    ensures SumUp(vs) / |vs| as real == x <==> forall v <- vs :: v == x
  {
    SumUnbeaten(agg, vs, x);
    CopiesAre(|vs|, x);
    hide SumUp, Copies, Beats;
    Quotient(SumUp(vs), |vs| as real, x);
  }

  /** The sum of numbers, divided by how many they are or not, is their best one. */
  lemma ShareIsBestIff(agg: Agg, vs: seq<real>, i: nat, averaged: bool)
    requires i < |vs| && forall v <- vs :: !Beats(agg, v, vs[i])
    ensures SumUp(vs) / (if averaged then |vs| else 1) as real == vs[i]
            <==> if averaged then forall v <- vs :: v == vs[i] else SumUp(Others(vs, i)) == 0.0
  {
    if averaged {
      MeanIsBestIff(agg, vs, vs[i]);
    } else {
      SumUpOthers(vs, i);
      hide SumUp, Others;
      assert SumUp(vs) / 1 as real == SumUp(vs);
    }
  }

  // Averages of averages

  function Sizes(parts: seq<seq<real>>): (ns: seq<real>)
    ensures |ns| == |parts| && forall i | 0 <= i < |ns| :: ns[i] == |parts[i]| as real
  {
    if parts == [] then [] else Sizes(parts[..|parts| - 1]) + [|parts[|parts| - 1]| as real]
  }

  /** A node's average, weighted by how many numbers it has. */
  function Weight(p: seq<real>): real
    requires p != []
  {
    |p| as real * Value(Avg, p)
  }

  function Weighted(parts: seq<seq<real>>): (ws: seq<real>)
    requires Full(parts)
    ensures |ws| == |parts| && forall i | 0 <= i < |ws| :: ws[i] == Weight(parts[i])
  {
    if parts == [] then []
    else
      var p := parts[|parts| - 1];
      Weighted(parts[..|parts| - 1]) + [Weight(p)]
  }

  lemma WeightIsSum(p: seq<real>)
    requires p != []
    ensures Weight(p) == SumUp(p)
  {
    hide SumUp;
  }

  lemma {:induction false} WeightsAddUp(parts: seq<seq<real>>)
    requires Full(parts)
    ensures SumUp(Weighted(parts)) == SumUp(Concat(parts)) && SumUp(Sizes(parts)) == |Concat(parts)| as real
  {
    if parts != [] {
      var k := |parts| - 1;
      var p := parts[k];
      WeightsAddUp(parts[..k]);
      SumUpConcat(Concat(parts[..k]), p);
      WeightIsSum(p);
      hide SumUp, Value, Weight;
      SumUpNext(Weighted(parts[..k]), SumUp(p));
      SumUpNext(Sizes(parts[..k]), |p| as real);
    }
  }

  predicate SameProduct(a: real, b: real, c: real, d: real) {
    a * b == c * d
  }

  lemma MeanOfMeans(a: real, k: real, s: real, n: real)
    requires k > 0.0 && n > 0.0
    ensures a / k == s / n <==> SameProduct(k, s, a, n)
  {
    var x, y := a / k, s / n;
    assert a == x * k && s == y * n;
    assert k * s - a * n == (y - x) * (k * n);
    if x != y {
      assert (y - x) * (k * n) != 0.0;
    }
  }

  /** `k` times the weighted sum of averages is the sum of averages times the number of numbers. */
  predicate AveragesAgree(parts: seq<seq<real>>, k: nat)
    requires Full(parts)
  {
    SameProduct(k as real, SumUp(Weighted(parts)), SumUp(Partials(Avg, parts)), SumUp(Sizes(parts)))
  }

  lemma MeanOfParts(parts: seq<seq<real>>, k: nat)
    requires Full(parts) && parts != [] && k > 0
    ensures Concat(parts) != []
    ensures SumUp(Partials(Avg, parts)) / k as real == Value(Avg, Concat(parts)) <==> AveragesAgree(parts, k)
  {
    NoPartsNoNumbers(parts);
    WeightsAddUp(parts);
    var a, s, n := SumUp(Partials(Avg, parts)), SumUp(Concat(parts)), |Concat(parts)| as real;
    assert Value(Avg, Concat(parts)) == s / n;
    hide SumUp, Partials, Concat, Weighted, Sizes, SameProduct;
    MeanOfMeans(a, k as real, s, n);
  }

  /** Averages of two parts agree exactly if these have equally many numbers or the same average. */
  lemma TwoAveragesAgreeIff(parts: seq<seq<real>>)
    requires |parts| == 2 && Full(parts)
    ensures AveragesAgree(parts, 2)
            <==> |parts[0]| == |parts[1]| || Value(Avg, parts[0]) == Value(Avg, parts[1])
  {
    TwoSum(Weighted(parts));
    TwoSum(Partials(Avg, parts));
    TwoSum(Sizes(parts));
    hide SumUp, Weighted, Partials, Sizes, Value;
    TwoMeans(Value(Avg, parts[0]), Value(Avg, parts[1]), |parts[0]| as real, |parts[1]| as real);
  }

  lemma TwoMeans(a: real, b: real, x: real, y: real)
    ensures SameProduct(2.0, x * a + y * b, a + b, x + y) <==> x == y || a == b
  {
    assert 2.0 * (x * a + y * b) - (a + b) * (x + y) == (a - b) * (x - y);
    if a != b && x != y {
      assert (a - b) * (x - y) != 0.0;
    }
  }

  lemma TwoSum(vs: seq<real>)
    requires |vs| == 2
    ensures SumUp(vs) == vs[0] + vs[1]
  {
    assert vs == [vs[0]] + [vs[1]] && [vs[0]] == [] + [vs[0]];
    SumUpNext([vs[0]], vs[1]);
    SumUpNext([], vs[0]);
  }
}
