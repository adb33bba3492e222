/** HyperLogLog registers: each keeps the longest run seen among the items hashed to it. */
module Hll {
  import opened Prelude

  // The hash, on 32-bit words

  const PRIME: bv32 := 16777619

  function Round(h: bv32, c: char): bv32 {
    (h * PRIME) ^ (c as int as bv32)
  }

  function Rounds(h: bv32, item: string): bv32
    decreases |item|
  {
    if item == "" then h else Rounds(Round(h, item[0]), item[1..])
  }

  function Mixed(h: bv32): bv32 {
    var h := (h ^ (h >> 16)) * PRIME;
    var h := (h ^ (h >> 13)) * PRIME;
    h ^ (h >> 16)
  }

  /** The registers' laws hold for any way of hashing. */
  type Hasher = string -> nat

  function Hash(item: string): nat {
    Mixed(Rounds(2166136261, item)) as int
  }

  /** The rounds are FNV-1, as its published values show. */
  lemma RoundsAreFnv1()
    ensures Rounds(2166136261, "") == 0x811c9dc5 && Rounds(2166136261, "a") == 0x050c5d7e
    ensures Rounds(2166136261, "foobar") == 0x31f0b262
  {
    hide Round;
    FirstRounds();
    LastRounds();
    OneRound(2166136261, 'a', "");
    OneRound(2166136261, 'f', "oobar");
    OneRound(0x050c5d79, 'o', "obar");
    OneRound(0x6b772514, 'o', "bar");
    OneRound(0x408f5e13, 'b', "ar");
    OneRound(0xb4b1178b, 'a', "r");
    OneRound(0xfdc80fb0, 'r', "");
    assert "foobar" == "f" + "oobar" && "oobar" == "o" + "obar" && "obar" == "o" + "bar" && "bar" == "b" + "ar";
    assert "ar" == "a" + "r" && "r" == "r" + "" && "a" == "a" + "";
  }

  lemma OneRound(h: bv32, c: char, rest: string)
    ensures Rounds(h, [c] + rest) == Rounds(Round(h, c), rest)
  {
    hide Round;
    assert ([c] + rest)[1..] == rest;
  }

  lemma FirstRounds()
    ensures Round(2166136261, 'a') == 0x050c5d7e && Round(2166136261, 'f') == 0x050c5d79
    ensures Round(0x050c5d79, 'o') == 0x6b772514 && Round(0x6b772514, 'o') == 0x408f5e13
  {
  }

  lemma LastRounds()
    ensures Round(0x408f5e13, 'b') == 0xb4b1178b && Round(0xb4b1178b, 'a') == 0xfdc80fb0
    ensures Round(0xfdc80fb0, 'r') == 0x31f0b262
  {
  }

  // Registers

  const DEFAULT_PRECISION := 12

  function Pow2(n: nat): (r: nat)
    ensures r > 0
  {
    if n == 0 then 1 else 2 * Pow2(n - 1)
  }

  /** The register of an item: the low bits of its hash. */
  function Index(p: nat, hash: nat): (i: nat)
    ensures i < Pow2(p)
  {
    if p == 0 then 0 else 2 * Index(p - 1, hash / 2) + hash % 2
  }

  /** The hash shifted right. */
  function HighBits(p: nat, hash: nat): nat {
    if p == 0 then hash else HighBits(p - 1, hash / 2)
  }

  /** Counts trailing zeros on top of `rho`, up to a limit. */
  function Zeros(w: nat, rho: nat, limit: nat): (r: nat)
    requires rho <= limit
    ensures rho <= r <= limit
    decreases limit - rho
  {
    if w % 2 == 0 && rho < limit then Zeros(w / 2, rho + 1, limit) else rho
  }

  predicate Precise(p: nat) {
    4 <= p <= 16
  }

  /** One more than the number of trailing zeros of the hash's high bits. */
  function Rho(p: nat, hash: nat): (r: nat)
    requires Precise(p)
    ensures 1 <= r <= 32 - p
  {
    Zeros(HighBits(p, hash), 1, 32 - p)
  }

  /** Register index and high bits are the low and the high part of the hash. */
  lemma {:induction false} HashSplits(p: nat, hash: nat)
    ensures hash == HighBits(p, hash) * Pow2(p) + Index(p, hash)
  {
    if p > 0 {
      var half, m := hash / 2, Pow2(p - 1);
      HashSplits(p - 1, half);
      var q, low := HighBits(p - 1, half), Index(p - 1, half);
      assert HighBits(p, hash) == q && Index(p, hash) == 2 * low + hash % 2 && Pow2(p) == 2 * m;
      hide *;
      Doubled(q, m);
      assert hash == 2 * half + hash % 2;
    }
  }

  lemma Doubled(q: nat, m: nat)
    ensures q * (2 * m) == 2 * (q * m)
  {
  }

  /** Rho is one more than the number of trailing zeros of the high bits, unless the limit comes first. */
  lemma RhoCountsZeros(p: nat, hash: nat) returns (q: nat)
    requires Precise(p)
    ensures HighBits(p, hash) == q * Pow2(Rho(p, hash) - 1)
    ensures Rho(p, hash) < 32 - p ==> q % 2 == 1
  {
    q := ZerosCount(HighBits(p, hash), 1, 32 - p);
  }

  lemma {:induction false} ZerosCount(w: nat, rho: nat, limit: nat) returns (q: nat)
    requires rho <= limit
    ensures w == q * Pow2(Zeros(w, rho, limit) - rho)
    ensures Zeros(w, rho, limit) < limit ==> q % 2 == 1
    decreases limit - rho
  {
    if w % 2 == 0 && rho < limit {
      q := ZerosCount(w / 2, rho + 1, limit);
      var k := Zeros(w, rho, limit) - rho;
      assert Pow2(k) == 2 * Pow2(k - 1);
      Doubled(q, Pow2(k - 1));
    } else {
      q := w;
    }
  }

  /** The items that count towards a register. */
  predicate Reaches(p: nat, hash: Hasher, x: string, i: nat) {
    x != "" && Index(p, hash(x)) == i
  }

  /** The register's value for a set of items: the maximum rho of the items hashed to it, or zero. */
  ghost predicate IsRegister(p: nat, hash: Hasher, items: set<string>, i: nat, v: nat)
    requires Precise(p)
  {
    && (forall x <- items :: Reaches(p, hash, x, i) ==> Rho(p, hash(x)) <= v)
    && (v == 0 || exists x <- items :: Reaches(p, hash, x, i) && Rho(p, hash(x)) == v)
  }

  lemma RegisterBound(p: nat, hash: Hasher, items: set<string>, i: nat, v: nat)
    requires Precise(p) && IsRegister(p, hash, items, i, v)
    ensures v <= 32 - p
  {
  }

  /** Only the set of distinct non-empty items matters. */
  lemma RegisterIsUnique(p: nat, hash: Hasher, a: set<string>, b: set<string>, i: nat, v: nat, w: nat)
    requires Precise(p) && a - {""} == b - {""}
    requires IsRegister(p, hash, a, i, v) && IsRegister(p, hash, b, i, w)
    ensures v == w
  {
    hide Rho, Index;
    assert forall x | x != "" :: x in a <==> x in a - {""};
    assert forall x | x != "" :: x in b <==> x in b - {""};
  }

  function Max(a: nat, b: nat): nat {
    if a < b then b else a
  }

  lemma RegisterOfUnion(p: nat, hash: Hasher, a: set<string>, b: set<string>, i: nat, v: nat, w: nat)
    requires Precise(p) && IsRegister(p, hash, a, i, v) && IsRegister(p, hash, b, i, w)
    ensures IsRegister(p, hash, a + b, i, Max(v, w))
  {
    hide Rho, Reaches;
    var m := Max(v, w);
    forall x | x in a + b && Reaches(p, hash, x, i) ensures Rho(p, hash(x)) <= m {
      if x !in a { assert x in b; }
    }
    if m != 0 {
      var x :| x in a + b && Reaches(p, hash, x, i) && Rho(p, hash(x)) == m;
    }
  }

  lemma RegisterOfOne(p: nat, hash: Hasher, x: string, i: nat)
    requires Precise(p)
    ensures IsRegister(p, hash, {x}, i, if Reaches(p, hash, x, i) then Rho(p, hash(x)) else 0)
  {
    hide Rho, Reaches;
  }

  // The sketch object

  class HyperLogLog {
    const precision: nat
    const registers: array<nat>

    /** The registers are those of the set of items. */
    ghost predicate Sketches(items: set<string>)
      reads registers
    {
      && Precise(precision) && registers.Length == Pow2(precision)
      && forall i | 0 <= i < registers.Length :: IsRegister(precision, Hash, items, i, registers[i])
    }

    constructor (wanted: Option<nat>)
      ensures precision == if wanted.Some? && Precise(wanted.value) then wanted.value else DEFAULT_PRECISION
      ensures fresh(registers) && Sketches({})
    {
      hide Hash, Pow2;
      var p := if wanted.Some? && Precise(wanted.value) then wanted.value else DEFAULT_PRECISION;
      precision := p;
      registers := new nat[Pow2(p)](i => 0);
    }

    constructor CopyOf(other: HyperLogLog)
      ensures precision == other.precision && fresh(registers) && registers[..] == other.registers[..]
    {
      precision := other.precision;
      var r := new nat[other.registers.Length](
        i requires 0 <= i < other.registers.Length reads other.registers => other.registers[i]);
      registers := r;
      new;
      assert r[..] == other.registers[..];
    }

    method Add(item: string, ghost items: set<string>)
      requires Sketches(items)
      modifies registers
      ensures Sketches(items + {item})
    {
      if item == "" {
        return;
      }
      var hash := Hash(item);
      hide Hash, Pow2, HighBits;
      var idx := Index(precision, hash);
      var w := HighBits(precision, hash);
      var rho := 1;
      while w % 2 == 0 && rho < 32 - precision
        invariant 1 <= rho <= 32 - precision
        invariant Zeros(w, rho, 32 - precision) == Rho(precision, hash)
        decreases 32 - precision - rho
      {
        w := w / 2;
        rho := rho + 1;
      }
      ghost var before := registers[..];
      if rho > registers[idx] {
        registers[idx] := rho;
      }
      forall i | 0 <= i < registers.Length ensures IsRegister(precision, Hash, items + {item}, i, registers[i]) {
        RegisterOfOne(precision, Hash, item, i);
        RegisterOfUnion(precision, Hash, items, {item}, i, before[i],
                        if Reaches(precision, Hash, item, i) then Rho(precision, hash) else 0);
      }
    }

    /** Takes the maximum register by register; sketches of another size are ignored. */
    method Merge(other: HyperLogLog?, ghost items: set<string>, ghost others: set<string>)
      requires Sketches(items)
      requires other != null ==> other.registers != registers && other.Sketches(others)
      modifies registers
      ensures other != null && other.precision == precision ==> Sketches(items + others)
      ensures other == null || other.precision != precision ==> registers[..] == old(registers[..])
    {
      hide Hash, IsRegister;
      if other == null || registers.Length != other.registers.Length {
        return;
      }
      if other.precision != precision { Pow2Injective(precision, other.precision); }
      hide Pow2;
      ghost var before := registers[..];
      for i := 0 to registers.Length
        invariant forall k | 0 <= k < i :: registers[k] == Max(before[k], other.registers[k])
        invariant forall k | i <= k < registers.Length :: registers[k] == before[k]
      {
        if other.registers[i] > registers[i] {
          registers[i] := other.registers[i];
        }
      }
      forall i | 0 <= i < registers.Length ensures IsRegister(precision, Hash, items + others, i, registers[i]) {
        RegisterOfUnion(precision, Hash, items, others, i, before[i], other.registers[i]);
      }
    }
  }

  lemma {:induction false} Pow2Injective(a: nat, b: nat)
    requires a != b
    ensures Pow2(a) != Pow2(b)
  {
    if a > 0 && b > 0 {
      Pow2Injective(a - 1, b - 1);
    }
  }

  /**
   * Whatever Adds, Copies and Merges led there: sketches of the same items have the same registers, all at most 32 -
   * precision.
   */
  lemma SameItemsSameRegisters(a: HyperLogLog, b: HyperLogLog, s: set<string>, t: set<string>)
    requires a.precision == b.precision && a.Sketches(s) && b.Sketches(t) && s - {""} == t - {""}
    ensures a.registers[..] == b.registers[..]
    ensures forall i | 0 <= i < a.registers.Length :: a.registers[i] <= 32 - a.precision
  {
    hide Hash, Pow2, IsRegister;
    forall i | 0 <= i < a.registers.Length
      ensures a.registers[i] == b.registers[i] && a.registers[i] <= 32 - a.precision
    {
      RegisterIsUnique(a.precision, Hash, s, t, i, a.registers[i], b.registers[i]);
      RegisterBound(a.precision, Hash, s, i, a.registers[i]);
    }
  }
}
