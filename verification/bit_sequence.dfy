/**
 * The lexicographic next-bit-permutation generator used to enumerate flush
 * patterns, and the proof that it walks through every 13-bit mask with five
 * set bits in increasing order.
 */
module BitSequence {
  import opened Bits
  import opened Enumeration

  /**
   * One step of the generator: the next larger integer with the same number of
   * set bits, computed with the two's-complement trick
   *   t = (v | (v - 1)) + 1;  t | ((((t & -t) / (v & -v)) >> 1) - 1)
   */
  function Next(v: int): int
    requires v > 0
  {
    Spread(v, Or(v, v - 1) + 1)
  }

  /**
   * The second half of a step: refill the low bits of `t`.  The divisor `v & -v`
   * is a power of two, so the division is written as repeated halving (DivPow2),
   * which is exact for such divisors.
   */
  function Spread(v: int, t: int): int
  {
    Or(t, DivPow2(And(t, -t), And(v, -v)) / 2 - 1)
  }

  /** The first `count` values the generator yields after `seed`. */
  function Generate(seed: int, count: nat): (r: seq<int>)
    requires seed > 0
    ensures |r| == count
    decreases count
  {
    if count == 0 then [] else NextGrows(seed); [Next(seed)] + Generate(Next(seed), count - 1)
  }

  /** The division in Next divides two powers of two: the lowest set bits of t and v. */
  lemma NextQuotient(v: int, t: int, e: nat)
    requires v > 0 && t == v + LowBit(v) && Ctz(t) == Ctz(v) + e + 1
    ensures DivPow2(And(t, -t), And(v, -v)) == 2 * Pow2(e)
  {
    AndNeg(v);
    AndNeg(t);
    LowBitCtz(v);
    LowBitCtz(t);
    DivPow2Pow2(Ctz(t), Ctz(v));
    assert Ctz(t) - Ctz(v) == e + 1;
  }

  /**
   * Next with the two's-complement idioms replaced by trailing-zero counts: with
   * t = v + lowbit(v), the result is t OR-ed with ctz(t) - ctz(v) - 1 low ones.
   */
  lemma NextByCtz(v: int, t: int, e: nat)
    requires v > 0 && t == v + LowBit(v) && Ctz(t) == Ctz(v) + e + 1
    ensures Next(v) == Or(t, Pow2(e) - 1)
  {
    OrPredecessor(v);
    NextIs(v, t);
    SpreadByCtz(v, t, e);
  }

  lemma SpreadByCtz(v: int, t: int, e: nat)
    requires v > 0 && t == v + LowBit(v) && Ctz(t) == Ctz(v) + e + 1
    ensures Spread(v, t) == Or(t, Pow2(e) - 1)
  {
    NextQuotient(v, t, e);
    SpreadOf(v, t, Pow2(e) - 1);
  }

  lemma NextIs(v: int, t: int)
    requires v > 0 && Or(v, v - 1) + 1 == t
    ensures Next(v) == Spread(v, t)
  {
  }

  lemma SpreadOf(v: int, t: int, m: int)
    requires DivPow2(And(t, -t), And(v, -v)) / 2 - 1 == m
    ensures Spread(v, t) == Or(t, m)
  {
  }

  /**
   * The generator step in closed form: with t = v + lowbit(v) (the lowest run of
   * ones carried one place up), t with its ctz(t) - ctz(v) - 1 lowest bits set.
   */
  function Successor(v: int): int
    requires v > 0
  {
    var t := v + LowBit(v);
    CtzGrows(v);
    SetLow(t, Ctz(t) - Ctz(v) - 1)
  }

  lemma NextClosed(v: int)
    requires v > 0
    ensures Next(v) == Successor(v)
  {
    var t := v + LowBit(v);
    CtzGrows(v);
    var e := Ctz(t) - Ctz(v) - 1;
    NextByCtz(v, t, e);
    OrLowMask(t, e);
    SuccessorParts(v, t, e);
  }

  /** The generator only moves upwards. */
  lemma NextGrows(v: int)
    requires v > 0
    ensures Next(v) > v
  {
    NextClosed(v);
    SuccessorGrows(v);
  }

  lemma SuccessorGrows(v: int)
    requires v > 0
    ensures Successor(v) > v
  {
    var t := v + LowBit(v);
    CtzGrows(v);
    var e := Ctz(t) - Ctz(v) - 1;
    SuccessorParts(v, t, e);
    SetLowBounds(t, e);
  }

  /** From a run of k ones ending at bit s, Next carries into bit k+s and restarts the run at bit 0. */
  lemma Carry(k: nat, s: nat)
    requires k >= 1
    ensures TopRun(k, s) > 0 && Successor(TopRun(k, s)) == Pow2(k + s) + Pow2(k - 1) - 1
  {
    CarryShape(k, s);
    Pow2Strict(k - 1, k + s);
    SetLowHigh(0, k - 1, k + s);
    SetLowZero(k - 1);
  }

  lemma CarryShape(k: nat, s: nat)
    requires k >= 1
    ensures TopRun(k, s) > 0 && Successor(TopRun(k, s)) == SetLow(Pow2(k + s), k - 1)
  {
    var v := TopRun(k, s);
    TopRunLow(k, s);
    CtzGrows(v);
    CtzPow2(k + s);
    SuccessorParts(v, Pow2(k + s), k - 1);
  }

  /** Successor with its parts named. */
  lemma SuccessorParts(v: int, t: int, e: nat)
    requires v > 0 && t == v + LowBit(v) && Ctz(t) > Ctz(v) && e == Ctz(t) - Ctz(v) - 1
    ensures Successor(v) == SetLow(t, e)
  {
  }

  lemma HighBitShift(x: nat, m: nat)
    requires 0 < x && x + LowBit(x) < Pow2(m)
    ensures var t, x' := x + LowBit(x), x + Pow2(m);
      x' + LowBit(x') == t + Pow2(m) && Ctz(x') == Ctz(x) && Ctz(t + Pow2(m)) == Ctz(t)
  {
    CtzBelowHigh(x, m);
    CtzBelowHigh(x + LowBit(x), m);
  }

  lemma HighBitBelow(x: nat, m: nat)
    requires 0 < x < Pow2(m) && Successor(x) < Pow2(m)
    ensures var t := x + LowBit(x);
      Ctz(t) > Ctz(x) && t < Pow2(m) && Ctz(t) - Ctz(x) - 1 <= m &&
      Successor(x) == SetLow(t, Ctz(t) - Ctz(x) - 1)
  {
    CtzGrows(x);
    var t := x + LowBit(x);
    var e := Ctz(t) - Ctz(x) - 1;
    SuccessorParts(x, t, e);
    SetLowBounds(t, e);
    Pow2AtMost(e, m);
  }

  lemma HighBitAbove(x: nat, m: nat)
    requires 0 < x && x + LowBit(x) < Pow2(m)
    ensures var t := x + LowBit(x);
      Ctz(t) > Ctz(x) &&
      Successor(x + Pow2(m)) == SetLow(t + Pow2(m), Ctz(t) - Ctz(x) - 1)
  {
    CtzGrows(x);
    var t := x + LowBit(x);
    HighBitShift(x, m);
    SuccessorParts(x + Pow2(m), t + Pow2(m), Ctz(t) - Ctz(x) - 1);
  }

  /** A bit above everything Next touches is carried along unchanged. */
  lemma HighBit(x: nat, m: nat)
    requires 0 < x < Pow2(m) && Successor(x) < Pow2(m)
    ensures Successor(x + Pow2(m)) == Successor(x) + Pow2(m)
  {
    HighBitBelow(x, m);
    HighBitAbove(x, m);
    var t := x + LowBit(x);
    SetLowHigh(t, Ctz(t) - Ctz(x) - 1, m);
  }

  // ---------------------------------------------------------------------------
  // The generator walks through the enumeration

  /** Consecutive masks of the enumeration are one generator step apart. */
  lemma {:induction false} UnrankNext(n: nat, k: nat, i: nat)
    requires i + 1 < Binom(n, k)
    ensures Unrank(n, k, i) > 0 && Successor(Unrank(n, k, i)) == Unrank(n, k, i + 1)
    decreases n, 2
  {
    var b := Binom(n - 1, k);
    if i + 1 < b {
      UnrankNext(n - 1, k, i);
    } else if i + 1 == b {
      UnrankSeam(n, k);
    } else {
      UnrankLifted(n, k, i - b);
    }
  }

  /** At the seam between the two halves, one step carries into bit n-1. */
  lemma UnrankSeam(n: nat, k: nat)
    requires n >= 1 && k >= 1 && 1 <= Binom(n - 1, k) < Binom(n, k)
    ensures var b := Binom(n - 1, k);
      Unrank(n, k, b - 1) > 0 && Successor(Unrank(n, k, b - 1)) == Unrank(n, k, b)
  {
    BinomPositive(n - 1, k);
    UnrankLast(n - 1, k);
    UnrankFirst(n - 1, k - 1);
    Carry(k, n - 1 - k);
    assert k + (n - 1 - k) == n - 1;
  }

  /** Inside the half carrying bit n-1, a step leaves that bit alone. */
  lemma {:induction false} UnrankLifted(n: nat, k: nat, j: nat)
    requires n >= 1 && k >= 1 && Binom(n - 1, k) + j + 1 < Binom(n, k)
    ensures var b := Binom(n - 1, k);
      Unrank(n, k, b + j) > 0 && Successor(Unrank(n, k, b + j)) == Unrank(n, k, b + j + 1)
    decreases n, 1
  {
    UnrankHigh(n, k, j);
    UnrankHigh(n, k, j + 1);
    LiftedStep(n, k, j);
  }

  lemma {:induction false} LiftedStep(n: nat, k: nat, j: nat)
    requires n >= 1 && k >= 1 && j + 1 < Binom(n - 1, k - 1)
    ensures var x := Pow2(n - 1) + Unrank(n - 1, k - 1, j);
      x > 0 && Successor(x) == Pow2(n - 1) + Unrank(n - 1, k - 1, j + 1)
    decreases n, 0
  {
    var x := Unrank(n - 1, k - 1, j);
    UnrankNext(n - 1, k - 1, j);
    UnrankMember(n - 1, k - 1, j);
    UnrankMember(n - 1, k - 1, j + 1);
    HighBit(x, n - 1);
  }

  /** From the i-th mask on, the generator yields the masks that follow it in the enumeration. */
  lemma {:induction false} GenerateUnrank(n: nat, k: nat, i: nat, count: nat)
    requires i + count < Binom(n, k) && Unrank(n, k, i) > 0
    ensures Generate(Unrank(n, k, i), count) == Combos(n, k)[i + 1..i + 1 + count]
    decreases count
  {
    if count > 0 {
      UnrankNextPositive(n, k, i);
      GenerateUnrank(n, k, i + 1, count - 1);
      GenerateStep(n, k, i, count);
    }
  }

  lemma UnrankNextPositive(n: nat, k: nat, i: nat)
    requires i + 1 < Binom(n, k)
    ensures Unrank(n, k, i + 1) > 0
  {
    UnrankNext(n, k, i);
    SuccessorGrows(Unrank(n, k, i));
  }

  /** One generator step prepends the next mask of the enumeration. */
  lemma GenerateStep(n: nat, k: nat, i: nat, count: nat)
    requires 0 < count && i + count < Binom(n, k) && Unrank(n, k, i) > 0 && Unrank(n, k, i + 1) > 0
    requires Generate(Unrank(n, k, i + 1), count - 1) == Combos(n, k)[i + 2..i + 1 + count]
    ensures Generate(Unrank(n, k, i), count) == Combos(n, k)[i + 1..i + 1 + count]
  {
    var v := Unrank(n, k, i);
    UnrankNext(n, k, i);
    NextClosed(v);
    GenerateCons(v, count);
    SliceCons(Combos(n, k), i + 1, count);
  }

  lemma GenerateCons(seed: int, count: nat)
    requires seed > 0 && count > 0
    ensures Next(seed) > seed
    ensures Generate(seed, count) == [Next(seed)] + Generate(Next(seed), count - 1)
  {
    NextGrows(seed);
  }

  lemma SliceCons(s: seq<nat>, i: nat, count: nat)
    requires 0 < count && i + count <= |s|
    ensures s[i..i + count] == [s[i]] + s[i + 1..i + count]
  {
  }

  /**
   * Seeded with the smallest k-bit mask, the generator yields every other mask
   * with k bits below 2^n, in increasing order.
   */
  lemma GenerateEnumerates(n: nat, k: nat)
    requires 1 <= k <= n
    ensures Binom(n, k) >= 1
    ensures Generate(Pow2(k) - 1, Binom(n, k) - 1) == Combos(n, k)[1..]
  {
    UnrankFirst(n, k);
    Pow2Strict(0, k);
    GenerateFromFirst(n, k, Pow2(k) - 1, Binom(n, k) - 1);
  }

  lemma GenerateFromFirst(n: nat, k: nat, seed: int, count: nat)
    requires seed == Unrank(n, k, 0) && seed > 0 && count + 1 == Binom(n, k)
    ensures Generate(seed, count) == Combos(n, k)[1..]
  {
    GenerateUnrank(n, k, 0, count);
  }

  // ---------------------------------------------------------------------------
  // The first steps from 0b11111

  /** An odd multiple of 2^s has exactly s trailing zeros. */
  lemma {:induction false} CtzOddMultiple(a: nat, s: nat, x: int)
    requires a % 2 == 1 && x == a * Pow2(s)
    ensures x > 0 && Ctz(x) == s
    decreases s
  {
    MulAtLeast(a, Pow2(s));
    if s > 0 {
      var y := a * Pow2(s - 1);
      assert x == 2 * y;
      CtzOddMultiple(a, s - 1, y);
      CtzDouble(y, x);
    }
  }

  /**
   * From an odd v whose successor v + 1 is an odd multiple of 2^(s+1), the
   * generator carries into bit s+1 and refills the s bits below: the result
   * is v + 2^s.
   */
  lemma OddStep(v: int, a: nat, s: nat)
    requires v > 0 && v % 2 == 1 && a % 2 == 1 && v + 1 == a * Pow2(s + 1)
    ensures Next(v) == v + Pow2(s)
  {
    assert LowBit(v) == 1 && Ctz(v) == 0;
    CtzOddMultiple(a, s + 1, v + 1);
    NextByCtz(v, v + 1, s);
    OrShifted(a, Pow2(s) - 1, s + 1);
  }

  // The first steps of the generator from 0b11111.  The start value is a
  // parameter fixed by the precondition rather than a literal, which keeps the
  // verifier from unfolding Next on a constant.

  lemma StepFrom31(v: int)
    requires v == 31
    ensures Next(v) == 47
  {
    OddStep(v, 1, 4);
  }

  lemma StepFrom47(v: int)
    requires v == 47
    ensures Next(v) == 55
  {
    OddStep(v, 3, 3);
  }

  lemma StepFrom55(v: int)
    requires v == 55
    ensures Next(v) == 59
  {
    OddStep(v, 7, 2);
  }

  /** Seeded with 0b11111 the generator starts 0b101111, 0b110111, 0b111011. */
  lemma FirstOutputs(v: int)
    requires v == 31
    ensures Generate(v, 3) == [47, 55, 59]
  {
    StepFrom31(v);
    var w := Next(v);
    StepFrom47(w);
    var x := Next(w);
    StepFrom55(x);
    GenerateCons(x, 1);
    var c := Generate(x, 1);
    assert c == [59];
    GenerateCons(w, 2);
    var b := Generate(w, 2);
    assert b == [55] + c;
    GenerateCons(v, 3);
    assert Generate(v, 3) == [47] + b;
    ThreeOutputs(Generate(v, 3), b, c);
  }

  lemma ThreeOutputs(g: seq<int>, b: seq<int>, c: seq<int>)
    requires g == [47] + b && b == [55] + c && c == [59]
    ensures g == [47, 55, 59]
  {
  }
}
