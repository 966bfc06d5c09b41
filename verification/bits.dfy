/**
 * Bit-level arithmetic on unbounded integers.
 *
 * The evaluator manipulates card codes and 13-bit rank masks with `&`, `|`, `<<`
 * and `>>`, and the lexicographic bit-sequence generator uses the two's-complement
 * idiom `x & -x`.  These operators are defined here on mathematical integers with
 * the semantics of Python's arbitrary-precision integers (two's complement with an
 * infinite sign extension).  Rust's `u32`/`i32` operators agree with them on every
 * value the evaluator produces, because those values stay far below 2^31.
 */
module Bits {

  function Pow2(n: nat): (r: nat)
    ensures r >= 1
  {
    if n == 0 then 1 else 2 * Pow2(n - 1)
  }

  /** The powers of two the card layout and the 13-bit rank masks use. */
  lemma SmallPowers()
    ensures Pow2(1) == 2 && Pow2(2) == 4 && Pow2(3) == 8 && Pow2(4) == 16
    ensures Pow2(5) == 32 && Pow2(6) == 64 && Pow2(7) == 128 && Pow2(8) == 256
    ensures Pow2(12) == 4096 && Pow2(13) == 0x2000 && Pow2(16) == 65536
  {
    assert Pow2(8) == 256;
    assert Pow2(12) == 16 * Pow2(8);
    assert Pow2(16) == 16 * Pow2(12);
  }

  function Abs(x: int): nat
  {
    if x < 0 then -x else x
  }

  /** Bitwise AND in two's complement (`a & b`). */
  function And(a: int, b: int): (r: int)
    ensures a >= 0 && b >= 0 ==> 0 <= r <= a && r <= b
    decreases Abs(a) + Abs(b)
  {
    if a == 0 || b == 0 then 0
    else if a == -1 then b
    else if b == -1 then a
    else 2 * And(a / 2, b / 2) + (if a % 2 == 1 && b % 2 == 1 then 1 else 0)
  }

  /** Bitwise OR in two's complement (`a | b`). */
  function Or(a: int, b: int): (r: int)
    ensures a >= 0 && b >= 0 ==> a <= r && b <= r && r <= a + b
    decreases Abs(a) + Abs(b)
  {
    if a == 0 then b
    else if b == 0 then a
    else if a == -1 || b == -1 then -1
    else 2 * Or(a / 2, b / 2) + (if a % 2 == 1 || b % 2 == 1 then 1 else 0)
  }

  /** The lowest set bit of a positive integer, as a value (a power of two). */
  function LowBit(x: int): (r: nat)
    requires x > 0
    ensures 1 <= r <= x
  {
    if x % 2 == 1 then 1 else 2 * LowBit(x / 2)
  }

  /** Number of set bits. */
  function Pop(x: nat): nat
  {
    if x == 0 then 0 else x % 2 + Pop(x / 2)
  }

  // ---------------------------------------------------------------------------
  // Powers of two

  lemma {:induction false} Pow2Add(a: nat, b: nat)
    ensures Pow2(a + b) == Pow2(a) * Pow2(b)
    decreases a
  {
    if a > 0 {
      Pow2Add(a - 1, b);
      assert Pow2(a + b) == 2 * Pow2(a - 1 + b);
    }
  }

  lemma {:induction false} Pow2Strict(a: nat, b: nat)
    requires a < b
    ensures Pow2(a) < Pow2(b)
    decreases b
  {
    if a < b - 1 {
      Pow2Strict(a, b - 1);
    }
  }

  lemma Pow2Monotone(a: nat, b: nat)
    requires a <= b
    ensures Pow2(a) <= Pow2(b)
  {
    if a < b {
      Pow2Strict(a, b);
    }
  }

  /** Halving carries a high bit `2^m` down to `2^(m-1)` and keeps the parity. */
  lemma HalveHigh(x: int, m: nat)
    requires m > 0
    ensures (x + Pow2(m)) / 2 == x / 2 + Pow2(m - 1) && (x + Pow2(m)) % 2 == x % 2
  {
  }

  lemma MulAtLeast(x: int, b: nat)
    requires x >= 1
    ensures x * b >= b
  {
  }

  lemma MulCancel(d: int, a: int, b: int)
    requires d > 0 && d * a > d * b
    ensures a > b
  {
  }

  lemma DivExact(a: nat, b: nat)
    requires b > 0
    ensures (a * b) / b == a && (a * b) % b == 0
  {
    var q, r := (a * b) / b, (a * b) % b;
    assert a * b == q * b + r;
    assert (a - q) * b == r;
    if a > q {
      MulAtLeast(a - q, b);
    }
  }

  lemma Pow2Div(a: nat, b: nat)
    requires b <= a
    ensures Pow2(a) / Pow2(b) == Pow2(a - b)
  {
    Pow2Add(a - b, b);
    DivExact(Pow2(a - b), Pow2(b));
  }

  // ---------------------------------------------------------------------------
  // OR

  lemma {:induction false} OrSelf(x: nat)
    ensures Or(x, x) == x
    decreases x
  {
    if x > 0 {
      OrSelf(x / 2);
    }
  }

  lemma {:induction false} OrComm(a: nat, b: nat)
    ensures Or(a, b) == Or(b, a)
    decreases a + b
  {
    if a > 0 && b > 0 {
      OrComm(a / 2, b / 2);
    }
  }

  /** Setting a bit above both operands commutes with OR. */
  lemma {:induction false} OrHigh(a: nat, b: nat, m: nat)
    requires a < Pow2(m) && b < Pow2(m)
    ensures Or(a + Pow2(m), b) == Or(a, b) + Pow2(m)
    decreases m
  {
    if m > 0 && b > 0 {
      OrHigh(a / 2, b / 2, m - 1);
      HalveHigh(a, m);
    }
  }

  /** OR with a value below the single bit `2^m` is addition. */
  lemma OrPow2(m: nat, b: nat)
    requires b < Pow2(m)
    ensures Or(Pow2(m), b) == Pow2(m) + b
  {
    OrHigh(0, b, m);
  }

  /** OR of a multiple of `2^m` with a value below `2^m` is addition (disjoint fields). */
  lemma {:induction false} OrShifted(a: nat, b: nat, m: nat)
    requires b < Pow2(m)
    ensures Or(a * Pow2(m), b) == a * Pow2(m) + b
    decreases m
  {
    if m > 0 && b > 0 && a > 0 {
      var x := a * Pow2(m - 1);
      assert a * Pow2(m) == 2 * x;
      MulAtLeast(a, Pow2(m - 1));
      OrShifted(a, b / 2, m - 1);
      assert Or(2 * x, b) == 2 * Or(x, b / 2) + b % 2;
    }
  }

  // ---------------------------------------------------------------------------
  // Lowest set bit

  /** `x & -x` isolates the lowest set bit. */
  lemma {:induction false} AndNeg(t: int)
    requires t > 0
    ensures And(t, -t) == LowBit(t)
    decreases t
  {
    if t % 2 == 1 {
      if t > 1 {
        assert (-t) / 2 == -(t / 2) - 1;
        AndComplement(t / 2);
      }
    } else {
      assert (-t) / 2 == -(t / 2);
      AndNeg(t / 2);
    }
  }

  /** `x & !x == 0`, with `!x == -x - 1`. */
  lemma {:induction false} AndComplement(x: int)
    requires x >= 0
    ensures And(x, -x - 1) == 0
    decreases x
  {
    if x > 0 {
      assert (-x - 1) / 2 == -(x / 2) - 1;
      AndComplement(x / 2);
    }
  }

  /** `(v | (v - 1)) + 1` adds the lowest set bit: it clears the lowest run of ones. */
  lemma {:induction false} OrPredecessor(v: int)
    requires v > 0
    ensures Or(v, v - 1) + 1 == v + LowBit(v)
    decreases v
  {
    if v % 2 == 1 {
      if v > 1 {
        OrSelf(v / 2);
        assert (v - 1) / 2 == v / 2;
      }
    } else {
      OrPredecessor(v / 2);
      assert (v - 1) / 2 == v / 2 - 1;
    }
  }

  lemma {:induction false} LowBitBelowHigh(x: nat, m: nat)
    requires 0 < x < Pow2(m)
    ensures LowBit(x + Pow2(m)) == LowBit(x)
    decreases m
  {
    if x % 2 == 0 {
      LowBitBelowHigh(x / 2, m - 1);
      HalveHigh(x, m);
    }
  }

  /** Adding the lowest set bit moves the lowest set bit strictly up. */
  lemma {:induction false} LowBitGrows(x: int)
    requires x > 0
    ensures LowBit(x + LowBit(x)) >= 2 * LowBit(x)
    decreases x
  {
    if x % 2 == 0 {
      LowBitGrows(x / 2);
      assert (x + LowBit(x)) / 2 == x / 2 + LowBit(x / 2);
    }
  }

  lemma {:induction false} LowBitScaled(c: nat, s: nat)
    requires c % 2 == 1
    ensures LowBit(c * Pow2(s)) == Pow2(s)
    decreases s
  {
    if s > 0 {
      var x := c * Pow2(s - 1);
      assert c * Pow2(s) == 2 * x;
      MulAtLeast(c, Pow2(s - 1));
      LowBitScaled(c, s - 1);
    } else {
      assert c * Pow2(s) == c;
    }
  }

  // ---------------------------------------------------------------------------
  // Division by a power of two

  /** `a / d` for a divisor `d` that is a power of two, as repeated halving. */
  function DivPow2(a: int, d: int): int
    decreases d
  {
    if d <= 1 then a else DivPow2(a / 2, d / 2)
  }

  lemma {:induction false} DivPow2Pow2(a: nat, b: nat)
    requires b <= a
    ensures DivPow2(Pow2(a), Pow2(b)) == Pow2(a - b)
    decreases b
  {
    if b > 0 {
      DivPow2Pow2(a - 1, b - 1);
    }
  }

  // ---------------------------------------------------------------------------
  // Population count

  lemma {:induction false} PopPositive(x: nat)
    requires x > 0
    ensures Pop(x) >= 1
    decreases x
  {
    if x % 2 == 0 {
      PopPositive(x / 2);
    }
  }

  lemma PopStep(y: nat, b: nat, h: nat)
    requires b == y % 2 && h == y / 2
    ensures Pop(y) == b + Pop(h)
  {
  }

  /** A bit above all the set bits of `x` adds one to the count. */
  lemma PopHigh(x: nat, m: nat)
    requires x < Pow2(m)
    ensures Pop(x + Pow2(m)) == Pop(x) + 1
  {
    PopHighOf(x, m, x + Pow2(m));
  }

  lemma {:induction false} PopHighOf(x: nat, m: nat, y: nat)
    requires x < Pow2(m) && y == x + Pow2(m)
    ensures Pop(y) == Pop(x) + 1
    decreases m
  {
    if m == 0 {
      assert x == 0 && y == 1;
    } else {
      HalveHigh(x, m);
      PopHighOf(x / 2, m - 1, y / 2);
      PopStep(y, x % 2, y / 2);
      PopStep(x, x % 2, x / 2);
    }
  }

  // ---------------------------------------------------------------------------
  // Trailing zeros

  /** Number of trailing zero bits of a positive integer. */
  function Ctz(x: int): nat
    requires x > 0
  {
    if x % 2 == 1 then 0 else 1 + Ctz(x / 2)
  }

  lemma {:induction false} LowBitCtz(x: int)
    requires x > 0
    ensures LowBit(x) == Pow2(Ctz(x))
    decreases x
  {
    if x % 2 == 0 {
      LowBitCtz(x / 2);
    }
  }

  lemma Pow2AtMost(a: nat, b: nat)
    requires Pow2(a) <= Pow2(b)
    ensures a <= b
  {
    if a > b {
      Pow2Strict(b, a);
    }
  }

  lemma Pow2Less(a: nat, b: nat)
    requires Pow2(a) < Pow2(b)
    ensures a < b
  {
    if a >= b {
      Pow2Monotone(b, a);
    }
  }

  lemma CtzGrows(v: int)
    requires v > 0
    ensures Ctz(v + LowBit(v)) > Ctz(v)
  {
    LowBitGrows(v);
    LowBitCtz(v);
    LowBitCtz(v + LowBit(v));
    Pow2Less(Ctz(v), Ctz(v + LowBit(v)));
  }

  lemma {:induction false} CtzPow2(m: nat)
    ensures Ctz(Pow2(m)) == m
    decreases m
  {
    if m > 0 {
      CtzPow2(m - 1);
    }
  }

  lemma CtzDouble(y: int, x: int)
    requires y > 0 && x == 2 * y
    ensures Ctz(x) == Ctz(y) + 1
  {
    assert x % 2 == 0 && x / 2 == y;
  }

  lemma CtzAllOnes(k: nat, x: int)
    requires k >= 1 && x == Pow2(k) - 1
    ensures x > 0 && Ctz(x) == 0
  {
    assert Pow2(k) == 2 * Pow2(k - 1);
  }

  lemma {:induction false} CtzBelowHigh(x: nat, m: nat)
    requires 0 < x < Pow2(m)
    ensures Ctz(x + Pow2(m)) == Ctz(x) && LowBit(x + Pow2(m)) == LowBit(x)
    decreases m
  {
    if x % 2 == 0 {
      CtzBelowHigh(x / 2, m - 1);
      HalveHigh(x, m);
    }
  }

  // ---------------------------------------------------------------------------
  // Setting the low bits

  /** `x` with its `e` lowest bits set, i.e. `x | (2^e - 1)`. */
  function SetLow(x: int, e: nat): int
    decreases e
  {
    if e == 0 then x else 2 * SetLow(x / 2, e - 1) + 1
  }

  lemma {:induction false} OrLowMask(x: nat, e: nat)
    ensures Or(x, Pow2(e) - 1) == SetLow(x, e)
    decreases e
  {
    if e > 0 {
      OrLowMask(x / 2, e - 1);
      assert (Pow2(e) - 1) / 2 == Pow2(e - 1) - 1;
    }
  }

  /** Setting low bits commutes with adding a higher bit. */
  lemma {:induction false} SetLowHigh(x: nat, e: nat, m: nat)
    requires x < Pow2(m) && e <= m
    ensures SetLow(x + Pow2(m), e) == SetLow(x, e) + Pow2(m)
    decreases e
  {
    if e > 0 {
      SetLowHigh(x / 2, e - 1, m - 1);
      HalveHigh(x, m);
    }
  }

  lemma {:induction false} SetLowZero(e: nat)
    ensures SetLow(0, e) == Pow2(e) - 1
    decreases e
  {
    if e > 0 {
      SetLowZero(e - 1);
    }
  }

  lemma {:induction false} SetLowBounds(x: nat, e: nat)
    ensures x <= SetLow(x, e) && Pow2(e) - 1 <= SetLow(x, e)
    decreases e
  {
    if e > 0 {
      SetLowBounds(x / 2, e - 1);
    }
  }

  // ---------------------------------------------------------------------------
  // A run of ones

  /** The integer whose binary form is k ones followed by s zeros. */
  function TopRun(k: nat, s: nat): nat
  {
    if s == 0 then Pow2(k) - 1 else 2 * TopRun(k, s - 1)
  }

  lemma {:induction false} TopRunGrow(k: nat, s: nat)
    requires k >= 1
    ensures TopRun(k - 1, s) + Pow2(k - 1 + s) == TopRun(k, s)
    decreases s
  {
    if s > 0 {
      TopRunGrow(k, s - 1);
    }
  }

  lemma {:induction false} TopRunEmpty(s: nat)
    ensures TopRun(0, s) == 0
    decreases s
  {
    if s > 0 {
      TopRunEmpty(s - 1);
    }
  }

  lemma {:induction false} TopRunSum(k: nat, s: nat)
    ensures TopRun(k, s) + Pow2(s) == Pow2(k + s)
    decreases s
  {
    if s > 0 {
      TopRunSum(k, s - 1);
      assert Pow2(k + s) == 2 * Pow2(k + s - 1);
    }
  }

  lemma {:induction false} TopRunCtz(k: nat, s: nat, x: int)
    requires k >= 1 && x == TopRun(k, s)
    ensures x > 0 && Ctz(x) == s
    decreases s
  {
    if s == 0 {
      CtzAllOnes(k, x);
    } else {
      var y := TopRun(k, s - 1);
      TopRunCtz(k, s - 1, y);
      CtzDouble(y, x);
    }
  }

  lemma TopRunLow(k: nat, s: nat)
    requires k >= 1
    ensures TopRun(k, s) > 0 && LowBit(TopRun(k, s)) == Pow2(s) && Ctz(TopRun(k, s)) == s
    ensures TopRun(k, s) + Pow2(s) == Pow2(k + s)
  {
    TopRunSum(k, s);
    TopRunCtz(k, s, TopRun(k, s));
    LowBitCtz(TopRun(k, s));
  }
}
