/**
 * Bit positions of nonnegative integers: right shifts, single-bit tests, and the
 * facts that connect them to And/Or and to integers packed from fields.
 */
module Fields {
  import opened Bits

  /** `x >> n`. */
  function Shr(x: nat, n: nat): nat
  {
    if n == 0 then x else Shr(x / 2, n - 1)
  }

  /** Bit n of x is set. */
  predicate Bit(x: nat, n: nat)
  {
    Shr(x, n) % 2 == 1
  }

  lemma {:induction false} ShrZero(n: nat)
    ensures Shr(0, n) == 0
  {
    if n > 0 {
      ShrZero(n - 1);
    }
  }

  lemma {:induction false} ShrAdd(x: nat, m: nat, k: nat)
    ensures Shr(x, m + k) == Shr(Shr(x, m), k)
    decreases m
  {
    if m > 0 {
      ShrAdd(x / 2, m - 1, k);
    }
  }

  /** Halving an integer packed as a * 2^m + b. */
  lemma HalvePacked(a: nat, b: nat, m: nat)
    requires m >= 1 && b < Pow2(m)
    ensures (a * Pow2(m) + b) / 2 == a * Pow2(m - 1) + b / 2
    ensures (a * Pow2(m) + b) % 2 == b % 2
    ensures b / 2 < Pow2(m - 1)
  {
    assert a * Pow2(m) + b == 2 * (a * Pow2(m - 1) + b / 2) + b % 2;
  }

  /** Shifting out the low field of a * 2^m + b leaves a. */
  lemma {:induction false} ShrPacked(a: nat, b: nat, m: nat)
    requires b < Pow2(m)
    ensures Shr(a * Pow2(m) + b, m) == a
    decreases m
  {
    if m > 0 {
      HalvePacked(a, b, m);
      ShrPacked(a, b / 2, m - 1);
    }
  }

  /** The low bits of a * 2^m + b are those of b. */
  lemma {:induction false} BitPackedLow(a: nat, b: nat, m: nat, n: nat)
    requires b < Pow2(m) && n < m
    ensures Bit(a * Pow2(m) + b, n) == Bit(b, n)
    decreases n
  {
    HalvePacked(a, b, m);
    if n > 0 {
      BitPackedLow(a, b / 2, m - 1, n - 1);
    }
  }

  /** The high bits of a * 2^m + b are those of a. */
  lemma BitPackedHigh(a: nat, b: nat, m: nat, n: nat)
    requires b < Pow2(m) && n >= m
    ensures Bit(a * Pow2(m) + b, n) == Bit(a, n - m)
  {
    ShrAdd(a * Pow2(m) + b, m, n - m);
    ShrPacked(a, b, m);
  }

  /** No bit at or above m is set in a value below 2^m. */
  lemma BitAboveRange(x: nat, m: nat, n: nat)
    requires x < Pow2(m) && n >= m
    ensures !Bit(x, n)
  {
    BitPackedHigh(0, x, m, n);
    ShrZero(n - m);
  }

  /** A power of two has exactly one bit set. */
  lemma BitPow2(r: nat, n: nat)
    ensures Bit(Pow2(r), n) <==> n == r
  {
    if n < r {
      BitPackedLow(1, 0, r, n);
      ShrZero(n);
    } else {
      BitPackedHigh(1, 0, r, n);
      if n > r {
        ShrZero(n - r - 1);
      }
    }
  }

  /** Testing a bit with a one-bit mask, as in `m & (1 << i) != 0`. */
  lemma {:induction false} AndBit(m: nat, i: nat)
    ensures And(m, Pow2(i)) != 0 <==> Bit(m, i)
    decreases i
  {
    if m == 0 {
      ShrZero(i);
    } else if i > 0 {
      AndBit(m / 2, i - 1);
      assert And(m, Pow2(i)) == 2 * And(m / 2, Pow2(i - 1));
    }
  }

  /** Bits of a conjunction. */
  lemma {:induction false} BitAnd(a: nat, b: nat, n: nat)
    ensures Bit(And(a, b), n) <==> Bit(a, n) && Bit(b, n)
    decreases n
  {
    if a == 0 || b == 0 {
      ShrZero(n);
    } else {
      var c := if a % 2 == 1 && b % 2 == 1 then 1 else 0;
      assert And(a, b) == 2 * And(a / 2, b / 2) + c;
      if n > 0 {
        BitAnd(a / 2, b / 2, n - 1);
      }
    }
  }

  /** Bits of a disjunction. */
  lemma {:induction false} BitOr(a: nat, b: nat, n: nat)
    ensures Bit(Or(a, b), n) <==> Bit(a, n) || Bit(b, n)
    decreases n
  {
    if a == 0 || b == 0 {
      ShrZero(n);
    } else {
      var c := if a % 2 == 1 || b % 2 == 1 then 1 else 0;
      assert Or(a, b) == 2 * Or(a / 2, b / 2) + c;
      if n > 0 {
        BitOr(a / 2, b / 2, n - 1);
      }
    }
  }

  /** A disjunction of values below 2^m stays below 2^m. */
  lemma {:induction false} OrBelow(a: nat, b: nat, m: nat)
    requires a < Pow2(m) && b < Pow2(m)
    ensures Or(a, b) < Pow2(m)
    decreases m
  {
    if a != 0 && b != 0 {
      OrBelow(a / 2, b / 2, m - 1);
    }
  }

  /** A nonzero value has a set bit, and zero has none. */
  lemma {:induction false} NonzeroHasBit(x: nat)
    ensures x != 0 <==> exists n: nat :: Bit(x, n)
    decreases x
  {
    if x == 0 {
      forall n: nat | true
        ensures !Bit(x, n)
      {
        ShrZero(n);
      }
    } else if x % 2 == 1 {
      assert Bit(x, 0);
    } else {
      NonzeroHasBit(x / 2);
      var n: nat :| Bit(x / 2, n);
      assert Bit(x, n + 1);
    }
  }

  /** Two values below 2^m with the same bits are equal. */
  lemma {:induction false} SameBits(x: nat, y: nat, m: nat)
    requires x < Pow2(m) && y < Pow2(m)
    requires forall n: nat :: n < m ==> (Bit(x, n) <==> Bit(y, n))
    ensures x == y
    decreases m
  {
    if m > 0 {
      assert Bit(x, 0) <==> Bit(y, 0);
      forall n: nat | n < m - 1
        ensures Bit(x / 2, n) <==> Bit(y / 2, n)
      {
        assert Bit(x, n + 1) <==> Bit(y, n + 1);
      }
      SameBits(x / 2, y / 2, m - 1);
    }
  }

  /** Masking with 2^m - 1 keeps the low field of a * 2^m + b. */
  lemma AndLowField(a: nat, b: nat, m: nat)
    requires b < Pow2(m)
    ensures And(a * Pow2(m) + b, Pow2(m) - 1) == b
  {
    ClearBelowMul(a, m);
    AndClearLow(a * Pow2(m), b, m);
  }

  /** The m lowest bits of x are clear. */
  predicate ClearBelow(x: nat, m: nat)
  {
    m == 0 || (x % 2 == 0 && ClearBelow(x / 2, m - 1))
  }

  lemma {:induction false} ClearBelowMul(a: nat, m: nat)
    ensures ClearBelow(a * Pow2(m), m)
    decreases m
  {
    if m > 0 {
      HalvePacked(a, 0, m);
      ClearBelowMul(a, m - 1);
    }
  }

  /** Masking hi + b with 2^m - 1, where hi has its m low bits clear, keeps b. */
  lemma {:induction false} AndClearLow(hi: nat, b: nat, m: nat)
    requires ClearBelow(hi, m) && b < Pow2(m)
    ensures And(hi + b, Pow2(m) - 1) == b
    decreases m
  {
    if m > 0 && hi + b != 0 {
      HalveMask(m);
      HalveEvenSum(hi, b);
      AndClearLow(hi / 2, b / 2, m - 1);
      AndOddMask(hi + b, Pow2(m) - 1, b, hi / 2 + b / 2, Pow2(m - 1) - 1);
    } else {
      ClearLowEmpty(hi, b, m);
    }
  }

  lemma ClearLowEmpty(hi: nat, b: nat, m: nat)
    requires b < Pow2(m) && (m == 0 || hi + b == 0)
    ensures And(hi + b, Pow2(m) - 1) == b
  {
  }

  lemma HalveEvenSum(hi: nat, b: nat)
    requires hi % 2 == 0
    ensures (hi + b) / 2 == hi / 2 + b / 2 && (hi + b) % 2 == b % 2
  {
  }

  /** Halving the mask 2^m - 1 drops its lowest bit, which is set. */
  lemma HalveMask(m: nat)
    requires m > 0
    ensures (Pow2(m) - 1) / 2 == Pow2(m - 1) - 1 && (Pow2(m) - 1) % 2 == 1
  {
  }

  /** One step of And against an odd mask: the low bit of x survives, the rest is masked by half the mask. */
  lemma AndOddMask(x: nat, mask: nat, b: nat, hx: nat, hm: nat)
    requires x > 0 && mask % 2 == 1 && hx == x / 2 && hm == mask / 2
    requires And(hx, hm) == b / 2 && x % 2 == b % 2
    ensures And(x, mask) == b
  {
  }

  // ---------------------------------------------------------------------------
  // Folds over several values

  /** `c[0] | c[1] | ... | c[n-1]`, associated to the left; 0 for no values. */
  function OrAll(cs: seq<nat>): (r: nat)
    ensures forall i :: 0 <= i < |cs| ==> cs[i] <= r
  {
    if |cs| == 0 then 0 else Or(OrAll(cs[..|cs| - 1]), cs[|cs| - 1])
  }

  /** `c[0] & c[1] & ... & c[n-1]`, associated to the left. */
  function AndAll(cs: seq<nat>): (r: nat)
    requires |cs| >= 1
    ensures r <= cs[0]
  {
    if |cs| == 1 then cs[0] else And(AndAll(cs[..|cs| - 1]), cs[|cs| - 1])
  }

  /** A bit is set in a disjunction exactly when it is set in one of the values. */
  lemma {:induction false} BitOrAll(cs: seq<nat>, n: nat)
    ensures Bit(OrAll(cs), n) <==> exists i :: 0 <= i < |cs| && Bit(cs[i], n)
    decreases |cs|
  {
    if |cs| == 0 {
      ShrZero(n);
    } else {
      var k := |cs| - 1;
      BitOrAll(cs[..k], n);
      BitOr(OrAll(cs[..k]), cs[k], n);
      if exists i :: 0 <= i < |cs| && Bit(cs[i], n) {
        var i :| 0 <= i < |cs| && Bit(cs[i], n);
        if i < k {
          assert cs[..k][i] == cs[i];
        }
      }
    }
  }

  /** A bit is set in a conjunction exactly when it is set in every value. */
  lemma {:induction false} BitAndAll(cs: seq<nat>, n: nat)
    requires |cs| >= 1
    ensures Bit(AndAll(cs), n) <==> forall i :: 0 <= i < |cs| ==> Bit(cs[i], n)
    decreases |cs|
  {
    if |cs| > 1 {
      var k := |cs| - 1;
      BitAndAll(cs[..k], n);
      BitAnd(AndAll(cs[..k]), cs[k], n);
      if !Bit(AndAll(cs), n) && !Bit(cs[k], n) {
        assert !Bit(cs[k], n);
      } else if !Bit(AndAll(cs), n) {
        var i :| 0 <= i < k && !Bit(cs[..k][i], n);
        assert !Bit(cs[i], n);
      }
    }
  }
}
