/**
 * The reference enumeration of rank patterns: the integers below 2^n with
 * exactly k set bits, in increasing order.  `Unrank(n, k, i)` is the i-th of
 * them and `Rank` is its inverse; `Combos` collects them into a sequence.  The
 * generator in BitSequence is proved to walk through this enumeration.
 */
module Enumeration {
  import opened Bits

  /** Binomial coefficient, by Pascal's rule. */
  function Binom(n: nat, k: nat): nat
  {
    if k == 0 then 1 else if n == 0 then 0 else Binom(n - 1, k) + Binom(n - 1, k - 1)
  }

  /**
   * The i-th integer below 2^n with k set bits: first come the Binom(n-1, k)
   * of them without bit n-1, then those with it.
   */
  function Unrank(n: nat, k: nat, i: nat): nat
  {
    if k == 0 || n == 0 then 0
    else if i < Binom(n - 1, k) then Unrank(n - 1, k, i)
    else Pow2(n - 1) + Unrank(n - 1, k - 1, i - Binom(n - 1, k))
  }

  /** The position of `x` among the integers below 2^n with k set bits. */
  function Rank(n: nat, k: nat, x: nat): nat
  {
    if k == 0 || n == 0 then 0
    else if x < Pow2(n - 1) then Rank(n - 1, k, x)
    else Binom(n - 1, k) + Rank(n - 1, k - 1, x - Pow2(n - 1))
  }

  /** All of them, in order. */
  function Combos(n: nat, k: nat): (r: seq<nat>)
    ensures |r| == Binom(n, k)
    ensures forall i :: 0 <= i < |r| ==> r[i] == Unrank(n, k, i)
  {
    seq(Binom(n, k), i requires 0 <= i => Unrank(n, k, i))
  }

  // ---------------------------------------------------------------------------
  // Binomial coefficients

  lemma {:induction false} BinomBeyond(n: nat, k: nat)
    requires k > n
    ensures Binom(n, k) == 0
    decreases n
  {
    if n > 0 {
      BinomBeyond(n - 1, k);
      BinomBeyond(n - 1, k - 1);
    }
  }

  lemma {:induction false} BinomWithin(n: nat, k: nat)
    requires k <= n
    ensures Binom(n, k) >= 1
    decreases n
  {
    if k > 0 {
      BinomWithin(n - 1, k - 1);
    }
  }

  /** There is a mask of k bits below 2^n exactly when k <= n. */
  lemma BinomPositive(n: nat, k: nat)
    ensures Binom(n, k) > 0 <==> k <= n
  {
    if k <= n {
      BinomWithin(n, k);
    } else {
      BinomBeyond(n, k);
    }
  }

  lemma {:induction false} BinomOne(n: nat)
    ensures Binom(n, 1) == n
  {
    if n > 0 {
      BinomOne(n - 1);
    }
  }

  /** The absorption identity k * C(n, k) == n * C(n - 1, k - 1). */
  lemma {:induction false} BinomAbsorb(n: nat, k: nat)
    requires n >= 1 && k >= 1
    ensures k * Binom(n, k) == n * Binom(n - 1, k - 1)
    decreases n
  {
    if n == 1 {
      if k > 1 {
        BinomBeyond(1, k);
      }
    } else if k == 1 {
      BinomOne(n);
    } else {
      BinomAbsorb(n - 1, k);
      BinomAbsorb(n - 1, k - 1);
      AbsorbStep(n, k, Binom(n, k), Binom(n - 1, k), Binom(n - 1, k - 1), Binom(n - 2, k - 1), Binom(n - 2, k - 2));
    }
  }

  lemma AbsorbStep(n: int, k: int, a: int, b: int, c: int, d: int, e: int)
    requires a == b + c && c == d + e
    requires k * b == (n - 1) * d && (k - 1) * c == (n - 1) * e
    ensures k * a == n * c
  {
    assert k * a == k * b + (k - 1) * c + c;
    assert (n - 1) * d + (n - 1) * e == (n - 1) * c;
  }

  /** The absorption identity with both sizes named by constants, so that it is linear. */
  lemma AbsorbAt(n: nat, k: nat, a: int, b: int)
    requires n >= 1 && k >= 1 && n == a && k == b
    ensures b * Binom(n, k) == a * Binom(n - 1, k - 1)
  {
    BinomAbsorb(n, k);
  }

  /**
   * There are 1287 five-card rank patterns out of thirteen ranks.  Each step
   * below takes its sizes as parameters rather than literals, which keeps the
   * verifier from evaluating Binom on constants.
   */
  lemma FiveOfThirteen(n: nat, k: nat)
    requires n == 13 && k == 5
    ensures Binom(n, k) == 1287
  {
    FourOfTwelve(n - 1, k - 1);
    AbsorbAt(n, k, 13, 5);
  }

  lemma FourOfTwelve(n: nat, k: nat)
    requires n == 12 && k == 4
    ensures Binom(n, k) == 495
  {
    ThreeOfEleven(n - 1, k - 1);
    AbsorbAt(n, k, 12, 4);
  }

  lemma ThreeOfEleven(n: nat, k: nat)
    requires n == 11 && k == 3
    ensures Binom(n, k) == 165
  {
    TwoOfTen(n - 1, k - 1);
    AbsorbAt(n, k, 11, 3);
  }

  lemma TwoOfTen(n: nat, k: nat)
    requires n == 10 && k == 2
    ensures Binom(n, k) == 45
  {
    BinomOne(n - 1);
    AbsorbAt(n, k, 10, 2);
  }

  /** C(n, 2) == n(n - 1)/2, written without division. */
  lemma BinomTwo(n: nat, k: nat)
    requires n >= 1 && k == 2
    ensures 2 * Binom(n, k) == n * (n - 1)
  {
    BinomOne(n - 1);
    AbsorbAt(n, k, n, 2);
  }

  /** The sizes of `combinations(2)` and `combinations(3)` in the table builder. */
  lemma TwoOfTwelve(n: nat, k: nat)
    requires n == 12 && k == 2
    ensures Binom(n, k) == 66
  {
    BinomTwo(n, k);
  }

  lemma TwoOfThirteen(n: nat, k: nat)
    requires n == 13 && k == 2
    ensures Binom(n, k) == 78
  {
    BinomTwo(n, k);
  }

  lemma ThreeOfTwelve(n: nat, k: nat)
    requires n == 12 && k == 3
    ensures Binom(n, k) == 220
  {
    BinomTwo(n - 1, k - 1);
    AbsorbAt(n, k, 12, 3);
  }

  // ---------------------------------------------------------------------------
  // Soundness, order, completeness

  /** The first half of the enumeration is the enumeration one size down. */
  lemma UnrankLow(n: nat, k: nat, i: nat)
    requires n >= 1 && k >= 1 && i < Binom(n - 1, k)
    ensures Unrank(n, k, i) == Unrank(n - 1, k, i)
  {
  }

  /** The second half of the enumeration is the enumeration one size down, with bit n-1 added. */
  lemma UnrankHigh(n: nat, k: nat, j: nat)
    requires n >= 1 && k >= 1
    ensures Unrank(n, k, Binom(n - 1, k) + j) == Pow2(n - 1) + Unrank(n - 1, k - 1, j)
  {
  }

  /** Every enumerated value is below 2^n and has k set bits. */
  lemma {:induction false} UnrankMember(n: nat, k: nat, i: nat)
    requires i < Binom(n, k)
    ensures Unrank(n, k, i) < Pow2(n) && Pop(Unrank(n, k, i)) == k
    decreases n
  {
    if k > 0 {
      var b := Binom(n - 1, k);
      if i < b {
        UnrankMember(n - 1, k, i);
        UnrankLow(n, k, i);
        MemberLow(Unrank(n, k, i), Unrank(n - 1, k, i), n - 1, k);
      } else {
        UnrankMember(n - 1, k - 1, i - b);
        UnrankHigh(n, k, i - b);
        MemberHigh(Unrank(n, k, i), Unrank(n - 1, k - 1, i - b), n - 1, k);
      }
    }
  }

  lemma MemberLow(u: int, x: int, m: nat, k: nat)
    requires u == x && 0 <= x < Pow2(m) && Pop(x) == k
    ensures u < Pow2(m + 1) && Pop(u) == k
  {
  }

  lemma MemberHigh(u: int, y: int, m: nat, k: nat)
    requires k >= 1 && u == Pow2(m) + y && 0 <= y < Pow2(m) && Pop(y) == k - 1
    ensures u < Pow2(m + 1) && Pop(u) == k
  {
    PopHigh(y, m);
  }

  /** The enumeration is strictly increasing. */
  lemma {:induction false} UnrankIncreasing(n: nat, k: nat, i: nat, j: nat)
    requires i < j < Binom(n, k)
    ensures Unrank(n, k, i) < Unrank(n, k, j)
    decreases n
  {
    var b := Binom(n - 1, k);
    if j < b {
      UnrankIncreasing(n - 1, k, i, j);
    } else if i < b {
      UnrankMember(n - 1, k, i);
    } else {
      UnrankIncreasing(n - 1, k - 1, i - b, j - b);
    }
  }

  /** Rank finds the position of every k-bit value below 2^n. */
  lemma {:induction false} UnrankRank(n: nat, k: nat, x: nat)
    requires x < Pow2(n) && Pop(x) == k
    ensures Rank(n, k, x) < Binom(n, k) && Unrank(n, k, Rank(n, k, x)) == x
    decreases n
  {
    if x > 0 {
      PopPositive(x);
      var b := Binom(n - 1, k);
      if x < Pow2(n - 1) {
        UnrankRank(n - 1, k, x);
      } else {
        var y := x - Pow2(n - 1);
        assert Pow2(n) == 2 * Pow2(n - 1);
        PopHigh(y, n - 1);
        UnrankRank(n - 1, k - 1, y);
      }
    }
  }

  /** Unrank followed by Rank is the identity on positions. */
  lemma {:induction false} RankUnrank(n: nat, k: nat, i: nat)
    requires i < Binom(n, k)
    ensures Rank(n, k, Unrank(n, k, i)) == i
    decreases n
  {
    if k > 0 {
      var b := Binom(n - 1, k);
      if i < b {
        UnrankMember(n - 1, k, i);
        RankUnrank(n - 1, k, i);
      } else {
        UnrankMember(n - 1, k - 1, i - b);
        RankUnrank(n - 1, k - 1, i - b);
      }
    }
  }

  // ---------------------------------------------------------------------------
  // First and last

  /** The smallest k-bit value: the k lowest bits set. */
  lemma {:induction false} UnrankFirst(n: nat, k: nat)
    requires k <= n
    ensures Binom(n, k) >= 1 && Unrank(n, k, 0) == Pow2(k) - 1
    decreases n
  {
    BinomWithin(n, k);
    if k > 0 {
      if k <= n - 1 {
        BinomWithin(n - 1, k);
        UnrankFirst(n - 1, k);
      } else {
        BinomBeyond(n - 1, k);
        UnrankFirst(n - 1, k - 1);
        assert Pow2(k) == 2 * Pow2(k - 1);
      }
    }
  }

  /** The largest k-bit value below 2^n: k ones followed by n-k zeros. */
  lemma {:induction false} UnrankLast(n: nat, k: nat)
    requires 1 <= k <= n
    ensures Binom(n, k) >= 1 && Unrank(n, k, Binom(n, k) - 1) == TopRun(k, n - k)
    decreases n
  {
    BinomWithin(n - 1, k - 1);
    if k == 1 {
      TopRunGrow(1, n - 1);
      TopRunEmpty(n - 1);
    } else {
      UnrankLast(n - 1, k - 1);
      TopRunGrow(k, n - k);
      assert k - 1 + (n - k) == n - 1;
    }
  }

  // ---------------------------------------------------------------------------
  // The sequence view

  /** Combos(n, k) lists exactly the k-bit values below 2^n, each once, in increasing order. */
  lemma CombosExact(n: nat, k: nat, x: nat)
    ensures x in Combos(n, k) <==> x < Pow2(n) && Pop(x) == k
  {
    var c := Combos(n, k);
    if x in c {
      var i :| 0 <= i < |c| && c[i] == x;
      UnrankMember(n, k, i);
    }
    if x < Pow2(n) && Pop(x) == k {
      UnrankRank(n, k, x);
      assert c[Rank(n, k, x)] == x;
    }
  }

  predicate Increasing(s: seq<int>)
  {
    forall i, j :: 0 <= i < j < |s| ==> s[i] < s[j]
  }

  lemma CombosIncreasing(n: nat, k: nat)
    ensures Increasing(Combos(n, k))
  {
    var c := Combos(n, k);
    forall i, j | 0 <= i < j < |c|
      ensures c[i] < c[j]
    {
      UnrankIncreasing(n, k, i, j);
    }
  }
}
