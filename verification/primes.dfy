/**
 * Products of sequences and the fact behind the evaluator's keys: a product of
 * primes determines which primes were multiplied, with multiplicity.
 */
module Primes {

  predicate IsPrime(p: nat)
  {
    p >= 2 && forall d :: 2 <= d < p ==> p % d != 0
  }

  /** A decidable form of primality for concrete numbers: no divisor in d..p-1. */
  predicate NoDivisorFrom(p: nat, d: nat)
    requires d >= 2
    decreases p - d
  {
    d >= p || (p % d != 0 && NoDivisorFrom(p, d + 1))
  }

  lemma {:induction false} NoDivisorSound(p: nat, d: nat)
    requires d >= 2 && NoDivisorFrom(p, d)
    ensures forall e :: d <= e < p ==> p % e != 0
    decreases p - d
  {
    if d < p {
      NoDivisorSound(p, d + 1);
    }
  }

  lemma PrimeByTrialDivision(p: nat)
    requires p >= 2 && NoDivisorFrom(p, 2)
    ensures IsPrime(p)
  {
    NoDivisorSound(p, 2);
  }

  // ---------------------------------------------------------------------------
  // Euclid's lemma

  /** Quotient and remainder are the only ones: a == b * q + r with 0 <= r < b fixes q and r. */
  lemma DivModUnique(a: int, b: nat, q: int, r: int)
    requires b > 0 && a == b * q + r && 0 <= r < b
    ensures a / b == q && a % b == r
  {
    var d := q - a / b;
    assert b * d == a % b - r;
    MulBound(b, d);
  }

  lemma MulBound(b: nat, d: int)
    ensures d >= 1 ==> b * d >= b
    ensures d <= -1 ==> b * d + b <= 0
  {
    if d >= 1 {
      assert b * d == b * (d - 1) + b;
    } else if d <= -1 {
      assert b * d == b * (d + 1) - b;
    }
  }

  lemma MultipleMod(p: nat, y: int)
    requires p > 0
    ensures (p * y) % p == 0
  {
    DivModUnique(p * y, p, y, 0);
  }

  /** A prime dividing a * b with 0 < a < p divides b. */
  lemma {:induction false} EuclidBelow(p: nat, a: nat, b: nat)
    requires IsPrime(p) && 0 < a < p && (a * b) % p == 0
    ensures b % p == 0
    decreases a
  {
    if a > 1 {
      assert p % a != 0;
      var q, r := p / a, p % a;
      var m := (a * b) / p;
      assert a * b == p * m;
      assert r * b == p * (b - q * m) by {
        assert p == q * a + r;
        calc {
          r * b;
          (p - q * a) * b;
          p * b - q * (a * b);
          p * b - q * (p * m);
          p * (b - q * m);
        }
      }
      MultipleMod(p, b - q * m);
      EuclidBelow(p, r, b);
    }
  }

  /** Euclid's lemma: a prime dividing a product divides one of the factors. */
  lemma Euclid(p: nat, a: nat, b: nat)
    requires IsPrime(p) && (a * b) % p == 0
    ensures a % p == 0 || b % p == 0
  {
    var r := a % p;
    if r != 0 {
      var q := a / p;
      assert a * b == p * (q * b) + r * b;
      assert (r * b) % p == 0 by {
        assert r * b == a * b - p * (q * b);
        var m := (a * b) / p;
        assert a * b == p * m;
        assert r * b == p * (m - q * b);
        MultipleMod(p, m - q * b);
      }
      EuclidBelow(p, r, b);
    }
  }

  /** A prime divides another prime only when the two are equal. */
  lemma PrimeDividesPrime(p: nat, q: nat)
    requires IsPrime(p) && IsPrime(q)
    ensures q % p == 0 <==> p == q
  {
    if p > q {
      DivModUnique(q, p, 0, q);
    } else if p < q {
      assert q % p != 0;
    } else {
      MultipleMod(p, 1);
    }
  }

  // ---------------------------------------------------------------------------
  // Products of sequences

  /** The product of f over the elements of s, taken left to right. */
  function ProductOf<T>(s: seq<T>, f: T -> nat): nat
    decreases |s|
  {
    if |s| == 0 then 1 else f(s[0]) * ProductOf(s[1..], f)
  }

  lemma {:induction false} ProductOfAppend<T>(s: seq<T>, t: seq<T>, f: T -> nat)
    ensures ProductOf(s + t, f) == ProductOf(s, f) * ProductOf(t, f)
    decreases |s|
  {
    if |s| > 0 {
      assert (s + t)[0] == s[0] && (s + t)[1..] == s[1..] + t;
      assert ProductOf(s + t, f) == f(s[0]) * ProductOf(s[1..] + t, f);
      ProductOfAppend(s[1..], t, f);
      MulAssoc(f(s[0]), ProductOf(s[1..], f), ProductOf(t, f));
    } else {
      assert s + t == t;
    }
  }

  lemma MulAssoc(a: int, b: int, c: int)
    ensures a * (b * c) == (a * b) * c
  {
  }

  lemma MulSwap(a: int, b: int, c: int)
    ensures a * (b * c) == b * (a * c)
  {
  }

  /** Taking one factor out of a product. */
  lemma ProductOfRemove<T>(s: seq<T>, j: nat, f: T -> nat)
    requires j < |s|
    ensures ProductOf(s, f) == f(s[j]) * ProductOf(s[..j] + s[j + 1..], f)
  {
    assert s == s[..j] + s[j..];
    ProductOfAppend(s[..j], s[j..], f);
    assert s[j..][1..] == s[j + 1..];
    ProductOfAppend(s[..j], s[j + 1..], f);
    MulSwap(ProductOf(s[..j], f), f(s[j]), ProductOf(s[j + 1..], f));
  }

  /** Removing position j removes one occurrence of t[j]. */
  lemma MultisetRemove<T>(t: seq<T>, j: nat)
    requires j < |t|
    ensures multiset(t[..j] + t[j + 1..]) == multiset(t) - multiset{t[j]}
    ensures multiset(t) == multiset(t[..j] + t[j + 1..]) + multiset{t[j]}
  {
    assert t == t[..j] + [t[j]] + t[j + 1..];
  }

  /** A product does not depend on the order of its factors. */
  lemma {:induction false} ProductOfPermutation<T>(s: seq<T>, t: seq<T>, f: T -> nat)
    requires multiset(s) == multiset(t)
    ensures ProductOf(s, f) == ProductOf(t, f)
    decreases |s|
  {
    if |s| > 0 {
      assert s[0] in multiset(t);
      var j :| 0 <= j < |t| && t[j] == s[0];
      UnmatchedTails(s, t, j);
      ProductOfPermutation(s[1..], t[..j] + t[j + 1..], f);
      ProductOfRemove(t, j, f);
    }
  }

  /** A prime dividing a product of primes is one of them. */
  lemma {:induction false} PrimeDividesProduct<T>(p: nat, s: seq<T>, f: T -> nat)
    requires IsPrime(p) && ProductOf(s, f) % p == 0
    requires forall i :: 0 <= i < |s| ==> IsPrime(f(s[i]))
    ensures exists i :: 0 <= i < |s| && f(s[i]) == p
    decreases |s|
  {
    DivModUnique(1, p, 0, 1);
    if |s| > 0 {
      Euclid(p, f(s[0]), ProductOf(s[1..], f));
      PrimeDividesPrime(p, f(s[0]));
      if f(s[0]) % p == 0 {
      } else {
        PrimeDividesProduct(p, s[1..], f);
        var i :| 0 <= i < |s[1..]| && f(s[1..][i]) == p;
        assert f(s[i + 1]) == p;
      }
    }
  }

  /** A product of primes is at least 2 unless it is empty. */
  lemma {:induction false} ProductOfPrimesAtLeast<T>(s: seq<T>, f: T -> nat)
    requires forall i :: 0 <= i < |s| ==> IsPrime(f(s[i]))
    ensures |s| == 0 <==> ProductOf(s, f) == 1
    ensures ProductOf(s, f) >= 1
    decreases |s|
  {
    if |s| > 0 {
      ProductOfPrimesAtLeast(s[1..], f);
      assert IsPrime(f(s[0]));
    }
  }

  /**
   * Unique factorisation for products over an injective, prime-valued f: equal
   * products come from the same multiset of arguments.
   */
  lemma {:induction false} ProductOfInjective<T>(s: seq<T>, t: seq<T>, f: T -> nat)
    requires forall x :: IsPrime(f(x))
    requires forall x, y :: f(x) == f(y) ==> x == y
    requires ProductOf(s, f) == ProductOf(t, f)
    ensures multiset(s) == multiset(t)
    decreases |s|
  {
    ProductOfPrimesAtLeast(s, f);
    ProductOfPrimesAtLeast(t, f);
    if |s| > 0 {
      var j := SharedFactor(s, t, f);
      RemainingFactors(s, t, j, f);
      ProductOfInjective(s[1..], t[..j] + t[j + 1..], f);
      MatchedHeads(s, t, j);
    }
  }

  /** With the shared factor taken out, the remaining products still agree. */
  lemma RemainingFactors<T>(s: seq<T>, t: seq<T>, j: nat, f: T -> nat)
    requires |s| > 0 && j < |t| && t[j] == s[0]
    requires forall x :: IsPrime(f(x))
    requires ProductOf(s, f) == ProductOf(t, f)
    ensures ProductOf(s[1..], f) == ProductOf(t[..j] + t[j + 1..], f)
  {
    ProductOfRemove(t, j, f);
    assert IsPrime(f(s[0]));
    Cancel(f(s[0]), ProductOf(s[1..], f), ProductOf(t[..j] + t[j + 1..], f));
  }

  /** Equal multisets stay equal once a common element is taken out of both. */
  lemma UnmatchedTails<T>(s: seq<T>, t: seq<T>, j: nat)
    requires |s| > 0 && j < |t| && t[j] == s[0] && multiset(s) == multiset(t)
    ensures multiset(s[1..]) == multiset(t[..j] + t[j + 1..])
  {
    MultisetRemove(t, j);
    assert s == [s[0]] + s[1..];
    CancelExtension(multiset(s), multiset(t), multiset(s[1..]), multiset(t[..j] + t[j + 1..]), s[0]);
  }

  /** Matching heads and equal remainders give equal multisets. */
  lemma MatchedHeads<T>(s: seq<T>, t: seq<T>, j: nat)
    requires |s| > 0 && j < |t| && t[j] == s[0]
    requires multiset(s[1..]) == multiset(t[..j] + t[j + 1..])
    ensures multiset(s) == multiset(t)
  {
    MultisetRemove(t, j);
    assert s == [s[0]] + s[1..];
    SameExtension(multiset(s), multiset(t), multiset(s[1..]), multiset(t[..j] + t[j + 1..]), s[0]);
  }

  /** The first factor of s also occurs in t when the two products agree. */
  lemma SharedFactor<T>(s: seq<T>, t: seq<T>, f: T -> nat) returns (j: nat)
    requires |s| > 0
    requires forall x :: IsPrime(f(x))
    requires forall x, y :: f(x) == f(y) ==> x == y
    requires ProductOf(s, f) == ProductOf(t, f)
    ensures j < |t| && t[j] == s[0]
  {
    MultipleMod(f(s[0]), ProductOf(s[1..], f));
    PrimeDividesProduct(f(s[0]), t, f);
    j :| 0 <= j < |t| && f(t[j]) == f(s[0]);
  }

  lemma SameExtension<T>(a: multiset<T>, b: multiset<T>, a': multiset<T>, b': multiset<T>, x: T)
    requires a == a' + multiset{x} && b == b' + multiset{x} && a' == b'
    ensures a == b
  {
  }

  lemma CancelExtension<T>(a: multiset<T>, b: multiset<T>, a': multiset<T>, b': multiset<T>, x: T)
    requires a == a' + multiset{x} && b == b' + multiset{x} && a == b
    ensures a' == b'
  {
    assert a' == a - multiset{x};
  }

  lemma Cancel(p: nat, a: int, b: int)
    requires p > 0 && p * a == p * b
    ensures a == b
  {
    MulBound(p, a - b);
    assert p * (a - b) == 0;
  }

  /** Products of factor-wise equal sequences are equal. */
  lemma {:induction false} ProductOfPointwise<T, U>(s: seq<T>, f: T -> nat, t: seq<U>, g: U -> nat)
    requires |s| == |t| && forall i :: 0 <= i < |s| ==> f(s[i]) == g(t[i])
    ensures ProductOf(s, f) == ProductOf(t, g)
    decreases |s|
  {
    if |s| > 0 {
      ProductOfPointwise(s[1..], f, t[1..], g);
    }
  }

  /** b to the power n. */
  function Power(b: nat, n: nat): (r: nat)
    ensures b >= 1 ==> r >= 1
  {
    if n == 0 then 1 else b * Power(b, n - 1)
  }

  /** A product of n factors, each at most b, is at most b^n. */
  lemma {:induction false} ProductOfBound<T>(s: seq<T>, f: T -> nat, b: nat)
    requires forall i :: 0 <= i < |s| ==> f(s[i]) <= b
    ensures ProductOf(s, f) <= Power(b, |s|)
    decreases |s|
  {
    if |s| > 0 {
      ProductOfBound(s[1..], f, b);
      MulMonotone(f(s[0]), b, ProductOf(s[1..], f), Power(b, |s| - 1));
    }
  }

  lemma MulMonotone(a: nat, b: nat, c: nat, d: nat)
    requires a <= b && c <= d
    ensures a * c <= b * d
  {
    assert a * c <= b * c;
    assert b * c <= b * d;
  }
}
