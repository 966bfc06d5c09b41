/**
 * The two hand keys of card.rs.  `prime_product_from_rankbits` multiplies the
 * rank primes over the set bits of a 13-bit rank mask; `prime_product_from_hand`
 * multiplies the prime fields of a list of card codes.  Both are the product of
 * the primes of a sequence of ranks (`RankKey`), and by unique factorisation that
 * product determines the multiset of ranks, which is why a key can index the
 * lookup tables.
 */
module Keys {
  import opened Bits
  import opened Fields
  import opened Primes
  import opened Card
  import opened Sequences

  /** The prime of a rank. */
  function PrimeOf(r: Rank): nat
  {
    PRIMES[r]
  }

  /** The key of a sequence of ranks: the product of their primes. */
  function RankKey(rs: seq<Rank>): nat
  {
    ProductOf(rs, PrimeOf)
  }

  /** Larger ranks have larger primes. */
  lemma {:induction false} PrimesIncreasing(a: Rank, b: Rank)
    requires a < b
    ensures PRIMES[a] < PRIMES[b]
    decreases b - a
  {
    RankPrime(a);
    if a + 1 < b {
      PrimesIncreasing(a + 1, b);
    }
  }

  /** Every rank prime is prime, and distinct ranks have distinct primes. */
  lemma PrimeOfFacts()
    ensures forall x: Rank :: IsPrime(PrimeOf(x))
    ensures forall x: Rank :: PrimeOf(x) <= 41
    ensures forall x: Rank, y: Rank :: PrimeOf(x) == PrimeOf(y) ==> x == y
  {
    forall x: Rank
      ensures IsPrime(PrimeOf(x)) && PrimeOf(x) <= 41
    {
      RankPrime(x);
    }
    forall x: Rank, y: Rank | PrimeOf(x) == PrimeOf(y)
      ensures x == y
    {
      if x < y {
        PrimesIncreasing(x, y);
      } else if y < x {
        PrimesIncreasing(y, x);
      }
    }
  }

  /** Unique factorisation on ranks: two sequences of ranks have the same key exactly when they are permutations of each other. */
  lemma RankKeyInjective(a: seq<Rank>, b: seq<Rank>)
    ensures RankKey(a) == RankKey(b) <==> multiset(a) == multiset(b)
  {
    if multiset(a) == multiset(b) {
      ProductOfPermutation(a, b, PrimeOf);
    }
    if RankKey(a) == RankKey(b) {
      PrimeOfFacts();
      ProductOfInjective(a, b, PrimeOf);
    }
  }

  /** A key of n ranks is at most 41^n. */
  lemma RankKeyBound(rs: seq<Rank>)
    ensures 1 <= RankKey(rs) <= Power(41, |rs|)
  {
    PrimeOfFacts();
    ProductOfPrimesAtLeast(rs, PrimeOf);
    ProductOfBound(rs, PrimeOf, 41);
  }

  /** The key of two ranks and of five ranks, written out. */
  lemma RankKeyTwo(rs: seq<Rank>)
    requires |rs| == 2
    ensures RankKey(rs) == PRIMES[rs[0]] * PRIMES[rs[1]]
  {
    var t := rs[1..];
    assert t[0] == rs[1] && t[1..] == [];
    assert RankKey(t) == PRIMES[rs[1]] * RankKey([]);
  }

  lemma RankKeyFive(rs: seq<Rank>)
    requires |rs| == 5
    ensures RankKey(rs) == PRIMES[rs[0]] * (PRIMES[rs[1]] * (PRIMES[rs[2]] * (PRIMES[rs[3]] * PRIMES[rs[4]])))
  {
    var a, b, c := rs[1..], rs[2..], rs[3..];
    assert a[1..] == b && b[1..] == c;
    assert a[0] == rs[1] && b[0] == rs[2] && c[0] == rs[3] && c[1] == rs[4];
    RankKeyTwo(c);
    assert RankKey(b) == PRIMES[rs[2]] * RankKey(c);
    assert RankKey(a) == PRIMES[rs[1]] * RankKey(b);
  }

  // ---------------------------------------------------------------------------
  // prime_product_from_rankbits

  /**
   * prime_product_from_rankbits: walk INT_RANKS in order and multiply in the
   * prime of every rank whose bit `1 << i` is set in the mask.
   */
  function PrimeProductFromRankBits(rankbits: nat): nat
  {
    RankBitsLoop(rankbits, 0, 1)
  }

  /** The loop of prime_product_from_rankbits from position i on, with the product so far. */
  function RankBitsLoop(rankbits: nat, i: nat, product: nat): nat
    decreases |INT_RANKS| - i
  {
    if i >= |INT_RANKS| then product
    else if And(rankbits, Shl(1, INT_RANKS[i])) != 0 then RankBitsLoop(rankbits, i + 1, product * PRIMES[INT_RANKS[i]])
    else RankBitsLoop(rankbits, i + 1, product)
  }

  /** The ranks i..12 whose bits are set in m, in increasing order. */
  function RanksFrom(m: nat, i: nat): seq<Rank>
    requires i <= 13
    decreases 13 - i
  {
    if i == 13 then [] else (if Bit(m, i) then [i as Rank] else []) + RanksFrom(m, i + 1)
  }

  /** The ranks whose bits are set in a rank mask, in increasing order. */
  function RanksOf(m: nat): seq<Rank>
  {
    RanksFrom(m, 0)
  }

  predicate StrictlyIncreasing(rs: seq<Rank>)
  {
    forall a, b :: 0 <= a < b < |rs| ==> rs[a] < rs[b]
  }

  /** One step of RanksFrom: rank i is listed first exactly when its bit is set. */
  lemma RanksFromStep(m: nat, i: nat)
    requires i < 13
    ensures RanksFrom(m, i) == if Bit(m, i) then [i as Rank] + RanksFrom(m, i + 1) else RanksFrom(m, i + 1)
  {
    if !Bit(m, i) {
      assert [] + RanksFrom(m, i + 1) == RanksFrom(m, i + 1);
    }
  }

  /** RanksFrom lists exactly the set bits from position i on. */
  lemma {:induction false} RanksFromMembers(m: nat, i: nat)
    requires i <= 13
    ensures forall x: Rank :: x in RanksFrom(m, i) <==> i <= x && Bit(m, x)
    decreases 13 - i
  {
    if i < 13 {
      RanksFromMembers(m, i + 1);
    }
  }

  /** Putting a smaller rank in front keeps a sequence increasing. */
  lemma IncreasingCons(r: Rank, rest: seq<Rank>, rs: seq<Rank>)
    requires StrictlyIncreasing(rest)
    requires forall x :: x in rest ==> r < x
    requires rs == [r] + rest
    ensures StrictlyIncreasing(rs)
  {
    forall a, b | 0 <= a < b < |rs|
      ensures rs[a] < rs[b]
    {
      assert rs[b] == rest[b - 1] && rest[b - 1] in rest;
      if a > 0 {
        assert rs[a] == rest[a - 1];
      }
    }
  }

  /** RanksFrom lists no rank below i. */
  lemma {:induction false} RanksFromAbove(m: nat, i: nat)
    requires i <= 13
    ensures forall x :: x in RanksFrom(m, i) ==> i <= x
    decreases 13 - i
  {
    if i < 13 {
      RanksFromAbove(m, i + 1);
      RanksFromStep(m, i);
    }
  }

  /** RanksFrom lists the set bits in increasing order. */
  lemma {:induction false} RanksFromIncreasing(m: nat, i: nat)
    requires i <= 13
    ensures StrictlyIncreasing(RanksFrom(m, i))
    decreases 13 - i
  {
    if i < 13 {
      var rest := RanksFrom(m, i + 1);
      RanksFromIncreasing(m, i + 1);
      RanksFromStep(m, i);
      if Bit(m, i) {
        RanksFromAbove(m, i + 1);
        IncreasingCons(i as Rank, rest, RanksFrom(m, i));
      }
    }
  }

  /** The ranks of a mask are exactly its set bits below 13, each once. */
  lemma RanksOfMembers(m: nat)
    ensures forall x: Rank :: x in RanksOf(m) <==> Bit(m, x)
    ensures StrictlyIncreasing(RanksOf(m))
  {
    RanksFromMembers(m, 0);
    RanksFromIncreasing(m, 0);
  }

  /** One round of the loop of prime_product_from_rankbits, as written. */
  lemma RankBitsRound(m: nat, i: nat, acc: nat)
    requires i < 13
    ensures RankBitsLoop(m, i, acc) ==
      if And(m, Shl(1, INT_RANKS[i])) != 0 then RankBitsLoop(m, i + 1, acc * PRIMES[INT_RANKS[i]])
      else RankBitsLoop(m, i + 1, acc)
  {
  }

  /** INT_RANKS lists the ranks in order. */
  lemma IntRanksIdentity(i: nat)
    requires i < 13
    ensures INT_RANKS[i] == i
  {
  }

  /** Round i tests the mask with 2^i, so rank i's prime joins exactly when its bit is set. */
  lemma RankBitsStep(m: nat, i: nat, acc: nat)
    requires i < 13
    ensures RankBitsLoop(m, i, acc) == if Bit(m, i) then RankBitsLoop(m, i + 1, acc * PRIMES[i]) else RankBitsLoop(m, i + 1, acc)
  {
    RankBitsRound(m, i, acc);
    IntRanksIdentity(i);
    assert Shl(1, INT_RANKS[i]) == Pow2(i);
    AndBit(m, i);
  }

  /** From position i on, the loop multiplies the product so far by the key of the remaining ranks. */
  lemma {:induction false} RankBitsLoopKey(m: nat, i: nat, acc: nat)
    requires i <= 13
    ensures RankBitsLoop(m, i, acc) == acc * RankKey(RanksFrom(m, i))
    decreases 13 - i
  {
    if i < 13 {
      var p: nat := PRIMES[i];
      var next: nat := acc * p;
      var rest := RanksFrom(m, i + 1);
      RankBitsStep(m, i, acc);
      if Bit(m, i) {
        RankBitsLoopKey(m, i + 1, next);
        assert RanksFrom(m, i) == [i as Rank] + rest;
        assert RankKey([i as Rank] + rest) == p * RankKey(rest);
        MulAssoc(acc, p, RankKey(rest));
      } else {
        RankBitsLoopKey(m, i + 1, acc);
        assert RanksFrom(m, i) == rest;
      }
    }
  }

  /** prime_product_from_rankbits is the key of the ranks whose bits are set. */
  lemma RankBitsKey(m: nat)
    ensures PrimeProductFromRankBits(m) == RankKey(RanksOf(m))
  {
    RankBitsLoopKey(m, 0, 1);
  }

  /** Bits 13 and above do not matter. */
  lemma RankBitsIgnoreHigh(m: nat)
    ensures PrimeProductFromRankBits(m) == PrimeProductFromRankBits(m % Pow2(13))
  {
    var low := m % Pow2(13);
    forall x: Rank
      ensures Bit(m, x) == Bit(low, x)
    {
      assert m == (m / Pow2(13)) * Pow2(13) + low;
      BitPackedLow(m / Pow2(13), low, 13, x);
    }
    SameRanks(m, low);
    RankBitsKey(m);
    RankBitsKey(low);
  }

  /** Masks with the same bits below 13 have the same ranks. */
  lemma SameRanks(m: nat, n: nat)
    requires forall x: Rank :: Bit(m, x) == Bit(n, x)
    ensures RanksOf(m) == RanksOf(n)
  {
    SameRanksFrom(m, n, 0);
  }

  lemma {:induction false} SameRanksFrom(m: nat, n: nat, i: nat)
    requires i <= 13
    requires forall x: Rank :: Bit(m, x) == Bit(n, x)
    ensures RanksFrom(m, i) == RanksFrom(n, i)
    decreases 13 - i
  {
    if i < 13 {
      SameRanksFrom(m, n, i + 1);
      assert Bit(m, i) == Bit(n, i);
    }
  }

  /** The empty mask gives the empty product. */
  lemma RankBitsEmpty()
    ensures PrimeProductFromRankBits(0) == 1
  {
    RankBitsKey(0);
    forall x: Rank
      ensures !Bit(0, x)
    {
      ShrZero(x);
    }
    if |RanksOf(0)| > 0 {
      RanksOfMembers(0);
      assert RanksOf(0)[0] in RanksOf(0);
    }
  }

  /** Distinct 13-bit masks have distinct keys, so a rank mask can be recovered from its key. */
  lemma RankBitsInjective(m: nat, n: nat)
    requires m < Pow2(13) && n < Pow2(13)
    ensures PrimeProductFromRankBits(m) == PrimeProductFromRankBits(n) <==> m == n
  {
    if PrimeProductFromRankBits(m) == PrimeProductFromRankBits(n) {
      RankBitsKey(m);
      RankBitsKey(n);
      RankKeyInjective(RanksOf(m), RanksOf(n));
      RanksOfMembers(m);
      RanksOfMembers(n);
      forall x: nat | x < 13
        ensures Bit(m, x) <==> Bit(n, x)
      {
        assert x in multiset(RanksOf(m)) <==> x in multiset(RanksOf(n));
      }
      SameBits(m, n, 13);
    }
  }

  /** A mask below 2^13 has as many ranks as set bits. */
  lemma RanksOfCount(m: nat)
    requires m < Pow2(13)
    ensures |RanksOf(m)| == Pop(m)
  {
    RanksFromCount(m, 0);
  }

  lemma {:induction false} RanksFromCount(m: nat, i: nat)
    requires m < Pow2(13) && i <= 13
    ensures |RanksFrom(m, i)| == Pop(Shr(m, i))
    decreases 13 - i
  {
    if i == 13 {
      ShrPacked(0, m, 13);
    } else {
      RanksFromCount(m, i + 1);
      ShrAdd(m, i, 1);
      PopStep(Shr(m, i), Shr(m, i) % 2, Shr(m, i) / 2);
    }
  }

  /** A mask's key is the key of any repeat-free sequence of exactly its ranks. */
  lemma RankBitsOfRanks(m: nat, rs: seq<Rank>)
    requires NoDup(rs)
    requires forall x: Rank :: Bit(m, x) <==> x in rs
    ensures PrimeProductFromRankBits(m) == RankKey(rs)
  {
    RankBitsKey(m);
    RanksOfMembers(m);
    assert NoDup(RanksOf(m));
    SameElements(RanksOf(m), rs);
    RankKeyInjective(RanksOf(m), rs);
  }

  /** The rank mask with the bits of the given ranks set. */
  function RankMask(rs: seq<Rank>): nat
  {
    if |rs| == 0 then 0 else RankMask(rs[..|rs| - 1]) + Pow2(rs[|rs| - 1])
  }

  /** The mask of increasing ranks stays below the bit after its highest rank. */
  lemma {:induction false} RankMaskBound(rs: seq<Rank>)
    requires StrictlyIncreasing(rs)
    ensures |rs| > 0 ==> RankMask(rs) < Pow2(rs[|rs| - 1] as nat + 1)
  {
    if |rs| > 1 {
      var init := rs[..|rs| - 1];
      RankMaskBound(init);
      Pow2Monotone(init[|init| - 1] as nat + 1, rs[|rs| - 1]);
    }
  }

  /** Splitting the highest rank off an increasing sequence and off its mask. */
  lemma RankMaskLast(rs: seq<Rank>)
    requires StrictlyIncreasing(rs) && |rs| > 0
    ensures var init, last := rs[..|rs| - 1], rs[|rs| - 1];
      && StrictlyIncreasing(init)
      && RankMask(rs) == 1 * Pow2(last) + RankMask(init)
      && RankMask(init) < Pow2(last)
      && (forall x :: x in rs <==> x in init || x == last)
      && (forall x :: x in init ==> x < last)
  {
    var init, last := rs[..|rs| - 1], rs[|rs| - 1];
    assert rs == init + [last];
    if |init| > 0 {
      RankMaskBound(init);
      Pow2Monotone(init[|init| - 1] as nat + 1, last);
    }
  }

  /** The mask of increasing ranks has exactly those ranks' bits set. */
  lemma {:induction false} RankMaskBit(rs: seq<Rank>, n: nat)
    requires StrictlyIncreasing(rs)
    ensures Bit(RankMask(rs), n) <==> n in rs
  {
    if |rs| == 0 {
      ShrZero(n);
    } else {
      var init, last := rs[..|rs| - 1], rs[|rs| - 1];
      RankMaskLast(rs);
      var low := RankMask(init);
      if n < last {
        BitPackedLow(1, low, last, n);
        RankMaskBit(init, n);
      } else {
        BitPackedHigh(1, low, last, n);
        if n > last {
          ShrZero(n - last - 1);
        }
      }
    }
  }

  /** The mask of increasing ranks has one bit per rank. */
  lemma {:induction false} RankMaskPop(rs: seq<Rank>)
    requires StrictlyIncreasing(rs)
    ensures Pop(RankMask(rs)) == |rs|
    decreases |rs|
  {
    if |rs| > 0 {
      var init, last := rs[..|rs| - 1], rs[|rs| - 1];
      RankMaskLast(rs);
      RankMaskPop(init);
      PopHigh(RankMask(init), last);
    }
  }

  /** The key of the mask of increasing ranks is the key of those ranks. */
  lemma RankMaskKey(rs: seq<Rank>)
    requires StrictlyIncreasing(rs)
    ensures PrimeProductFromRankBits(RankMask(rs)) == RankKey(rs)
  {
    forall x: Rank
      ensures Bit(RankMask(rs), x) <==> x in rs
    {
      RankMaskBit(rs, x);
    }
    RankBitsOfRanks(RankMask(rs), rs);
  }

  /** The mask of two ranks and of five ranks, written out. */
  lemma RankMaskTwo(rs: seq<Rank>)
    requires |rs| == 2
    ensures RankMask(rs) == Pow2(rs[0]) + Pow2(rs[1])
  {
    var t := rs[..1];
    assert t[0] == rs[0] && t[..0] == [];
    assert RankMask(t) == RankMask([]) + Pow2(rs[0]);
  }

  lemma RankMaskFive(rs: seq<Rank>)
    requires |rs| == 5
    ensures RankMask(rs) == Pow2(rs[0]) + Pow2(rs[1]) + Pow2(rs[2]) + Pow2(rs[3]) + Pow2(rs[4])
  {
    var a, b, c := rs[..4], rs[..3], rs[..2];
    assert a[..3] == b && b[..2] == c;
    assert a[3] == rs[3] && b[2] == rs[2] && c[0] == rs[0] && c[1] == rs[1];
    RankMaskTwo(c);
    assert RankMask(b) == RankMask(c) + Pow2(rs[2]);
    assert RankMask(a) == RankMask(b) + Pow2(rs[3]);
  }

  // Worked examples of prime_product_from_rankbits: each pins a mask and its
  // ranks, and reads the product off the ranks' key.  The mask and the ranks
  // are parameters fixed by the precondition rather than literals, which keeps
  // the verifier from unfolding the recursive functions on constants.

  lemma AceDeuceBits(m: nat, rs: seq<Rank>)
    requires m == 4097 && rs == [0, 12]
    ensures PrimeProductFromRankBits(m) == 82
  {
    RankMaskTwo(rs);
    assert RankMask(rs) == m;
    RankKeyTwo(rs);
    assert RankKey(rs) == 82;
    RankMaskKey(rs);
  }

  lemma AceTreyBits(m: nat, rs: seq<Rank>)
    requires m == 4098 && rs == [1, 12]
    ensures PrimeProductFromRankBits(m) == 123
  {
    RankMaskTwo(rs);
    assert RankMask(rs) == m;
    RankKeyTwo(rs);
    assert RankKey(rs) == 123;
    RankMaskKey(rs);
  }

  lemma AceFourBits(m: nat, rs: seq<Rank>)
    requires m == 4100 && rs == [2, 12]
    ensures PrimeProductFromRankBits(m) == 205
  {
    RankMaskTwo(rs);
    assert RankMask(rs) == m;
    RankKeyTwo(rs);
    assert RankKey(rs) == 205;
    RankMaskKey(rs);
  }

  lemma AceEightBits(m: nat, rs: seq<Rank>)
    requires m == 4160 && rs == [6, 12]
    ensures PrimeProductFromRankBits(m) == 697
  {
    RankMaskTwo(rs);
    assert RankMask(rs) == m;
    RankKeyTwo(rs);
    assert RankKey(rs) == 697;
    RankMaskKey(rs);
  }

  lemma BroadwayBits(m: nat, rs: seq<Rank>)
    requires m == 7936 && rs == [8, 9, 10, 11, 12]
    ensures PrimeProductFromRankBits(m) == 31367009
  {
    RankMaskFive(rs);
    assert RankMask(rs) == m;
    RankKeyFive(rs);
    assert RankKey(rs) == 31367009;
    RankMaskKey(rs);
  }

  lemma EightHighBits(m: nat, rs: seq<Rank>)
    requires m == 124 && rs == [2, 3, 4, 5, 6]
    ensures PrimeProductFromRankBits(m) == 85085
  {
    RankMaskFive(rs);
    assert RankMask(rs) == m;
    RankKeyFive(rs);
    assert RankKey(rs) == 85085;
    RankMaskKey(rs);
  }

  lemma SevenHighBits(m: nat, rs: seq<Rank>)
    requires m == 62 && rs == [1, 2, 3, 4, 5]
    ensures PrimeProductFromRankBits(m) == 15015
  {
    RankMaskFive(rs);
    assert RankMask(rs) == m;
    RankKeyFive(rs);
    assert RankKey(rs) == 15015;
    RankMaskKey(rs);
  }

  lemma SixHighBits(m: nat, rs: seq<Rank>)
    requires m == 31 && rs == [0, 1, 2, 3, 4]
    ensures PrimeProductFromRankBits(m) == 2310
  {
    RankMaskFive(rs);
    assert RankMask(rs) == m;
    RankKeyFive(rs);
    assert RankKey(rs) == 2310;
    RankMaskKey(rs);
  }

  lemma WheelBits(m: nat, rs: seq<Rank>)
    requires m == 4111 && rs == [0, 1, 2, 3, 12]
    ensures PrimeProductFromRankBits(m) == 8610
  {
    RankMaskFive(rs);
    assert RankMask(rs) == m;
    RankKeyFive(rs);
    assert RankKey(rs) == 8610;
    RankMaskKey(rs);
  }

  // ---------------------------------------------------------------------------
  // prime_product_from_hand

  /** The low byte of a code: the prime of its rank. */
  function LowByte(c: nat): nat
  {
    And(c, 0xFF)
  }

  /** prime_product_from_hand: multiply the low bytes of the codes, in order. */
  function PrimeProductFromHand(cards: seq<nat>): nat
  {
    HandLoop(cards, 0, 1)
  }

  /** The loop of prime_product_from_hand from position i on, with the product so far. */
  function HandLoop(cards: seq<nat>, i: nat, product: nat): nat
    decreases |cards| - i
  {
    if i >= |cards| then product else HandLoop(cards, i + 1, product * And(cards[i], 0xFF))
  }

  lemma {:induction false} HandLoopProduct(cards: seq<nat>, i: nat, acc: nat)
    requires i <= |cards|
    ensures HandLoop(cards, i, acc) == acc * ProductOf(cards[i..], LowByte)
    decreases |cards| - i
  {
    if i < |cards| {
      HandLoopProduct(cards, i + 1, acc * LowByte(cards[i]));
      assert cards[i..][1..] == cards[i + 1..];
      MulAssoc(acc, LowByte(cards[i]), ProductOf(cards[i + 1..], LowByte));
    }
  }

  /** prime_product_from_hand is the product of the low bytes. */
  lemma HandProduct(cards: seq<nat>)
    ensures PrimeProductFromHand(cards) == ProductOf(cards, LowByte)
  {
    HandLoopProduct(cards, 0, 1);
    assert cards[0..] == cards;
  }

  /** The order of the cards does not matter. */
  lemma HandPermutation(a: seq<nat>, b: seq<nat>)
    requires multiset(a) == multiset(b)
    ensures PrimeProductFromHand(a) == PrimeProductFromHand(b)
  {
    HandProduct(a);
    HandProduct(b);
    ProductOfPermutation(a, b, LowByte);
  }

  predicate AllCards(cards: seq<nat>)
  {
    forall i :: 0 <= i < |cards| ==> IsCard(cards[i])
  }

  /** The ranks of a list of valid codes. */
  function CardRanks(cards: seq<nat>): (rs: seq<Rank>)
    requires AllCards(cards)
    ensures |rs| == |cards| && forall i :: 0 <= i < |cards| ==> rs[i] == CardRank(cards[i])
  {
    seq(|cards|, i requires 0 <= i < |cards| => CardRank(cards[i]))
  }

  /** The low byte of a valid code is the prime of its rank. */
  lemma LowBytePrime(c: nat)
    requires IsCard(c)
    ensures LowByte(c) == PrimeOf(CardRank(c))
  {
    EncodeFields(CardRank(c), CardSuit(c));
  }

  /** For valid codes prime_product_from_hand is the key of their ranks. */
  lemma HandKey(cards: seq<nat>)
    requires AllCards(cards)
    ensures PrimeProductFromHand(cards) == RankKey(CardRanks(cards))
  {
    HandProduct(cards);
    forall i | 0 <= i < |cards|
      ensures LowByte(cards[i]) == PrimeOf(CardRanks(cards)[i])
    {
      LowBytePrime(cards[i]);
    }
    ProductOfPointwise(cards, LowByte, CardRanks(cards), PrimeOf);
  }

  /** For five valid codes the product is at most 41^5, well inside a u32. */
  lemma HandKeyBound(cards: seq<nat>)
    requires AllCards(cards) && |cards| == 5
    ensures PrimeProductFromHand(cards) <= 115856201 < 0x1_0000_0000
  {
    HandKey(cards);
    RankKeyBound(CardRanks(cards));
    assert Power(41, 5) == 115856201;
  }

  /**
   * The flush key and the unsuited key agree: for valid codes of pairwise
   * distinct ranks, the rank-bit product of the OR of the codes shifted right by
   * 16 is prime_product_from_hand.
   */
  lemma HandKeyAgreement(cards: seq<nat>)
    requires AllCards(cards)
    requires NoDup(CardRanks(cards))
    ensures PrimeProductFromRankBits(Shr(OrAll(cards), 16)) == PrimeProductFromHand(cards)
  {
    var rs := CardRanks(cards);
    forall x: Rank
      ensures Bit(Shr(OrAll(cards), 16), x) <==> x in rs
    {
      HandRankBit(cards, x);
    }
    RankBitsOfRanks(Shr(OrAll(cards), 16), rs);
    HandKey(cards);
  }

  /** Bit x of the OR of valid codes shifted right by 16 is set exactly when one of them has rank x. */
  lemma HandRankBit(cards: seq<nat>, x: Rank)
    requires AllCards(cards)
    ensures Bit(Shr(OrAll(cards), 16), x) <==> x in CardRanks(cards)
  {
    ShrAdd(OrAll(cards), 16, x);
    assert Bit(Shr(OrAll(cards), 16), x) == Bit(OrAll(cards), 16 + x);
    BitOrAll(cards, 16 + x);
    forall i | 0 <= i < |cards|
      ensures Bit(cards[i], 16 + x) <==> CardRank(cards[i]) == x
    {
      EncodeRankBit(CardRank(cards[i]), CardSuit(cards[i]), x);
    }
  }
}
