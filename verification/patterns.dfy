/**
 * The rank patterns of `flushes` in lookup.rs: the 1277 five-rank masks that
 * are not straights, strongest first.  They are what the generator produces
 * from 0b11111 once the straights are filtered out, so they are exactly the
 * 13-bit masks with five bits set that are not one of the ten straights; and
 * because their masks differ, so do their prime-product keys.
 */
module Patterns {
  import opened Bits
  import opened Enumeration
  import opened BitSequence
  import opened Sequences
  import opened Keys
  import opened Combinations
  import opened Lookup

  /** A mask of five distinct ranks. */
  predicate FiveRanks(x: int)
  {
    0 <= x < 0x2000 && Pop(x) == 5
  }

  /** The outputs of the generator that `flushes` filters. */
  function Drawn(): seq<int>
  {
    Generate(0x1F, 1277 + |STRAIGHT_FLUSHES| - 1)
  }

  /**
   * The powers the generator's bounds use.  The exponents are parameters pinned
   * by the precondition rather than literals in the ensures, which keeps the
   * verifier from unfolding Pow2 on constants wherever the lemma is used; the
   * same holds for the pinned parameters of the lemmas below.
   */
  lemma FivePowers(n: nat, k: nat)
    requires n == 13 && k == 5
    ensures Pow2(n) == 0x2000 && Pow2(k) == 32
  {
    SmallPowers();
  }

  /** Shifting left keeps the number of set bits. */
  lemma {:induction false} PopScaled(x: nat, s: nat)
    ensures Pop(x * Pow2(s)) == Pop(x)
    decreases s
  {
    if s > 0 {
      PopScaled(x, s - 1);
      var y := x * Pow2(s - 1);
      assert x * Pow2(s) == 2 * y;
      PopStep(2 * y, 0, y);
    }
  }

  // ---------------------------------------------------------------------------
  // The straights

  /** Each straight is a mask of five ranks. */
  lemma StraightMasks(i: nat)
    requires i < |STRAIGHT_FLUSHES|
    ensures FiveRanks(STRAIGHT_FLUSHES[i])
  {
    SmallPowers();
    assert Pop(31) == 5;
    if i == 9 {
      assert Pop(15) == 4;
      PopHigh(15, 12);
    } else {
      assert STRAIGHT_FLUSHES[i] == 31 * Pow2(8 - i);
      PopScaled(31, 8 - i);
    }
  }

  lemma StraightsFiveRanks()
    ensures forall x :: x in STRAIGHT_FLUSHES ==> FiveRanks(x)
  {
    forall i | 0 <= i < |STRAIGHT_FLUSHES|
      ensures FiveRanks(STRAIGHT_FLUSHES[i])
    {
      StraightMasks(i);
    }
  }

  lemma StraightsNoDup()
    ensures NoDup(STRAIGHT_FLUSHES)
  {
  }

  /** Nine of the ten straights are not the lowest five-rank mask 0b11111 (six high). */
  lemma StraightsBesidesSixHigh()
    ensures |set x | x in STRAIGHT_FLUSHES && x != 0x1F| == 9
  {
    StraightsNoDup();
    NoDupRemove(STRAIGHT_FLUSHES, 8);
    var t := STRAIGHT_FLUSHES[..8] + STRAIGHT_FLUSHES[9..];
    NoDupCard(t);
    assert (set x | x in STRAIGHT_FLUSHES && x != 0x1F) == (set x | x in t);
  }

  // ---------------------------------------------------------------------------
  // What the generator draws

  lemma IncreasingNoDup(s: seq<int>)
    requires Increasing(s)
    ensures NoDup(s)
  {
  }

  lemma IncreasingTail(c: seq<int>)
    requires |c| > 0 && Increasing(c)
    ensures Increasing(c[1..])
    ensures forall x :: x in c[1..] <==> x in c && x != c[0]
  {
    IncreasingNoDup(c);
    NoDupTail(c);
  }

  /** After its first element, the enumeration holds the k-bit masks other than the lowest, in increasing order. */
  lemma CombosTail(n: nat, k: nat)
    requires 1 <= k <= n
    ensures |Combos(n, k)| > 0 && Pow2(k) >= 2
    ensures forall x :: x in Combos(n, k)[1..] <==> 0 <= x < Pow2(n) && Pop(x) == k && x != Pow2(k) - 1
    ensures Increasing(Combos(n, k)[1..])
  {
    Pow2Strict(0, k);
    UnrankFirst(n, k);
    var c := Combos(n, k);
    CombosIncreasing(n, k);
    IncreasingTail(c);
    forall x: int
      ensures x in c <==> 0 <= x < Pow2(n) && Pop(x) == k
    {
      if x >= 0 {
        CombosExact(n, k, x);
      }
    }
  }

  lemma DrawnAreCombos(n: nat, k: nat)
    requires n == 13 && k == 5
    ensures |Combos(n, k)| > 0
    ensures Drawn() == Combos(n, k)[1..]
  {
    FiveOfThirteen(n, k);
    SmallPowers();
    GenerateEnumerates(n, k);
  }

  lemma FiveOfThirteenAfterFirst(n: nat, k: nat)
    requires n == 13 && k == 5
    ensures |Combos(n, k)| > 0
    ensures forall x :: x in Combos(n, k)[1..] <==> FiveRanks(x) && x != 0x1F
    ensures Increasing(Combos(n, k)[1..])
  {
    CombosTail(n, k);
    FivePowers(n, k);
  }

  /** The generator draws every five-rank mask above 0b11111, each once, in increasing order. */
  lemma DrawnMembers()
    ensures forall x :: x in Drawn() <==> FiveRanks(x) && x != 0x1F
    ensures Increasing(Drawn())
  {
    DrawnAreCombos(13, 5);
    FiveOfThirteenAfterFirst(13, 5);
  }

  // ---------------------------------------------------------------------------
  // The flush patterns

  lemma {:induction false} WithoutIncreasing(s: seq<int>, drop: seq<int>)
    requires Increasing(s)
    ensures Increasing(Without(s, drop))
    decreases |s|
  {
    if |s| > 0 {
      WithoutIncreasing(s[1..], drop);
      var rest := Without(s[1..], drop);
      if s[0] !in drop {
        var r := [s[0]] + rest;
        forall i, j | 0 <= i < j < |r|
          ensures r[i] < r[j]
        {
          assert r[j] == rest[j - 1] && rest[j - 1] in s[1..];
          if i > 0 {
            assert r[i] == rest[i - 1];
          }
        }
      }
    }
  }

  /** The straights the generator draws are all but 0b11111. */
  lemma DrawnStraights()
    ensures (set x | x in Drawn() && x in STRAIGHT_FLUSHES) == (set x | x in STRAIGHT_FLUSHES && x != 0x1F)
  {
    DrawnMembers();
    StraightsFiveRanks();
  }

  /** Filtering out the straights leaves 1277 of the 1286 drawn masks. */
  lemma FilteredLength()
    ensures |Without(Drawn(), STRAIGHT_FLUSHES)| == 1277
  {
    DrawnMembers();
    IncreasingNoDup(Drawn());
    WithoutLength(Drawn(), STRAIGHT_FLUSHES);
    DrawnStraights();
    StraightsBesidesSixHigh();
  }

  /** Filtering an increasing sequence and reversing it gives a decreasing sequence of the kept elements. */
  lemma ReversedFilter(s: seq<int>, drop: seq<int>)
    requires Increasing(s)
    ensures forall x :: x in Reverse(Without(s, drop)) <==> x in s && x !in drop
    ensures NoDup(Reverse(Without(s, drop)))
    ensures Descending(Reverse(Without(s, drop)))
  {
    var w := Without(s, drop);
    WithoutIncreasing(s, drop);
    IncreasingNoDup(w);
    ReverseMembers(w);
  }

  /**
   * The flush patterns are the 1277 masks of five ranks that are not
   * straights, without repeats, strongest (largest mask) first.
   */
  lemma FlushPatternsExact()
    ensures |FlushPatterns()| == 1277
    ensures forall x :: x in FlushPatterns() <==> FiveRanks(x) && x !in STRAIGHT_FLUSHES
    ensures NoDup(FlushPatterns())
    ensures Descending(FlushPatterns())
  {
    FilteredLength();
    DrawnMembers();
    ReversedFilter(Drawn(), STRAIGHT_FLUSHES);
    assert 0x1F in STRAIGHT_FLUSHES;
  }

  // ---------------------------------------------------------------------------
  // Their keys

  lemma AsU32Small(x: int)
    requires 0 <= x < 0x2000
    ensures AsU32(x) == x
  {
  }

  /** Distinct masks below 2^13 have distinct prime-product keys. */
  lemma PatternKeysDistinct(fs: seq<int>)
    requires NoDup(fs) && forall x :: x in fs ==> 0 <= x < 0x2000
    ensures NoDup(PatternKeys(fs))
  {
    SmallPowers();
    var ks := PatternKeys(fs);
    forall i, j | 0 <= i < j < |ks|
      ensures ks[i] != ks[j]
    {
      assert fs[i] in fs && fs[j] in fs;
      AsU32Small(fs[i]);
      AsU32Small(fs[j]);
      RankBitsInjective(fs[i], fs[j]);
    }
  }

  lemma PatternKeysAppend(a: seq<int>, b: seq<int>)
    ensures PatternKeys(a + b) == PatternKeys(a) + PatternKeys(b)
  {
  }

  /** The straights and the other flush patterns together are the five-rank masks, each once. */
  lemma AllPatterns()
    ensures forall x :: x in STRAIGHT_FLUSHES + FlushPatterns() <==> FiveRanks(x)
    ensures NoDup(STRAIGHT_FLUSHES + FlushPatterns())
  {
    FlushPatternsExact();
    StraightsNoDup();
    StraightsFiveRanks();
    JoinPatterns(STRAIGHT_FLUSHES, FlushPatterns());
  }

  lemma JoinPatterns(a: seq<int>, b: seq<int>)
    requires NoDup(a) && NoDup(b)
    requires forall x :: x in a ==> FiveRanks(x)
    requires forall x :: x in b <==> FiveRanks(x) && x !in a
    ensures forall x :: x in a + b <==> FiveRanks(x)
    ensures NoDup(a + b)
  {
    forall x | x in a
      ensures x !in b
    {
    }
    NoDupAppend(a, b);
  }

  /** Hence the keys `flushes` inserts are all distinct. */
  lemma AllPatternKeysDistinct()
    ensures NoDup(PatternKeys(STRAIGHT_FLUSHES) + PatternKeys(FlushPatterns()))
  {
    AllPatterns();
    PatternKeysDistinct(STRAIGHT_FLUSHES + FlushPatterns());
    PatternKeysAppend(STRAIGHT_FLUSHES, FlushPatterns());
  }
}
