/**
 * What a straight is, independently of the table: five ranks in a row, or the
 * wheel (ace, 2, 3, 4, 5) where the ace plays low. The ten literal patterns
 * `flushes` starts from are exactly the rank masks of the straights.
 */
module Straights {
  import opened Bits
  import opened Card
  import opened Keys
  import opened Lookup

  /** Five ranks in a row, lowest first. */
  predicate Run(a: seq<Rank>)
  {
    |a| == 5 && forall i :: 0 <= i < 4 ==> a[i + 1] as int == a[i] as int + 1
  }

  /** 5-4-3-2-A: the ace counts as the rank below the deuce. */
  const WHEEL: seq<Rank> := [0, 1, 2, 3, 12]

  /** Five increasing ranks that make a straight. */
  predicate StraightRanks(a: seq<Rank>)
  {
    Run(a) || a == WHEEL
  }

  /** The straight in position j of the literal list, from the ace-high run (j = 0) down to the wheel (j = 9). */
  function StraightAt(j: nat): (a: seq<Rank>)
    requires j < 10
    ensures StrictlyIncreasing(a) && StraightRanks(a)
  {
    if j == 9 then WHEEL
    else
      var r := 8 - j;
      [r as Rank, (r + 1) as Rank, (r + 2) as Rank, (r + 3) as Rank, (r + 4) as Rank]
  }

  /** The mask of a run starting at rank r is 0b11111 shifted up by r. */
  lemma RunMask(a: seq<Rank>)
    requires Run(a)
    ensures a[0] <= 8 && RankMask(a) == 31 * Pow2(a[0])
  {
    RankMaskFive(a);
    var r := a[0] as nat;
    assert a[1] == r + 1 && a[2] == r + 2 && a[3] == r + 3 && a[4] == r + 4;
    assert Pow2(r + 4) == 2 * Pow2(r + 3) && Pow2(r + 3) == 2 * Pow2(r + 2);
    assert Pow2(r + 2) == 2 * Pow2(r + 1) && Pow2(r + 1) == 2 * Pow2(r);
  }

  /** Position 8 - r of the literal list holds the run from r. */
  lemma ShiftedRun(r: nat)
    requires r <= 8
    ensures STRAIGHT_FLUSHES[8 - r] == 31 * Pow2(r)
  {
    SmallPowers();
    if r == 0 {} else if r == 1 {} else if r == 2 {} else if r == 3 {} else if r == 4 {}
    else if r == 5 {} else if r == 6 {} else if r == 7 {} else {}
  }

  /** Each entry of the literal list is the mask of the straight in the same position. */
  lemma StraightAtMask(j: nat)
    requires j < 10
    ensures RankMask(StraightAt(j)) == STRAIGHT_FLUSHES[j]
  {
    var a := StraightAt(j);
    if j == 9 {
      RankMaskFive(a);
      SmallPowers();
    } else {
      RunMask(a);
      ShiftedRun(8 - j);
    }
  }

  /** Two increasing rank lists with the same members are the same list. */
  lemma {:induction false} IncreasingUnique(a: seq<Rank>, b: seq<Rank>)
    requires StrictlyIncreasing(a) && StrictlyIncreasing(b)
    requires forall x :: x in a <==> x in b
    ensures a == b
    decreases |a|
  {
    HeadMember(a);
    HeadMember(b);
    if |a| > 0 && |b| > 0 {
      assert a[0] in b && b[0] in a;
      assert a[0] == b[0];
      forall x
        ensures x in a[1..] <==> x in b[1..]
      {
        TailMembers(a, x);
        TailMembers(b, x);
      }
      IncreasingUnique(a[1..], b[1..]);
      assert a == [a[0]] + a[1..] && b == [b[0]] + b[1..];
    }
  }

  lemma HeadMember(a: seq<Rank>)
    ensures |a| > 0 ==> a[0] in a
  {
  }

  /** Without its head, an increasing list holds exactly the members above the head. */
  lemma TailMembers(a: seq<Rank>, x: Rank)
    requires StrictlyIncreasing(a) && |a| > 0
    ensures StrictlyIncreasing(a[1..])
    ensures x in a[1..] <==> x in a && x != a[0]
  {
    assert a == [a[0]] + a[1..];
    if x in a[1..] {
      var k :| 0 <= k < |a[1..]| && a[1..][k] == x;
      assert a[k + 1] == x;
    }
  }

  /** The rank mask tells increasing rank lists apart. */
  lemma MaskInjective(a: seq<Rank>, b: seq<Rank>)
    requires StrictlyIncreasing(a) && StrictlyIncreasing(b)
    requires RankMask(a) == RankMask(b)
    ensures a == b
  {
    forall x: Rank
      ensures x in a <==> x in b
    {
      RankMaskBit(a, x);
      RankMaskBit(b, x);
    }
    IncreasingUnique(a, b);
  }

  /** The ten literal patterns are exactly the masks of the straights. */
  lemma StraightsAreMasks(a: seq<Rank>)
    requires StrictlyIncreasing(a) && |a| == 5
    ensures RankMask(a) in STRAIGHT_FLUSHES <==> StraightRanks(a)
  {
    if RankMask(a) in STRAIGHT_FLUSHES {
      var j :| 0 <= j < 10 && STRAIGHT_FLUSHES[j] == RankMask(a);
      StraightAtMask(j);
      MaskInjective(a, StraightAt(j));
    }
    if Run(a) {
      RunMask(a);
      ShiftedRun(a[0]);
    } else if a == WHEEL {
      StraightAtMask(9);
    }
  }
}
