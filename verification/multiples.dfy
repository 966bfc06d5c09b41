/**
 * The hands `multiples` in lookup.rs ranks: each of its five loops yields every
 * well-formed shape of its category exactly once, 156 four of a kinds, 156 full
 * houses, 858 three of a kinds, 858 two pairs and 2860 pairs.
 */
module Multiples {
  import opened Card
  import opened Enumeration
  import opened Sequences
  import opened Combinations
  import opened Shapes
  import opened Lookup

  /** `(0..n).rev()` counts down from n - 1 to 0. */
  lemma {:induction false} CountdownRanks(n: nat)
    requires n <= 13
    ensures |Countdown(n)| == n && Descending(Countdown(n))
    ensures forall r: Rank :: r in Countdown(n) <==> r < n
    decreases n
  {
    if n > 0 {
      CountdownRanks(n - 1);
      var c := Countdown(n);
      assert c == [(n - 1) as Rank] + Countdown(n - 1);
      forall i, j | 0 <= i < j < |c|
        ensures c[i] > c[j]
      {
        assert c[j] in Countdown(n - 1);
        if i > 0 {
          assert c[i] == Countdown(n - 1)[i - 1] && c[j] == Countdown(n - 1)[j - 1];
        }
      }
    }
  }

  /** `(0..13).rev()` holds every rank once, from ace down. */
  lemma BackwardsRanks()
    ensures |BACKWARDS| == 13 && Descending(BACKWARDS) && NoDup(BACKWARDS)
    ensures forall r: Rank :: r in BACKWARDS
  {
    assert |INT_RANKS| == 13;
    CountdownRanks(|INT_RANKS|);
    DescendingNoDup(BACKWARDS);
  }

  /** The ranks left once `drop` is filtered out of `(0..13).rev()`, still from ace down. */
  lemma RanksWithout(drop: seq<Rank>)
    requires NoDup(drop)
    ensures |Without(BACKWARDS, drop)| == 13 - |drop|
    ensures Descending(Without(BACKWARDS, drop)) && NoDup(Without(BACKWARDS, drop))
    ensures forall r: Rank :: r in Without(BACKWARDS, drop) <==> r !in drop
  {
    BackwardsRanks();
    AllRanksWithout(BACKWARDS, drop);
  }

  lemma AllRanksWithout(all: seq<Rank>, drop: seq<Rank>)
    requires NoDup(drop) && |all| == 13 && Descending(all)
    requires forall r: Rank :: r in all
    ensures |Without(all, drop)| == 13 - |drop|
    ensures Descending(Without(all, drop)) && NoDup(Without(all, drop))
    ensures forall r: Rank :: r in Without(all, drop) <==> r !in drop
  {
    WithoutDescending(all, drop);
    DescendingNoDup(all);
    DescendingNoDup(Without(all, drop));
    WithoutLength(all, drop);
    NoDupCard(drop);
    assert (set x: Rank | x in all && x in drop) == (set x: Rank | x in drop);
  }

  lemma OthersExact(i: Rank)
    ensures |Others(i)| == 12 && Descending(Others(i)) && NoDup(Others(i))
    ensures forall r: Rank :: r in Others(i) <==> r != i
  {
    RanksWithout([i]);
  }

  // ---------------------------------------------------------------------------
  // One block per loop: each lemma takes the ranks the block walks as given

  lemma QuadBlockOf(i: Rank, ks: seq<Rank>, b: seq<Shape>)
    requires NoDup(ks) && forall r: Rank :: r in ks <==> r != i
    requires |b| == |ks| && forall j :: 0 <= j < |ks| ==> b[j] == FourOfAKind(i, ks[j])
    ensures NoDup(b)
    ensures forall s: Shape :: s in b <==> s.FourOfAKind? && WellFormed(s) && s.quad == i
  {
    forall s: Shape | s in b
      ensures s.FourOfAKind? && WellFormed(s) && s.quad == i
    {
      var j :| 0 <= j < |b| && b[j] == s;
      assert ks[j] in ks;
    }
    forall s: Shape | s.FourOfAKind? && WellFormed(s) && s.quad == i
      ensures s in b
    {
      assert s.kicker in ks;
      var j :| 0 <= j < |ks| && ks[j] == s.kicker;
      assert b[j] == s;
    }
    forall p, q | 0 <= p < q < |b|
      ensures b[p] != b[q]
    {
      assert ks[p] != ks[q];
    }
  }

  lemma FullHouseBlockOf(i: Rank, ps: seq<Rank>, b: seq<Shape>)
    requires NoDup(ps) && forall r: Rank :: r in ps <==> r != i
    requires |b| == |ps| && forall j :: 0 <= j < |ps| ==> b[j] == FullHouse(i, ps[j])
    ensures NoDup(b)
    ensures forall s: Shape :: s in b <==> s.FullHouse? && WellFormed(s) && s.trips == i
  {
    forall s: Shape | s in b
      ensures s.FullHouse? && WellFormed(s) && s.trips == i
    {
      var j :| 0 <= j < |b| && b[j] == s;
      assert ps[j] in ps;
    }
    forall s: Shape | s.FullHouse? && WellFormed(s) && s.trips == i
      ensures s in b
    {
      assert s.pair in ps;
      var j :| 0 <= j < |ps| && ps[j] == s.pair;
      assert b[j] == s;
    }
    forall p, q | 0 <= p < q < |b|
      ensures b[p] != b[q]
    {
      assert ps[p] != ps[q];
    }
  }

  lemma TripsBlockOf(r: Rank, os: seq<Rank>, b: seq<Shape>)
    requires Descending(os) && forall x: Rank :: x in os <==> x != r
    requires |b| == |Pairs(os)| && forall j :: 0 <= j < |b| ==> b[j] == ThreeOfAKind(r, Pairs(os)[j].0, Pairs(os)[j].1)
    ensures NoDup(b)
    ensures forall s: Shape :: s in b <==> s.ThreeOfAKind? && WellFormed(s) && s.trips == r
  {
    var cs := Pairs(os);
    PairsNoDup(os);
    forall s: Shape | s in b
      ensures s.ThreeOfAKind? && WellFormed(s) && s.trips == r
    {
      var j :| 0 <= j < |b| && b[j] == s;
      assert cs[j] in cs;
      PairsMembers(os, cs[j].0, cs[j].1);
    }
    forall s: Shape | s.ThreeOfAKind? && WellFormed(s) && s.trips == r
      ensures s in b
    {
      PairsMembers(os, s.high, s.low);
      var j :| 0 <= j < |cs| && cs[j] == (s.high, s.low);
      assert b[j] == s;
    }
    forall p, q | 0 <= p < q < |b|
      ensures b[p] != b[q]
    {
      assert cs[p] != cs[q];
    }
  }

  lemma TwoPairBlockOf(tp: (Rank, Rank), ks: seq<Rank>, b: seq<Shape>)
    requires tp.0 > tp.1
    requires NoDup(ks) && forall r: Rank :: r in ks <==> r != tp.0 && r != tp.1
    requires |b| == |ks| && forall j :: 0 <= j < |ks| ==> b[j] == TwoPair(tp.0, tp.1, ks[j])
    ensures NoDup(b)
    ensures forall s: Shape :: s in b <==> s.TwoPair? && WellFormed(s) && (s.high, s.low) == tp
  {
    forall s: Shape | s in b
      ensures s.TwoPair? && WellFormed(s) && (s.high, s.low) == tp
    {
      var j :| 0 <= j < |b| && b[j] == s;
      assert ks[j] in ks;
    }
    forall s: Shape | s.TwoPair? && WellFormed(s) && (s.high, s.low) == tp
      ensures s in b
    {
      assert s.kicker in ks;
      var j :| 0 <= j < |ks| && ks[j] == s.kicker;
      assert b[j] == s;
    }
    forall p, q | 0 <= p < q < |b|
      ensures b[p] != b[q]
    {
      assert ks[p] != ks[q];
    }
  }

  lemma PairBlockOf(p: Rank, os: seq<Rank>, b: seq<Shape>)
    requires Descending(os) && forall x: Rank :: x in os <==> x != p
    requires |b| == |Triples(os)|
    requires forall j :: 0 <= j < |b| ==> b[j] == OnePair(p, Triples(os)[j].0, Triples(os)[j].1, Triples(os)[j].2)
    ensures NoDup(b)
    ensures forall s: Shape :: s in b <==> s.OnePair? && WellFormed(s) && s.pair == p
  {
    var ks := Triples(os);
    TriplesNoDup(os);
    forall s: Shape | s in b
      ensures s.OnePair? && WellFormed(s) && s.pair == p
    {
      var j :| 0 <= j < |b| && b[j] == s;
      assert ks[j] in ks;
      TriplesMembers(os, ks[j].0, ks[j].1, ks[j].2);
    }
    forall s: Shape | s.OnePair? && WellFormed(s) && s.pair == p
      ensures s in b
    {
      TriplesMembers(os, s.high, s.middle, s.low);
      var j :| 0 <= j < |ks| && ks[j] == (s.high, s.middle, s.low);
      assert b[j] == s;
    }
    forall i, j | 0 <= i < j < |b|
      ensures b[i] != b[j]
    {
      assert ks[i] != ks[j];
    }
  }

  // ---------------------------------------------------------------------------
  // The blocks of lookup.rs

  lemma PairsOfTwelve(os: seq<Rank>)
    requires |os| == 12
    ensures |Pairs(os)| == 66
  {
    TwoOfTwelve(|os|, 2);
    PairsLength(os);
  }

  lemma PairsOfThirteen(xs: seq<Rank>)
    requires |xs| == 13
    ensures |Pairs(xs)| == 78
  {
    TwoOfThirteen(|xs|, 2);
    PairsLength(xs);
  }

  lemma TriplesOfTwelve(os: seq<Rank>)
    requires |os| == 12
    ensures |Triples(os)| == 220
  {
    ThreeOfTwelve(|os|, 3);
    TriplesLength(os);
  }

  lemma QuadBlockAt(i: Rank)
    ensures |QuadBlock(i)| == 12 && NoDup(QuadBlock(i))
    ensures forall s: Shape :: s in QuadBlock(i) <==> s.FourOfAKind? && WellFormed(s) && s.quad == i
  {
    OthersExact(i);
    QuadBlockOf(i, Others(i), QuadBlock(i));
  }

  lemma FullHouseBlockAt(i: Rank)
    ensures |FullHouseBlock(i)| == 12 && NoDup(FullHouseBlock(i))
    ensures forall s: Shape :: s in FullHouseBlock(i) <==> s.FullHouse? && WellFormed(s) && s.trips == i
  {
    OthersExact(i);
    FullHouseBlockOf(i, Others(i), FullHouseBlock(i));
  }

  lemma TripsBlockAt(r: Rank)
    ensures |TripsBlock(r)| == 66 && NoDup(TripsBlock(r))
    ensures forall s: Shape :: s in TripsBlock(r) <==> s.ThreeOfAKind? && WellFormed(s) && s.trips == r
  {
    OthersExact(r);
    PairsOfTwelve(Others(r));
    TripsBlockOf(r, Others(r), TripsBlock(r));
  }

  lemma TwoPairBlockAt(tp: (Rank, Rank))
    requires tp.0 > tp.1
    ensures |TwoPairBlock(tp)| == 11 && NoDup(TwoPairBlock(tp))
    ensures forall s: Shape :: s in TwoPairBlock(tp) <==> s.TwoPair? && WellFormed(s) && (s.high, s.low) == tp
  {
    RanksWithout([tp.0, tp.1]);
    TwoPairBlockOf(tp, Without(BACKWARDS, [tp.0, tp.1]), TwoPairBlock(tp));
  }

  lemma PairBlockAt(p: Rank)
    ensures |PairBlock(p)| == 220 && NoDup(PairBlock(p))
    ensures forall s: Shape :: s in PairBlock(p) <==> s.OnePair? && WellFormed(s) && s.pair == p
  {
    OthersExact(p);
    TriplesOfTwelve(Others(p));
    PairBlockOf(p, Others(p), PairBlock(p));
  }

  // ---------------------------------------------------------------------------
  // The five loops, over any list of the thirteen ranks

  lemma QuadsOver(xs: seq<Rank>)
    requires |xs| == 13 && NoDup(xs) && forall r: Rank :: r in xs
    ensures |ForEach(xs, QuadBlock)| == 156 && NoDup(ForEach(xs, QuadBlock))
    ensures forall s :: s in ForEach(xs, QuadBlock) <==> s.FourOfAKind? && WellFormed(s)
  {
    forall i: Rank
      ensures |QuadBlock(i)| == 12 && NoDup(QuadBlock(i))
      ensures forall s: Shape :: s in QuadBlock(i) <==> s.FourOfAKind? && WellFormed(s) && MainRank(s) == i
    {
      QuadBlockAt(i);
    }
    ForEachExact(xs, QuadBlock, 12, (s: Shape) => s.FourOfAKind? && WellFormed(s), MainRank);
  }

  lemma FullHousesOver(xs: seq<Rank>)
    requires |xs| == 13 && NoDup(xs) && forall r: Rank :: r in xs
    ensures |ForEach(xs, FullHouseBlock)| == 156 && NoDup(ForEach(xs, FullHouseBlock))
    ensures forall s :: s in ForEach(xs, FullHouseBlock) <==> s.FullHouse? && WellFormed(s)
  {
    forall i: Rank
      ensures |FullHouseBlock(i)| == 12 && NoDup(FullHouseBlock(i))
      ensures forall s: Shape :: s in FullHouseBlock(i) <==> s.FullHouse? && WellFormed(s) && MainRank(s) == i
    {
      FullHouseBlockAt(i);
    }
    ForEachExact(xs, FullHouseBlock, 12, (s: Shape) => s.FullHouse? && WellFormed(s), MainRank);
  }

  lemma TripsOver(xs: seq<Rank>)
    requires |xs| == 13 && NoDup(xs) && forall r: Rank :: r in xs
    ensures |ForEach(xs, TripsBlock)| == 858 && NoDup(ForEach(xs, TripsBlock))
    ensures forall s :: s in ForEach(xs, TripsBlock) <==> s.ThreeOfAKind? && WellFormed(s)
  {
    forall r: Rank
      ensures |TripsBlock(r)| == 66 && NoDup(TripsBlock(r))
      ensures forall s: Shape :: s in TripsBlock(r) <==> s.ThreeOfAKind? && WellFormed(s) && MainRank(s) == r
    {
      TripsBlockAt(r);
    }
    ForEachExact(xs, TripsBlock, 66, (s: Shape) => s.ThreeOfAKind? && WellFormed(s), MainRank);
  }

  /** The two ranks that are paired in a two pair; a fixed pair for other shapes. */
  function PairedRanks(s: Shape): (Rank, Rank)
  {
    if s.TwoPair? then (s.high, s.low) else (1, 0)
  }

  /** `combinations(2)` of the thirteen ranks from ace down: each pair of ranks once, higher first. */
  lemma RankPairsOver(xs: seq<Rank>)
    requires |xs| == 13 && Descending(xs) && forall r: Rank :: r in xs
    ensures |Pairs(xs)| == 78 && NoDup(Pairs(xs))
    ensures forall tp: (Rank, Rank) :: tp in Pairs(xs) <==> tp.0 > tp.1
  {
    PairsOfThirteen(xs);
    PairsNoDup(xs);
    forall tp: (Rank, Rank)
      ensures tp in Pairs(xs) <==> tp.0 > tp.1
    {
      PairsMembers(xs, tp.0, tp.1);
    }
  }

  lemma TwoPairsOver(xs: seq<Rank>)
    requires |xs| == 13 && Descending(xs) && forall r: Rank :: r in xs
    ensures |ForEach(Pairs(xs), TwoPairBlock)| == 858 && NoDup(ForEach(Pairs(xs), TwoPairBlock))
    ensures forall s :: s in ForEach(Pairs(xs), TwoPairBlock) <==> s.TwoPair? && WellFormed(s)
  {
    RankPairsOver(xs);
    forall tp: (Rank, Rank) | tp in Pairs(xs)
      ensures |TwoPairBlock(tp)| == 11 && NoDup(TwoPairBlock(tp))
      ensures forall s: Shape :: s in TwoPairBlock(tp) <==> s.TwoPair? && WellFormed(s) && PairedRanks(s) == tp
    {
      TwoPairBlockAt(tp);
    }
    ForEachExact(Pairs(xs), TwoPairBlock, 11, (s: Shape) => s.TwoPair? && WellFormed(s), PairedRanks);
  }

  lemma OnePairsOver(xs: seq<Rank>)
    requires |xs| == 13 && NoDup(xs) && forall r: Rank :: r in xs
    ensures |ForEach(xs, PairBlock)| == 2860 && NoDup(ForEach(xs, PairBlock))
    ensures forall s :: s in ForEach(xs, PairBlock) <==> s.OnePair? && WellFormed(s)
  {
    forall p: Rank
      ensures |PairBlock(p)| == 220 && NoDup(PairBlock(p))
      ensures forall s: Shape :: s in PairBlock(p) <==> s.OnePair? && WellFormed(s) && MainRank(s) == p
    {
      PairBlockAt(p);
    }
    ForEachExact(xs, PairBlock, 220, (s: Shape) => s.OnePair? && WellFormed(s), MainRank);
  }

  // ---------------------------------------------------------------------------
  // The five loops of `multiples`

  /** `multiples` ranks every four of a kind once: 13 quad ranks times 12 kickers. */
  lemma QuadsExact()
    ensures |Quads()| == 156 && NoDup(Quads())
    ensures forall s :: s in Quads() <==> s.FourOfAKind? && WellFormed(s)
  {
    BackwardsRanks();
    QuadsOver(BACKWARDS);
  }

  /** Every full house once: 13 trips ranks times 12 pair ranks. */
  lemma FullHousesExact()
    ensures |FullHouses()| == 156 && NoDup(FullHouses())
    ensures forall s :: s in FullHouses() <==> s.FullHouse? && WellFormed(s)
  {
    BackwardsRanks();
    FullHousesOver(BACKWARDS);
  }

  /** Every three of a kind once: 13 trips ranks times 66 pairs of kickers. */
  lemma TripsExact()
    ensures |Trips()| == 858 && NoDup(Trips())
    ensures forall s :: s in Trips() <==> s.ThreeOfAKind? && WellFormed(s)
  {
    BackwardsRanks();
    TripsOver(BACKWARDS);
  }

  /** Every two pair once: 78 pairs of paired ranks times 11 kickers. */
  lemma TwoPairsExact()
    ensures |TwoPairs()| == 858 && NoDup(TwoPairs())
    ensures forall s :: s in TwoPairs() <==> s.TwoPair? && WellFormed(s)
  {
    BackwardsRanks();
    TwoPairsOver(BACKWARDS);
  }

  /** Every one pair once: 13 pair ranks times 220 triples of kickers. */
  lemma OnePairsExact()
    ensures |OnePairs()| == 2860 && NoDup(OnePairs())
    ensures forall s :: s in OnePairs() <==> s.OnePair? && WellFormed(s)
  {
    BackwardsRanks();
    OnePairsOver(BACKWARDS);
  }
}
