/**
 * LookupTable::new: the flush map and the unsuited map from prime-product keys
 * to hand ranks 1..7462 (1 is the royal flush, 7462 is 7-5-4-3-2 offsuit), the
 * table from each category's worst rank to its class, and the class names.
 */
module Lookup {
  import opened Card
  import opened Keys
  import opened Shapes
  import opened Sequences
  import opened Combinations
  import opened Tables
  import opened BitSequence

  const MAX_STRAIGHT_FLUSH: nat := 10
  const MAX_FOUR_OF_A_KIND: nat := 166
  const MAX_FULL_HOUSE: nat := 322
  const MAX_FLUSH: nat := 1599
  const MAX_STRAIGHT: nat := 1609
  const MAX_THREE_OF_A_KIND: nat := 2467
  const MAX_TWO_PAIR: nat := 3325
  const MAX_PAIR: nat := 6185
  const MAX_HIGH_CARD: nat := 7462

  /** The ten straight rank patterns from the royal (ten to ace) down to the wheel (ace to five). */
  const STRAIGHT_FLUSHES: seq<int> := [7936, 3968, 1984, 992, 496, 248, 124, 62, 31, 4111]

  /** `(0..INT_RANKS.len()).rev()`: the rank indices from ace down to deuce. */
  const BACKWARDS: seq<Rank> := Countdown(|INT_RANKS|)

  /** `(0..n).rev()`. */
  function Countdown(n: nat): seq<Rank>
    requires n <= 13
  {
    if n == 0 then [] else [(n - 1) as Rank] + Countdown(n - 1)
  }

  /** The `as u32` cast of an i32: its value modulo 2^32. */
  function AsU32(x: int): nat
  {
    x % 0x1_0000_0000
  }

  // ---------------------------------------------------------------------------
  // The lists the loops walk

  /**
   * The flush patterns of `flushes`: the first 1277 + 10 - 1 outputs of the
   * generator from 0b11111 without the straights, reversed so that the
   * strongest comes first.
   */
  function FlushPatterns(): seq<int>
  {
    Reverse(Without(Generate(0x1F, 1277 + |STRAIGHT_FLUSHES| - 1), STRAIGHT_FLUSHES))
  }

  /** `prime_product_from_rankbits(f as u32)` for every pattern, in order. */
  function PatternKeys(fs: seq<int>): (ks: seq<nat>)
    ensures |ks| == |fs| && forall i :: 0 <= i < |fs| ==> ks[i] == PrimeProductFromRankBits(AsU32(fs[i]))
  {
    seq(|fs|, i requires 0 <= i < |fs| => PrimeProductFromRankBits(AsU32(fs[i])))
  }

  /** `kickers.retain(|&x| x != i)`: every rank but i, from ace down. */
  function Others(i: Rank): seq<Rank>
  {
    Without(BACKWARDS, [i])
  }

  /** Four of rank i with each kicker. */
  function QuadBlock(i: Rank): seq<Shape>
  {
    var ks := Others(i);
    seq(|ks|, j requires 0 <= j < |ks| => FourOfAKind(i, ks[j]))
  }

  /** Three of rank i with each pair rank. */
  function FullHouseBlock(i: Rank): seq<Shape>
  {
    var ps := Others(i);
    seq(|ps|, j requires 0 <= j < |ps| => FullHouse(i, ps[j]))
  }

  /** Three of rank r with each two kickers, `combinations(2)` of the other ranks. */
  function TripsBlock(r: Rank): seq<Shape>
  {
    var cs := Pairs(Others(r));
    seq(|cs|, j requires 0 <= j < |cs| => ThreeOfAKind(r, cs[j].0, cs[j].1))
  }

  /** Two pairs of the given ranks with each kicker of a third rank. */
  function TwoPairBlock(tp: (Rank, Rank)): seq<Shape>
  {
    var ks := Without(BACKWARDS, [tp.0, tp.1]);
    seq(|ks|, j requires 0 <= j < |ks| => TwoPair(tp.0, tp.1, ks[j]))
  }

  /** A pair of rank p with each three kickers, `combinations(3)` of the other ranks. */
  function PairBlock(p: Rank): seq<Shape>
  {
    var ks := Triples(Others(p));
    seq(|ks|, j requires 0 <= j < |ks| => OnePair(p, ks[j].0, ks[j].1, ks[j].2))
  }

  /** The hands of each category of `multiples`, in the order the loops insert them. */
  function Quads(): seq<Shape> { ForEach(BACKWARDS, QuadBlock) }
  function FullHouses(): seq<Shape> { ForEach(BACKWARDS, FullHouseBlock) }
  function Trips(): seq<Shape> { ForEach(BACKWARDS, TripsBlock) }
  function TwoPairs(): seq<Shape> { ForEach(Pairs(BACKWARDS), TwoPairBlock) }
  function OnePairs(): seq<Shape> { ForEach(BACKWARDS, PairBlock) }

  /** The key `multiples` computes for a shape. */
  function ShapeKey(s: Shape): nat
  {
    ProductIsKey(s);
    Product(s)
  }

  function ShapeKeys(ss: seq<Shape>): (ks: seq<nat>)
    ensures |ks| == |ss| && forall i :: 0 <= i < |ss| ==> ks[i] == ShapeKey(ss[i])
  {
    seq(|ss|, i requires 0 <= i < |ss| => ShapeKey(ss[i]))
  }

  // ---------------------------------------------------------------------------
  // The tables

  /** `flushes`: straight flushes ranked from 1, then flushes ranked from MAX_FULL_HOUSE + 1. */
  function FlushEntries(): seq<(nat, nat)>
  {
    Numbered(PatternKeys(STRAIGHT_FLUSHES), 1)
    + Numbered(PatternKeys(FlushPatterns()), MAX_FULL_HOUSE + 1)
  }

  /** `straight_and_highcards`: the same patterns unsuited, straights from MAX_FLUSH + 1 and high cards from MAX_PAIR + 1. */
  function StraightEntries(): seq<(nat, nat)> { Numbered(PatternKeys(STRAIGHT_FLUSHES), MAX_FLUSH + 1) }
  function HighCardEntries(): seq<(nat, nat)> { Numbered(PatternKeys(FlushPatterns()), MAX_PAIR + 1) }

  /** The five loops of `multiples`, each ranked from the worst rank of the category before it, plus one. */
  function QuadEntries(): seq<(nat, nat)> { Numbered(ShapeKeys(Quads()), MAX_STRAIGHT_FLUSH + 1) }
  function FullHouseEntries(): seq<(nat, nat)> { Numbered(ShapeKeys(FullHouses()), MAX_FOUR_OF_A_KIND + 1) }
  function TripsEntries(): seq<(nat, nat)> { Numbered(ShapeKeys(Trips()), MAX_STRAIGHT + 1) }
  function TwoPairEntries(): seq<(nat, nat)> { Numbered(ShapeKeys(TwoPairs()), MAX_THREE_OF_A_KIND + 1) }
  function PairEntries(): seq<(nat, nat)> { Numbered(ShapeKeys(OnePairs()), MAX_TWO_PAIR + 1) }

  function MultiplesEntries(): seq<(nat, nat)>
  {
    QuadEntries() + FullHouseEntries() + TripsEntries() + TwoPairEntries() + PairEntries()
  }

  /** Every insert into unsuited_lookup, in order. */
  function UnsuitedEntries(): seq<(nat, nat)>
  {
    StraightEntries() + HighCardEntries() + MultiplesEntries()
  }

  datatype LookupTable = LookupTable(
    flushLookup: map<nat, nat>,
    unsuitedLookup: map<nat, nat>,
    maxToRankClass: map<nat, nat>,
    rankClassToString: map<nat, string>)

  /** The boundary table of `max_to_rank_class`. */
  function MaxToRankClass(): map<nat, nat>
  {
    map[MAX_STRAIGHT_FLUSH := 1, MAX_FOUR_OF_A_KIND := 2, MAX_FULL_HOUSE := 3, MAX_FLUSH := 4,
        MAX_STRAIGHT := 5, MAX_THREE_OF_A_KIND := 6, MAX_TWO_PAIR := 7, MAX_PAIR := 8, MAX_HIGH_CARD := 9]
  }

  /** The names of `rank_class_to_string`. */
  function RankClassToString(): map<nat, string>
  {
    map[1 := "Straight Flush", 2 := "Four of a Kind", 3 := "Full House", 4 := "Flush",
        5 := "Straight", 6 := "Three of a Kind", 7 := "Two Pair", 8 := "Pair", 9 := "High Card"]
  }

  /** LookupTable::new. */
  function New(): LookupTable
  {
    LookupTable(InsertAll(FlushEntries()), InsertAll(UnsuitedEntries()), MaxToRankClass(), RankClassToString())
  }
}
