/**
 * The strength order inside each category of `multiples` in lookup.rs.  Two
 * hands of one category are decided by their main rank, then by the next rank,
 * and so on: a four of a kind by its quad rank and then its kicker, a two pair
 * by its high pair, its low pair and then its kicker.  Each of the five loops
 * walks its category from the strongest hand to the weakest, and the rank
 * counter only grows, so of two hands of one category the stronger one gets the
 * smaller (better) rank.  The same holds for the pattern runs of `flushes` and
 * `straight_and_highcards`: the straights are ranked from the ace-high one down
 * to the wheel, and the flushes and high cards by decreasing rank mask.
 */
module Strength {
  import opened Fields
  import opened Card
  import opened Sequences
  import opened Combinations
  import opened Shapes
  import opened Tables
  import opened Lookup
  import opened Keys
  import opened Multiples
  import opened Patterns
  import opened Straights
  import opened TableContents

  // ---------------------------------------------------------------------------
  // The order

  /** a beats b: at the first position where they differ, a holds the higher rank. */
  predicate Above(a: seq<Rank>, b: seq<Rank>)
    decreases |a|
  {
    |a| > 0 && |b| > 0 && (a[0] > b[0] || (a[0] == b[0] && Above(a[1..], b[1..])))
  }

  /** The ranks that decide between two hands of the same category, the deciding one first. */
  function Strength(s: Shape): seq<Rank>
  {
    match s
    case FourOfAKind(q, k) => [q, k]
    case FullHouse(t, p) => [t, p]
    case ThreeOfAKind(t, h, l) => [t, h, l]
    case TwoPair(h, l, k) => [h, l, k]
    case OnePair(p, h, m, l) => [p, h, m, l]
  }

  /** Every entry of the list beats every entry after it. */
  predicate StrongestFirst<B>(ys: seq<B>, K: B -> seq<Rank>)
  {
    forall i, j :: 0 <= i < j < |ys| ==> Above(K(ys[i]), K(ys[j]))
  }

  /** p is the beginning of a. */
  predicate Leads(p: seq<Rank>, a: seq<Rank>)
  {
    |p| <= |a| && a[..|p|] == p
  }

  /** The deciding ranks of a loop variable: a rank, a pair or a triple of ranks. */
  function One(x: Rank): seq<Rank> { [x] }
  function Two(p: (Rank, Rank)): seq<Rank> { [p.0, p.1] }
  function Three(t: (Rank, Rank, Rank)): seq<Rank> { [t.0, t.1, t.2] }

  /** A single rank beats another exactly when it is higher. */
  lemma AboveOne(a: Rank, b: Rank)
    ensures Above([a], [b]) <==> a > b
  {
    assert [a][1..] == [];
  }

  /** Nothing beats itself. */
  lemma {:induction false} AboveIrreflexive(a: seq<Rank>)
    ensures !Above(a, a)
    decreases |a|
  {
    if |a| > 0 {
      AboveIrreflexive(a[1..]);
    }
  }

  /** Of two sequences at most one beats the other. */
  lemma {:induction false} AboveAsymmetric(a: seq<Rank>, b: seq<Rank>)
    requires Above(a, b)
    ensures !Above(b, a)
    decreases |a|
  {
    if a[0] == b[0] {
      AboveAsymmetric(a[1..], b[1..]);
    }
  }

  /** A common beginning does not change which of two sequences beats the other. */
  lemma {:induction false} AboveSameHead(h: seq<Rank>, a: seq<Rank>, b: seq<Rank>)
    requires Above(a, b)
    ensures Above(h + a, h + b)
    decreases |h|
  {
    if |h| > 0 {
      AboveSameHead(h[1..], a, b);
      assert (h + a)[1..] == h[1..] + a;
      assert (h + b)[1..] == h[1..] + b;
    } else {
      assert h + a == a && h + b == b;
    }
  }

  /** Whoever is ahead on the beginnings stays ahead, whatever follows. */
  lemma {:induction false} AboveExtends(p: seq<Rank>, q: seq<Rank>, a: seq<Rank>, b: seq<Rank>)
    requires Above(p, q) && Leads(p, a) && Leads(q, b)
    ensures Above(a, b)
    decreases |p|
  {
    assert a[0] == a[..|p|][0];
    assert b[0] == b[..|q|][0];
    if !(p[0] > q[0]) {
      assert a[1..][..|p| - 1] == p[1..];
      assert b[1..][..|q| - 1] == q[1..];
      AboveExtends(p[1..], q[1..], a[1..], b[1..]);
    }
  }

  // ---------------------------------------------------------------------------
  // Ordered lists

  /** Two ordered lists, the first wholly ahead of the second, make an ordered list. */
  lemma AppendStrongestFirst<B>(a: seq<B>, b: seq<B>, K: B -> seq<Rank>)
    requires StrongestFirst(a, K) && StrongestFirst(b, K)
    requires forall y, z :: y in a && z in b ==> Above(K(y), K(z))
    ensures StrongestFirst(a + b, K)
  {
    var c := a + b;
    forall i, j | 0 <= i < j < |c|
      ensures Above(K(c[i]), K(c[j]))
    {
      if j < |a| {
        assert c[i] == a[i] && c[j] == a[j];
      } else if i >= |a| {
        assert c[i] == b[i - |a|] && c[j] == b[j - |a|];
      } else {
        assert c[i] == a[i] && c[j] == b[j - |a|];
        assert a[i] in a && b[j - |a|] in b;
      }
    }
  }

  /** The tail of an ordered list is ordered, and its head beats all of it. */
  lemma TailStrongestFirst<B>(ys: seq<B>, K: B -> seq<Rank>)
    requires StrongestFirst(ys, K) && |ys| > 0
    ensures StrongestFirst(ys[1..], K)
    ensures forall y :: y in ys[1..] ==> Above(K(ys[0]), K(y))
  {
    forall y | y in ys[1..]
      ensures Above(K(ys[0]), K(y))
    {
      var k :| 0 <= k < |ys[1..]| && ys[1..][k] == y;
      assert ys[k + 1] == y;
    }
    var t := ys[1..];
    forall i, j | 0 <= i < j < |t|
      ensures Above(K(t[i]), K(t[j]))
    {
      assert t[i] == ys[i + 1] && t[j] == ys[j + 1];
    }
  }

  /**
   * A nested loop is ordered when its outer list is, each block is, and each
   * block's entries begin with the deciding ranks of their outer element.
   */
  lemma {:induction false} ForEachStrongestFirst<A, B>(xs: seq<A>, f: A -> seq<B>, Kx: A -> seq<Rank>, K: B -> seq<Rank>)
    requires StrongestFirst(xs, Kx)
    requires forall x :: x in xs ==> StrongestFirst(f(x), K)
    requires forall x, y :: x in xs && y in f(x) ==> Leads(Kx(x), K(y))
    ensures StrongestFirst(ForEach(xs, f), K)
    decreases |xs|
  {
    if |xs| > 0 {
      TailStrongestFirst(xs, Kx);
      assert forall x :: x in xs[1..] ==> x in xs;
      ForEachStrongestFirst(xs[1..], f, Kx, K);
      forall y, z | y in f(xs[0]) && z in ForEach(xs[1..], f)
        ensures Above(K(y), K(z))
      {
        ForEachMembers(xs[1..], f, z);
        var x' :| x' in xs[1..] && z in f(x');
        AboveExtends(Kx(xs[0]), Kx(x'), K(y), K(z));
      }
      AppendStrongestFirst(f(xs[0]), ForEach(xs[1..], f), K);
    }
  }

  /** A block that puts a fixed beginning before the deciding ranks of an ordered list is ordered. */
  lemma BlockStrongestFirst<E, B>(blk: seq<B>, K: B -> seq<Rank>, h: seq<Rank>, xs: seq<E>, Kx: E -> seq<Rank>)
    requires |blk| == |xs| && forall j :: 0 <= j < |xs| ==> K(blk[j]) == h + Kx(xs[j])
    requires StrongestFirst(xs, Kx)
    ensures StrongestFirst(blk, K)
    ensures forall y :: y in blk ==> Leads(h, K(y))
  {
    forall i, j | 0 <= i < j < |blk|
      ensures Above(K(blk[i]), K(blk[j]))
    {
      AboveSameHead(h, Kx(xs[i]), Kx(xs[j]));
    }
    forall y | y in blk
      ensures Leads(h, K(y))
    {
      var j :| 0 <= j < |blk| && blk[j] == y;
      assert (h + Kx(xs[j]))[..|h|] == h;
    }
  }

  /** A decreasing list of ranks is ordered. */
  lemma DescendingFirst(s: seq<Rank>)
    requires Descending(s)
    ensures StrongestFirst(s, One)
  {
    forall i, j | 0 <= i < j < |s|
      ensures Above(One(s[i]), One(s[j]))
    {
      AboveOne(s[i], s[j]);
    }
  }

  /** From a decreasing list, `combinations(2)` comes out strongest first. */
  lemma {:induction false} PairsFirst(s: seq<Rank>)
    requires Descending(s)
    ensures StrongestFirst(Pairs(s), Two)
    decreases |s|
  {
    if |s| >= 2 {
      var t := s[1..];
      DescendingTail(s);
      PairsFirst(t);
      DescendingFirst(t);
      BlockStrongestFirst(Behind(s[0], t), Two, [s[0]], t, One);
      forall y, z | y in Behind(s[0], t) && z in Pairs(t)
        ensures Above(Two(y), Two(z))
      {
        PairsMembers(t, z.0, z.1);
        var k :| 0 <= k < |Behind(s[0], t)| && Behind(s[0], t)[k] == y;
      }
      AppendStrongestFirst(Behind(s[0], t), Pairs(t), Two);
    }
  }

  /** From a decreasing list, `combinations(3)` comes out strongest first. */
  lemma {:induction false} TriplesFirst(s: seq<Rank>)
    requires Descending(s)
    ensures StrongestFirst(Triples(s), Three)
    decreases |s|
  {
    if |s| >= 3 {
      var t := s[1..];
      DescendingTail(s);
      TriplesFirst(t);
      PairsFirst(t);
      BlockStrongestFirst(Before(s[0], Pairs(t)), Three, [s[0]], Pairs(t), Two);
      forall y, z | y in Before(s[0], Pairs(t)) && z in Triples(t)
        ensures Above(Three(y), Three(z))
      {
        TriplesMembers(t, z.0, z.1, z.2);
        var k :| 0 <= k < |Before(s[0], Pairs(t))| && Before(s[0], Pairs(t))[k] == y;
      }
      AppendStrongestFirst(Before(s[0], Pairs(t)), Triples(t), Three);
    }
  }

  // ---------------------------------------------------------------------------
  // The blocks of the five loops

  lemma QuadBlockFirst(i: Rank)
    ensures StrongestFirst(QuadBlock(i), Strength)
    ensures forall y :: y in QuadBlock(i) ==> Leads(One(i), Strength(y))
  {
    OthersExact(i);
    DescendingFirst(Others(i));
    BlockStrongestFirst(QuadBlock(i), Strength, One(i), Others(i), One);
  }

  lemma FullHouseBlockFirst(i: Rank)
    ensures StrongestFirst(FullHouseBlock(i), Strength)
    ensures forall y :: y in FullHouseBlock(i) ==> Leads(One(i), Strength(y))
  {
    OthersExact(i);
    DescendingFirst(Others(i));
    BlockStrongestFirst(FullHouseBlock(i), Strength, One(i), Others(i), One);
  }

  lemma TripsBlockFirst(r: Rank)
    ensures StrongestFirst(TripsBlock(r), Strength)
    ensures forall y :: y in TripsBlock(r) ==> Leads(One(r), Strength(y))
  {
    OthersExact(r);
    PairsFirst(Others(r));
    BlockStrongestFirst(TripsBlock(r), Strength, One(r), Pairs(Others(r)), Two);
  }

  lemma TwoPairBlockFirst(tp: (Rank, Rank))
    ensures StrongestFirst(TwoPairBlock(tp), Strength)
    ensures forall y :: y in TwoPairBlock(tp) ==> Leads(Two(tp), Strength(y))
  {
    var ks := Without(BACKWARDS, [tp.0, tp.1]);
    BackwardsRanks();
    WithoutDescending(BACKWARDS, [tp.0, tp.1]);
    DescendingFirst(ks);
    BlockStrongestFirst(TwoPairBlock(tp), Strength, Two(tp), ks, One);
  }

  lemma PairBlockFirst(p: Rank)
    ensures StrongestFirst(PairBlock(p), Strength)
    ensures forall y :: y in PairBlock(p) ==> Leads(One(p), Strength(y))
  {
    OthersExact(p);
    TriplesFirst(Others(p));
    BlockStrongestFirst(PairBlock(p), Strength, One(p), Triples(Others(p)), Three);
  }

  // ---------------------------------------------------------------------------
  // The five loops

  lemma QuadsOrderedOver(xs: seq<Rank>)
    requires Descending(xs)
    ensures StrongestFirst(ForEach(xs, QuadBlock), Strength)
  {
    DescendingFirst(xs);
    forall x | x in xs
      ensures StrongestFirst(QuadBlock(x), Strength)
      ensures forall y :: y in QuadBlock(x) ==> Leads(One(x), Strength(y))
    {
      QuadBlockFirst(x);
    }
    ForEachStrongestFirst(xs, QuadBlock, One, Strength);
  }

  lemma FullHousesOrderedOver(xs: seq<Rank>)
    requires Descending(xs)
    ensures StrongestFirst(ForEach(xs, FullHouseBlock), Strength)
  {
    DescendingFirst(xs);
    forall x | x in xs
      ensures StrongestFirst(FullHouseBlock(x), Strength)
      ensures forall y :: y in FullHouseBlock(x) ==> Leads(One(x), Strength(y))
    {
      FullHouseBlockFirst(x);
    }
    ForEachStrongestFirst(xs, FullHouseBlock, One, Strength);
  }

  lemma TripsOrderedOver(xs: seq<Rank>)
    requires Descending(xs)
    ensures StrongestFirst(ForEach(xs, TripsBlock), Strength)
  {
    DescendingFirst(xs);
    forall x | x in xs
      ensures StrongestFirst(TripsBlock(x), Strength)
      ensures forall y :: y in TripsBlock(x) ==> Leads(One(x), Strength(y))
    {
      TripsBlockFirst(x);
    }
    ForEachStrongestFirst(xs, TripsBlock, One, Strength);
  }

  lemma TwoPairsOrderedOver(xs: seq<Rank>)
    requires Descending(xs)
    ensures StrongestFirst(ForEach(Pairs(xs), TwoPairBlock), Strength)
  {
    PairsFirst(xs);
    forall tp | tp in Pairs(xs)
      ensures StrongestFirst(TwoPairBlock(tp), Strength)
      ensures forall y :: y in TwoPairBlock(tp) ==> Leads(Two(tp), Strength(y))
    {
      TwoPairBlockFirst(tp);
    }
    ForEachStrongestFirst(Pairs(xs), TwoPairBlock, Two, Strength);
  }

  lemma OnePairsOrderedOver(xs: seq<Rank>)
    requires Descending(xs)
    ensures StrongestFirst(ForEach(xs, PairBlock), Strength)
  {
    DescendingFirst(xs);
    forall x | x in xs
      ensures StrongestFirst(PairBlock(x), Strength)
      ensures forall y :: y in PairBlock(x) ==> Leads(One(x), Strength(y))
    {
      PairBlockFirst(x);
    }
    ForEachStrongestFirst(xs, PairBlock, One, Strength);
  }

  /** The four of a kinds come strongest first: quad rank from ace down, then kicker from ace down. */
  lemma QuadsStrongestFirst()
    ensures StrongestFirst(Quads(), Strength)
  {
    BackwardsRanks();
    QuadsOrderedOver(BACKWARDS);
  }

  /** The full houses come strongest first: trips rank, then pair rank. */
  lemma FullHousesStrongestFirst()
    ensures StrongestFirst(FullHouses(), Strength)
  {
    BackwardsRanks();
    FullHousesOrderedOver(BACKWARDS);
  }

  /** The three of a kinds come strongest first: trips rank, then high kicker, then low kicker. */
  lemma TripsStrongestFirst()
    ensures StrongestFirst(Trips(), Strength)
  {
    BackwardsRanks();
    TripsOrderedOver(BACKWARDS);
  }

  /** The two pairs come strongest first: high pair, then low pair, then kicker. */
  lemma TwoPairsStrongestFirst()
    ensures StrongestFirst(TwoPairs(), Strength)
  {
    BackwardsRanks();
    TwoPairsOrderedOver(BACKWARDS);
  }

  /** The pairs come strongest first: pair rank, then the three kickers from high to low. */
  lemma OnePairsStrongestFirst()
    ensures StrongestFirst(OnePairs(), Strength)
  {
    BackwardsRanks();
    OnePairsOrderedOver(BACKWARDS);
  }

  // ---------------------------------------------------------------------------
  // The ranks the table hands out

  /** In a run of numbered entries inserted without repeats, the i-th key maps to first + i. */
  lemma LookupAt(es: seq<(nat, nat)>, keys: seq<nat>, first: nat, i: nat)
    requires NoDup(KeysOf(es))
    requires forall e :: e in Numbered(keys, first) ==> e in es
    requires i < |keys|
    ensures keys[i] in InsertAll(es) && InsertAll(es)[keys[i]] == first + i
  {
    assert Numbered(keys, first)[i] in Numbered(keys, first);
    var j :| 0 <= j < |es| && es[j] == (keys[i], first + i);
    InsertAllLookup(es, j);
  }

  /** In a run ordered strongest first, a hand gets a smaller rank than another exactly when it beats it. */
  lemma RunRanks(es: seq<(nat, nat)>, ss: seq<Shape>, first: nat, s: Shape, t: Shape)
    requires NoDup(KeysOf(es))
    requires forall e :: e in Numbered(ShapeKeys(ss), first) ==> e in es
    requires StrongestFirst(ss, Strength)
    requires s in ss && t in ss
    ensures ShapeKey(s) in InsertAll(es) && ShapeKey(t) in InsertAll(es)
    ensures InsertAll(es)[ShapeKey(s)] < InsertAll(es)[ShapeKey(t)] <==> Above(Strength(s), Strength(t))
  {
    var i :| 0 <= i < |ss| && ss[i] == s;
    var j :| 0 <= j < |ss| && ss[j] == t;
    LookupAt(es, ShapeKeys(ss), first, i);
    LookupAt(es, ShapeKeys(ss), first, j);
    if i == j {
      AboveIrreflexive(Strength(s));
    } else if j < i {
      AboveAsymmetric(Strength(t), Strength(s));
    }
  }

  /** Of two four of a kinds, the table ranks one better exactly when it has the higher quad rank, or the same quad rank and the higher kicker. */
  lemma QuadRanks(s: Shape, t: Shape)
    requires WellFormed(s) && s.FourOfAKind? && WellFormed(t) && t.FourOfAKind?
    ensures ShapeKey(s) in Lookup.New().unsuitedLookup && ShapeKey(t) in Lookup.New().unsuitedLookup
    ensures Lookup.New().unsuitedLookup[ShapeKey(s)] < Lookup.New().unsuitedLookup[ShapeKey(t)] <==>
      Above(Strength(s), Strength(t))
  {
    UnsuitedKeysDistinct();
    UnsuitedRuns();
    QuadsExact();
    QuadsStrongestFirst();
    RunRanks(UnsuitedEntries(), Quads(), MAX_STRAIGHT_FLUSH + 1, s, t);
  }

  /** Of two full houses, the table ranks one better exactly when it has the higher trips, or the same trips and the higher pair. */
  lemma FullHouseRanks(s: Shape, t: Shape)
    requires WellFormed(s) && s.FullHouse? && WellFormed(t) && t.FullHouse?
    ensures ShapeKey(s) in Lookup.New().unsuitedLookup && ShapeKey(t) in Lookup.New().unsuitedLookup
    ensures Lookup.New().unsuitedLookup[ShapeKey(s)] < Lookup.New().unsuitedLookup[ShapeKey(t)] <==>
      Above(Strength(s), Strength(t))
  {
    UnsuitedKeysDistinct();
    UnsuitedRuns();
    FullHousesExact();
    FullHousesStrongestFirst();
    RunRanks(UnsuitedEntries(), FullHouses(), MAX_FOUR_OF_A_KIND + 1, s, t);
  }

  /** Of two three of a kinds, the table ranks one better exactly when it wins on trips, then high kicker, then low kicker. */
  lemma TripsRanks(s: Shape, t: Shape)
    requires WellFormed(s) && s.ThreeOfAKind? && WellFormed(t) && t.ThreeOfAKind?
    ensures ShapeKey(s) in Lookup.New().unsuitedLookup && ShapeKey(t) in Lookup.New().unsuitedLookup
    ensures Lookup.New().unsuitedLookup[ShapeKey(s)] < Lookup.New().unsuitedLookup[ShapeKey(t)] <==>
      Above(Strength(s), Strength(t))
  {
    UnsuitedKeysDistinct();
    UnsuitedRuns();
    TripsExact();
    TripsStrongestFirst();
    RunRanks(UnsuitedEntries(), Trips(), MAX_STRAIGHT + 1, s, t);
  }

  /** Of two two pairs, the table ranks one better exactly when it wins on high pair, then low pair, then kicker. */
  lemma TwoPairRanks(s: Shape, t: Shape)
    requires WellFormed(s) && s.TwoPair? && WellFormed(t) && t.TwoPair?
    ensures ShapeKey(s) in Lookup.New().unsuitedLookup && ShapeKey(t) in Lookup.New().unsuitedLookup
    ensures Lookup.New().unsuitedLookup[ShapeKey(s)] < Lookup.New().unsuitedLookup[ShapeKey(t)] <==>
      Above(Strength(s), Strength(t))
  {
    UnsuitedKeysDistinct();
    UnsuitedRuns();
    TwoPairsExact();
    TwoPairsStrongestFirst();
    RunRanks(UnsuitedEntries(), TwoPairs(), MAX_THREE_OF_A_KIND + 1, s, t);
  }

  /** Of two pairs, the table ranks one better exactly when it wins on pair rank, then the kickers from high to low. */
  lemma PairRanks(s: Shape, t: Shape)
    requires WellFormed(s) && s.OnePair? && WellFormed(t) && t.OnePair?
    ensures ShapeKey(s) in Lookup.New().unsuitedLookup && ShapeKey(t) in Lookup.New().unsuitedLookup
    ensures Lookup.New().unsuitedLookup[ShapeKey(s)] < Lookup.New().unsuitedLookup[ShapeKey(t)] <==>
      Above(Strength(s), Strength(t))
  {
    UnsuitedKeysDistinct();
    UnsuitedRuns();
    OnePairsExact();
    OnePairsStrongestFirst();
    RunRanks(UnsuitedEntries(), OnePairs(), MAX_TWO_PAIR + 1, s, t);
  }

  // ---------------------------------------------------------------------------
  // The pattern runs

  /** The j-th literal straight has the prime product of the j-th straight's ranks as its key. */
  lemma StraightKeyAt(j: nat)
    requires j < |STRAIGHT_FLUSHES|
    ensures PatternKeys(STRAIGHT_FLUSHES)[j] == RankKey(StraightAt(j))
  {
    StraightAtMask(j);
    StraightsFiveRanks();
    assert STRAIGHT_FLUSHES[j] in STRAIGHT_FLUSHES;
    AsU32Small(STRAIGHT_FLUSHES[j]);
    RankMaskKey(StraightAt(j));
  }

  /** The straight flush j places below the royal flush, the wheel last, gets flush rank j + 1. */
  lemma StraightFlushRank(j: nat)
    requires j < |STRAIGHT_FLUSHES|
    ensures RankKey(StraightAt(j)) in Lookup.New().flushLookup
    ensures Lookup.New().flushLookup[RankKey(StraightAt(j))] == j + 1
  {
    StraightKeyAt(j);
    FlushKeysDistinct();
    LookupAt(FlushEntries(), PatternKeys(STRAIGHT_FLUSHES), 1, j);
  }

  /** The straight j places below the ace-high one, the wheel last, gets unsuited rank MAX_FLUSH + 1 + j. */
  lemma StraightRank(j: nat)
    requires j < |STRAIGHT_FLUSHES|
    ensures RankKey(StraightAt(j)) in Lookup.New().unsuitedLookup
    ensures Lookup.New().unsuitedLookup[RankKey(StraightAt(j))] == MAX_FLUSH + 1 + j
  {
    StraightKeyAt(j);
    UnsuitedKeysDistinct();
    UnsuitedRuns();
    LookupAt(UnsuitedEntries(), PatternKeys(STRAIGHT_FLUSHES), MAX_FLUSH + 1, j);
  }

  /** r is the highest rank where the masks x and y differ, and x holds it. */
  ghost predicate HighestDifference(x: nat, y: nat, r: nat)
  {
    Bit(x, r) && !Bit(y, r) && forall s: nat :: r < s ==> Bit(x, s) == Bit(y, s)
  }

  /** Two numbers that agree on every bit are equal; Fields.SameBits is the same fact within a given width. */
  lemma {:induction false} EveryBitEqual(a: nat, c: nat)
    requires forall s: nat :: Bit(a, s) == Bit(c, s)
    ensures a == c
    decreases a + c
  {
    if a + c > 0 {
      assert Bit(a, 0) == Bit(c, 0);
      forall s: nat
        ensures Bit(a / 2, s) == Bit(c / 2, s)
      {
        assert Bit(a, s + 1) == Bit(c, s + 1);
      }
      EveryBitEqual(a / 2, c / 2);
    }
  }

  /**
   * One mask is larger than another exactly when it holds the highest rank
   * where the two differ: comparing masks compares the hands card by card from
   * the ace down.
   */
  lemma {:induction false} MaskOrder(x: nat, y: nat)
    ensures x > y <==> exists r: nat :: HighestDifference(x, y, r)
    decreases x + y
  {
    var a, c := x / 2, y / 2;
    assert forall s: nat :: Bit(x, s + 1) == Bit(a, s) && Bit(y, s + 1) == Bit(c, s);
    if a == c {
      if x > y {
        forall s: nat | 0 < s
          ensures Bit(x, s) == Bit(y, s)
        {
          assert Bit(x, (s - 1) + 1) == Bit(a, s - 1);
        }
        assert HighestDifference(x, y, 0);
      }
      if r: nat :| HighestDifference(x, y, r) {
        assert r == 0;
      }
    } else {
      MaskOrder(a, c);
      if x > y {
        var r: nat :| HighestDifference(a, c, r);
        forall s: nat | r + 1 < s
          ensures Bit(x, s) == Bit(y, s)
        {
          assert Bit(x, (s - 1) + 1) == Bit(a, s - 1) && Bit(y, (s - 1) + 1) == Bit(c, s - 1);
        }
        assert HighestDifference(x, y, r + 1);
      }
      if r: nat :| HighestDifference(x, y, r) {
        if r == 0 {
          forall s: nat
            ensures Bit(a, s) == Bit(c, s)
          {
            assert Bit(x, s + 1) == Bit(y, s + 1);
          }
          EveryBitEqual(a, c);
        }
        forall s: nat | r - 1 < s
          ensures Bit(a, s) == Bit(c, s)
        {
          assert Bit(x, s + 1) == Bit(y, s + 1);
        }
        assert HighestDifference(a, c, r - 1);
      }
    }
  }

  /** In a run of pattern keys ordered by decreasing mask, a mask gets a smaller rank than another exactly when it is larger. */
  lemma PatternRunRanks(es: seq<(nat, nat)>, fs: seq<int>, first: nat, x: int, y: int)
    requires NoDup(KeysOf(es))
    requires forall e :: e in Numbered(PatternKeys(fs), first) ==> e in es
    requires Descending(fs)
    requires x in fs && y in fs && 0 <= x < 0x2000 && 0 <= y < 0x2000
    ensures PrimeProductFromRankBits(x) in InsertAll(es) && PrimeProductFromRankBits(y) in InsertAll(es)
    ensures InsertAll(es)[PrimeProductFromRankBits(x)] < InsertAll(es)[PrimeProductFromRankBits(y)] <==> x > y
  {
    var i :| 0 <= i < |fs| && fs[i] == x;
    var j :| 0 <= j < |fs| && fs[j] == y;
    AsU32Small(x);
    AsU32Small(y);
    LookupAt(es, PatternKeys(fs), first, i);
    LookupAt(es, PatternKeys(fs), first, j);
  }

  /** Of two flushes that are not straight flushes, the flush map ranks one better exactly when its rank mask is larger. */
  lemma FlushOrder(x: int, y: int)
    requires FiveRanks(x) && x !in STRAIGHT_FLUSHES && FiveRanks(y) && y !in STRAIGHT_FLUSHES
    ensures PrimeProductFromRankBits(x) in Lookup.New().flushLookup
    ensures PrimeProductFromRankBits(y) in Lookup.New().flushLookup
    ensures Lookup.New().flushLookup[PrimeProductFromRankBits(x)] < Lookup.New().flushLookup[PrimeProductFromRankBits(y)] <==>
      x > y
    ensures x > y <==> exists r: nat :: HighestDifference(x, y, r)
  {
    MaskOrder(x, y);
    FlushKeysDistinct();
    FlushPatternsExact();
    PatternRunRanks(FlushEntries(), FlushPatterns(), MAX_FULL_HOUSE + 1, x, y);
  }

  /** Of two high-card hands, the unsuited map ranks one better exactly when its rank mask is larger. */
  lemma HighCardOrder(x: int, y: int)
    requires FiveRanks(x) && x !in STRAIGHT_FLUSHES && FiveRanks(y) && y !in STRAIGHT_FLUSHES
    ensures PrimeProductFromRankBits(x) in Lookup.New().unsuitedLookup
    ensures PrimeProductFromRankBits(y) in Lookup.New().unsuitedLookup
    ensures Lookup.New().unsuitedLookup[PrimeProductFromRankBits(x)] < Lookup.New().unsuitedLookup[PrimeProductFromRankBits(y)] <==>
      x > y
    ensures x > y <==> exists r: nat :: HighestDifference(x, y, r)
  {
    MaskOrder(x, y);
    UnsuitedKeysDistinct();
    UnsuitedRuns();
    FlushPatternsExact();
    PatternRunRanks(UnsuitedEntries(), FlushPatterns(), MAX_PAIR + 1, x, y);
  }
}
