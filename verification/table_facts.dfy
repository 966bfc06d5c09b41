/**
 * What LookupTable::new builds.  No key is inserted twice, so the flush map
 * has 1287 entries and the unsuited map 6175.  The flush map hands out the
 * ranks 1..10 and 323..1599, the unsuited map 11..322 and 1600..7462, so the
 * maps share no rank and together use every rank from 1 to 7462.  Every
 * five-rank pattern and every hand with a repeated rank finds its key, with a
 * rank inside its category's range.
 */
module TableContents {
  import opened Bits
  import opened Card
  import opened Keys
  import opened Shapes
  import opened Sequences
  import opened Tables
  import opened Lookup
  import opened Patterns
  import opened Multiples

  // ---------------------------------------------------------------------------
  // Categories

  /** The worst rank of class c (1 straight flush, ..., 9 high card), and 0 below class 1. */
  function ClassMax(c: nat): nat
    requires c <= 9
  {
    [0, MAX_STRAIGHT_FLUSH, MAX_FOUR_OF_A_KIND, MAX_FULL_HOUSE, MAX_FLUSH,
     MAX_STRAIGHT, MAX_THREE_OF_A_KIND, MAX_TWO_PAIR, MAX_PAIR, MAX_HIGH_CARD][c]
  }

  /** Rank v lies in class c: above the worst rank of the class before, at most its own worst rank. */
  predicate InClass(v: int, c: nat)
  {
    1 <= c <= 9 && ClassMax(c - 1) < v <= ClassMax(c)
  }

  /** The class of a hand with a repeated rank. */
  function ShapeClass(s: Shape): nat
  {
    match s
    case FourOfAKind(_, _) => 2
    case FullHouse(_, _) => 3
    case ThreeOfAKind(_, _, _) => 6
    case TwoPair(_, _, _) => 7
    case OnePair(_, _, _, _) => 8
  }

  // ---------------------------------------------------------------------------
  // Keys of patterns and shapes

  /** The key of a five-rank mask is the key of its five distinct ranks. */
  lemma MaskKey(x: int)
    requires FiveRanks(x)
    ensures PrimeProductFromRankBits(AsU32(x)) == RankKey(RanksOf(x))
    ensures |RanksOf(x)| == 5 && NoDup(RanksOf(x))
  {
    AsU32Small(x);
    RankBitsKey(x);
    SmallPowers();
    RanksOfCount(x);
    RanksOfMembers(x);
  }

  /** No five-rank pattern shares its key with a hand that repeats a rank. */
  lemma PatternNotShape(x: int, s: Shape)
    requires FiveRanks(x)
    ensures PrimeProductFromRankBits(AsU32(x)) != ShapeKey(s)
  {
    MaskKey(x);
    ProductIsKey(s);
    RankKeyInjective(RanksOf(x), Ranks(s));
    var m := MainRank(s);
    MultCount(s, m);
    NoDupCount(RanksOf(x), m);
  }

  /** Distinct well-formed shapes have distinct keys. */
  lemma ShapeKeysDistinct(ss: seq<Shape>)
    requires NoDup(ss) && forall s :: s in ss ==> WellFormed(s)
    ensures NoDup(ShapeKeys(ss))
  {
    forall i, j | 0 <= i < j < |ss|
      ensures ShapeKey(ss[i]) != ShapeKey(ss[j])
    {
      assert ss[i] in ss && ss[j] in ss;
      ProductIsKey(ss[i]);
      ProductIsKey(ss[j]);
      RankKeyInjective(Ranks(ss[i]), Ranks(ss[j]));
      ShapeInjective(ss[i], ss[j]);
    }
  }

  /** Pattern keys followed by shape keys repeat nothing when neither list does. */
  lemma PatternsThenShapes(ps: seq<int>, ss: seq<Shape>)
    requires forall x :: x in ps ==> FiveRanks(x)
    requires NoDup(PatternKeys(ps)) && NoDup(ShapeKeys(ss))
    ensures NoDup(PatternKeys(ps) + ShapeKeys(ss))
  {
    forall k | k in PatternKeys(ps)
      ensures k !in ShapeKeys(ss)
    {
      var i :| 0 <= i < |ps| && PatternKeys(ps)[i] == k;
      assert ps[i] in ps;
      forall j | 0 <= j < |ss|
        ensures ShapeKeys(ss)[j] != k
      {
        PatternNotShape(ps[i], ss[j]);
      }
    }
    NoDupAppend(PatternKeys(ps), ShapeKeys(ss));
  }

  lemma FiveShapeKeys(a: seq<Shape>, b: seq<Shape>, c: seq<Shape>, d: seq<Shape>, e: seq<Shape>)
    ensures ShapeKeys(a + b + c + d + e) == ShapeKeys(a) + ShapeKeys(b) + ShapeKeys(c) + ShapeKeys(d) + ShapeKeys(e)
  {
  }

  /** A mask in a list of patterns has its key among the list's keys. */
  lemma PatternKeyIn(fs: seq<int>, x: int)
    requires x in fs && 0 <= x < 0x2000
    ensures PrimeProductFromRankBits(x) in PatternKeys(fs)
  {
    var i :| 0 <= i < |fs| && fs[i] == x;
    AsU32Small(x);
    assert PatternKeys(fs)[i] == PrimeProductFromRankBits(x);
  }

  lemma ShapeKeyIn(ss: seq<Shape>, s: Shape)
    requires s in ss
    ensures ShapeKey(s) in ShapeKeys(ss)
  {
    var i :| 0 <= i < |ss| && ss[i] == s;
    assert ShapeKeys(ss)[i] == ShapeKey(s);
  }

  // ---------------------------------------------------------------------------
  // All shapes

  /** The hands `multiples` ranks, in insertion order. */
  function AllShapes(): seq<Shape>
  {
    Quads() + FullHouses() + Trips() + TwoPairs() + OnePairs()
  }

  lemma JoinShapes(a: seq<Shape>, b: seq<Shape>, c: seq<Shape>, d: seq<Shape>, e: seq<Shape>)
    requires NoDup(a) && NoDup(b) && NoDup(c) && NoDup(d) && NoDup(e)
    requires forall s :: s in a <==> s.FourOfAKind? && WellFormed(s)
    requires forall s :: s in b <==> s.FullHouse? && WellFormed(s)
    requires forall s :: s in c <==> s.ThreeOfAKind? && WellFormed(s)
    requires forall s :: s in d <==> s.TwoPair? && WellFormed(s)
    requires forall s :: s in e <==> s.OnePair? && WellFormed(s)
    ensures forall s :: s in a + b + c + d + e <==> WellFormed(s)
    ensures NoDup(a + b + c + d + e)
  {
    NoDupAppend(a, b);
    NoDupAppend(a + b, c);
    NoDupAppend(a + b + c, d);
    NoDupAppend(a + b + c + d, e);
  }

  /** `multiples` ranks every well-formed shape exactly once: 4888 hands. */
  lemma AllShapesExact()
    ensures forall s :: s in AllShapes() <==> WellFormed(s)
    ensures NoDup(AllShapes()) && |AllShapes()| == 4888
  {
    QuadsExact();
    FullHousesExact();
    TripsExact();
    TwoPairsExact();
    OnePairsExact();
    JoinShapes(Quads(), FullHouses(), Trips(), TwoPairs(), OnePairs());
  }

  // ---------------------------------------------------------------------------
  // The keys of the two maps

  lemma TwoNumberedKeys(k1: seq<nat>, f1: nat, k2: seq<nat>, f2: nat)
    ensures KeysOf(Numbered(k1, f1) + Numbered(k2, f2)) == k1 + k2
  {
    KeysOfAppend(Numbered(k1, f1), Numbered(k2, f2));
    NumberedKeys(k1, f1);
    NumberedKeys(k2, f2);
  }

  lemma FiveNumberedKeys(k1: seq<nat>, f1: nat, k2: seq<nat>, f2: nat, k3: seq<nat>, f3: nat,
                         k4: seq<nat>, f4: nat, k5: seq<nat>, f5: nat)
    ensures KeysOf(Numbered(k1, f1) + Numbered(k2, f2) + Numbered(k3, f3) + Numbered(k4, f4) + Numbered(k5, f5))
         == k1 + k2 + k3 + k4 + k5
  {
    var n1, n2, n3, n4, n5 := Numbered(k1, f1), Numbered(k2, f2), Numbered(k3, f3), Numbered(k4, f4), Numbered(k5, f5);
    KeysOfAppend(n1 + n2 + n3 + n4, n5);
    KeysOfAppend(n1 + n2 + n3, n4);
    KeysOfAppend(n1 + n2, n3);
    KeysOfAppend(n1, n2);
    NumberedKeys(k1, f1);
    NumberedKeys(k2, f2);
    NumberedKeys(k3, f3);
    NumberedKeys(k4, f4);
    NumberedKeys(k5, f5);
  }

  /** The flush map's keys are those of the straights and then of the other flush patterns. */
  lemma FlushKeys()
    ensures KeysOf(FlushEntries()) == PatternKeys(STRAIGHT_FLUSHES + FlushPatterns())
  {
    TwoNumberedKeys(PatternKeys(STRAIGHT_FLUSHES), 1, PatternKeys(FlushPatterns()), MAX_FULL_HOUSE + 1);
    PatternKeysAppend(STRAIGHT_FLUSHES, FlushPatterns());
  }

  lemma MultiplesKeys()
    ensures KeysOf(MultiplesEntries()) == ShapeKeys(AllShapes())
  {
    FiveNumberedKeys(ShapeKeys(Quads()), MAX_STRAIGHT_FLUSH + 1, ShapeKeys(FullHouses()), MAX_FOUR_OF_A_KIND + 1,
                     ShapeKeys(Trips()), MAX_STRAIGHT + 1, ShapeKeys(TwoPairs()), MAX_THREE_OF_A_KIND + 1,
                     ShapeKeys(OnePairs()), MAX_TWO_PAIR + 1);
    FiveShapeKeys(Quads(), FullHouses(), Trips(), TwoPairs(), OnePairs());
  }

  /** The unsuited map's keys are those of all patterns and then those of all shapes. */
  lemma UnsuitedKeys()
    ensures KeysOf(UnsuitedEntries()) == PatternKeys(STRAIGHT_FLUSHES + FlushPatterns()) + ShapeKeys(AllShapes())
  {
    KeysOfAppend(StraightEntries() + HighCardEntries(), MultiplesEntries());
    TwoNumberedKeys(PatternKeys(STRAIGHT_FLUSHES), MAX_FLUSH + 1, PatternKeys(FlushPatterns()), MAX_PAIR + 1);
    PatternKeysAppend(STRAIGHT_FLUSHES, FlushPatterns());
    MultiplesKeys();
  }

  /** `flushes` never inserts a key twice. */
  lemma FlushKeysDistinct()
    ensures NoDup(KeysOf(FlushEntries()))
  {
    FlushKeys();
    AllPatternKeysDistinct();
    PatternKeysAppend(STRAIGHT_FLUSHES, FlushPatterns());
  }

  /** `straight_and_highcards` and `multiples` never insert a key twice. */
  lemma UnsuitedKeysDistinct()
    ensures NoDup(KeysOf(UnsuitedEntries()))
  {
    UnsuitedKeys();
    AllPatterns();
    AllPatternKeysDistinct();
    PatternKeysAppend(STRAIGHT_FLUSHES, FlushPatterns());
    AllShapesExact();
    ShapeKeysDistinct(AllShapes());
    PatternsThenShapes(STRAIGHT_FLUSHES + FlushPatterns(), AllShapes());
  }

  /** The flush map holds 1287 entries and the unsuited map 6175. */
  lemma TableSizes()
    ensures |Lookup.New().flushLookup| == 1287
    ensures |Lookup.New().unsuitedLookup| == 6175
  {
    FlushKeysDistinct();
    UnsuitedKeysDistinct();
    InsertAllSize(FlushEntries());
    InsertAllSize(UnsuitedEntries());
    FlushKeys();
    UnsuitedKeys();
    FlushPatternsExact();
    AllShapesExact();
  }

  // ---------------------------------------------------------------------------
  // The ranks of the two maps

  /** The ranks of numbered entries placed one after another. */
  lemma TwoNumberedValues(k1: seq<nat>, f1: nat, k2: seq<nat>, f2: nat)
    ensures forall v :: v in ValuesOf(Numbered(k1, f1) + Numbered(k2, f2)) <==>
      f1 <= v < f1 + |k1| || f2 <= v < f2 + |k2|
  {
    ValuesOfAppend(Numbered(k1, f1), Numbered(k2, f2));
    NumberedValues(k1, f1);
    NumberedValues(k2, f2);
  }

  lemma FiveNumberedValues(k1: seq<nat>, f1: nat, k2: seq<nat>, f2: nat, k3: seq<nat>, f3: nat,
                           k4: seq<nat>, f4: nat, k5: seq<nat>, f5: nat)
    ensures forall v :: v in ValuesOf(Numbered(k1, f1) + Numbered(k2, f2) + Numbered(k3, f3) + Numbered(k4, f4) + Numbered(k5, f5)) <==>
      f1 <= v < f1 + |k1| || f2 <= v < f2 + |k2| || f3 <= v < f3 + |k3| || f4 <= v < f4 + |k4| || f5 <= v < f5 + |k5|
  {
    var n1, n2, n3, n4, n5 := Numbered(k1, f1), Numbered(k2, f2), Numbered(k3, f3), Numbered(k4, f4), Numbered(k5, f5);
    ValuesOfAppend(n1 + n2 + n3 + n4, n5);
    ValuesOfAppend(n1 + n2 + n3, n4);
    ValuesOfAppend(n1 + n2, n3);
    ValuesOfAppend(n1, n2);
    NumberedValues(k1, f1);
    NumberedValues(k2, f2);
    NumberedValues(k3, f3);
    NumberedValues(k4, f4);
    NumberedValues(k5, f5);
  }

  /** `flushes` hands out the straight-flush ranks 1..10 and the flush ranks 323..1599. */
  lemma FlushEntryRanks()
    ensures forall v :: v in ValuesOf(FlushEntries()) <==>
      1 <= v <= MAX_STRAIGHT_FLUSH || MAX_FULL_HOUSE < v <= MAX_FLUSH
  {
    FlushPatternsExact();
    TwoNumberedValues(PatternKeys(STRAIGHT_FLUSHES), 1, PatternKeys(FlushPatterns()), MAX_FULL_HOUSE + 1);
  }

  /** `multiples` hands out 11..322 and 1610..6185. */
  lemma MultiplesEntryRanks()
    ensures forall v :: v in ValuesOf(MultiplesEntries()) <==>
      MAX_STRAIGHT_FLUSH < v <= MAX_FULL_HOUSE || MAX_STRAIGHT < v <= MAX_PAIR
  {
    QuadsExact();
    FullHousesExact();
    TripsExact();
    TwoPairsExact();
    OnePairsExact();
    FiveNumberedValues(ShapeKeys(Quads()), MAX_STRAIGHT_FLUSH + 1, ShapeKeys(FullHouses()), MAX_FOUR_OF_A_KIND + 1,
                       ShapeKeys(Trips()), MAX_STRAIGHT + 1, ShapeKeys(TwoPairs()), MAX_THREE_OF_A_KIND + 1,
                       ShapeKeys(OnePairs()), MAX_TWO_PAIR + 1);
  }

  /** `straight_and_highcards` hands out the straight ranks 1600..1609 and the high-card ranks 6186..7462. */
  lemma StraightHighRanks()
    ensures forall v :: v in ValuesOf(StraightEntries() + HighCardEntries()) <==>
      MAX_FLUSH < v <= MAX_STRAIGHT || MAX_PAIR < v <= MAX_HIGH_CARD
  {
    FlushPatternsExact();
    TwoNumberedValues(PatternKeys(STRAIGHT_FLUSHES), MAX_FLUSH + 1, PatternKeys(FlushPatterns()), MAX_PAIR + 1);
  }

  lemma JoinUnsuitedRanks(p: seq<(nat, nat)>, q: seq<(nat, nat)>)
    requires forall v :: v in ValuesOf(p) <==> MAX_FLUSH < v <= MAX_STRAIGHT || MAX_PAIR < v <= MAX_HIGH_CARD
    requires forall v :: v in ValuesOf(q) <==> MAX_STRAIGHT_FLUSH < v <= MAX_FULL_HOUSE || MAX_STRAIGHT < v <= MAX_PAIR
    ensures forall v :: v in ValuesOf(p + q) <==> MAX_STRAIGHT_FLUSH < v <= MAX_FULL_HOUSE || MAX_FLUSH < v <= MAX_HIGH_CARD
  {
    ValuesOfAppend(p, q);
  }

  /** The unsuited inserts hand out 11..322 and 1600..7462. */
  lemma UnsuitedEntryRanks()
    ensures forall v :: v in ValuesOf(UnsuitedEntries()) <==>
      MAX_STRAIGHT_FLUSH < v <= MAX_FULL_HOUSE || MAX_FLUSH < v <= MAX_HIGH_CARD
  {
    StraightHighRanks();
    MultiplesEntryRanks();
    JoinUnsuitedRanks(StraightEntries() + HighCardEntries(), MultiplesEntries());
  }

  /** The ranks stored in the flush map. */
  lemma FlushRanks()
    ensures forall v :: v in Lookup.New().flushLookup.Values <==>
      1 <= v <= MAX_STRAIGHT_FLUSH || MAX_FULL_HOUSE < v <= MAX_FLUSH
  {
    FlushKeysDistinct();
    InsertAllValues(FlushEntries());
    FlushEntryRanks();
  }

  /** The ranks stored in the unsuited map. */
  lemma UnsuitedRanks()
    ensures forall v :: v in Lookup.New().unsuitedLookup.Values <==>
      MAX_STRAIGHT_FLUSH < v <= MAX_FULL_HOUSE || MAX_FLUSH < v <= MAX_HIGH_CARD
  {
    UnsuitedKeysDistinct();
    InsertAllValues(UnsuitedEntries());
    UnsuitedEntryRanks();
  }

  lemma Partition(f: set<nat>, u: set<nat>)
    requires forall v :: v in f <==> 1 <= v <= MAX_STRAIGHT_FLUSH || MAX_FULL_HOUSE < v <= MAX_FLUSH
    requires forall v :: v in u <==> MAX_STRAIGHT_FLUSH < v <= MAX_FULL_HOUSE || MAX_FLUSH < v <= MAX_HIGH_CARD
    ensures forall v :: v in f ==> v !in u
    ensures forall v :: v in f || v in u <==> 1 <= v <= MAX_HIGH_CARD
  {
  }

  /** The two maps share no rank, and together they use exactly the ranks 1..7462. */
  lemma RanksPartition()
    ensures forall v :: v in Lookup.New().flushLookup.Values ==> v !in Lookup.New().unsuitedLookup.Values
    ensures forall v :: v in Lookup.New().flushLookup.Values || v in Lookup.New().unsuitedLookup.Values <==>
      1 <= v <= MAX_HIGH_CARD
  {
    FlushRanks();
    UnsuitedRanks();
    Partition(Lookup.New().flushLookup.Values, Lookup.New().unsuitedLookup.Values);
  }

  // ---------------------------------------------------------------------------
  // Looking keys up

  /** A key of a run of numbered entries inserted without repeats maps to a rank of that run. */
  lemma LookupPart(es: seq<(nat, nat)>, keys: seq<nat>, first: nat, k: nat)
    requires NoDup(KeysOf(es))
    requires forall e :: e in Numbered(keys, first) ==> e in es
    requires k in keys
    ensures k in InsertAll(es) && first <= InsertAll(es)[k] < first + |keys|
  {
    var i :| 0 <= i < |keys| && keys[i] == k;
    assert Numbered(keys, first)[i] in Numbered(keys, first);
    var j :| 0 <= j < |es| && es[j] == (k, first + i);
    InsertAllLookup(es, j);
  }

  /** A run that hands out exactly the ranks of class c. */
  predicate ClassRun(first: nat, n: nat, c: nat)
  {
    1 <= c <= 9 && first == ClassMax(c - 1) + 1 && first + n == ClassMax(c) + 1
  }

  lemma RunInClass(v: int, first: nat, n: nat, c: nat)
    requires ClassRun(first, n, c) && first <= v < first + n
    ensures InClass(v, c)
  {
  }

  /**
   * The pattern runs of both maps, given the sizes of the two pattern lists.
   * This lemma and ShapeRuns take the sizes as parameters pinned by their
   * preconditions, so that the callers pass `|Patterns()|` and the like, whose
   * values other lemmas establish, without the verifier computing the lists.
   */
  lemma PatternRuns(a: nat, b: nat)
    requires a == 10 && b == 1277
    ensures ClassRun(1, a, 1) && ClassRun(MAX_FULL_HOUSE + 1, b, 4)
    ensures ClassRun(MAX_FLUSH + 1, a, 5) && ClassRun(MAX_PAIR + 1, b, 9)
  {
  }

  /** The five shape runs of the unsuited map, given the sizes of the five shape lists. */
  lemma ShapeRuns(q: nat, f: nat, t: nat, tp: nat, p: nat)
    requires q == 156 && f == 156 && t == 858 && tp == 858 && p == 2860
    ensures ClassRun(MAX_STRAIGHT_FLUSH + 1, q, 2) && ClassRun(MAX_FOUR_OF_A_KIND + 1, f, 3)
    ensures ClassRun(MAX_STRAIGHT + 1, t, 6) && ClassRun(MAX_THREE_OF_A_KIND + 1, tp, 7)
    ensures ClassRun(MAX_TWO_PAIR + 1, p, 8)
  {
  }

  /**
   * A five-rank mask that is one of the straights `a` or one of the other
   * patterns `b` gets a rank of class c1 or c2 respectively.
   */
  lemma PatternLookup(es: seq<(nat, nat)>, a: seq<int>, f1: nat, c1: nat, b: seq<int>, f2: nat, c2: nat, x: int)
    requires NoDup(KeysOf(es))
    requires forall e :: e in Numbered(PatternKeys(a), f1) ==> e in es
    requires forall e :: e in Numbered(PatternKeys(b), f2) ==> e in es
    requires ClassRun(f1, |a|, c1) && ClassRun(f2, |b|, c2)
    requires FiveRanks(x) && (x in a || x in b)
    ensures PrimeProductFromRankBits(x) in InsertAll(es)
    ensures InClass(InsertAll(es)[PrimeProductFromRankBits(x)], if x in a then c1 else c2)
  {
    var k := PrimeProductFromRankBits(x);
    if x in a {
      PatternKeyIn(a, x);
      LookupPart(es, PatternKeys(a), f1, k);
      RunInClass(InsertAll(es)[k], f1, |a|, c1);
    } else {
      PatternKeyIn(b, x);
      LookupPart(es, PatternKeys(b), f2, k);
      RunInClass(InsertAll(es)[k], f2, |b|, c2);
    }
  }

  /** A shape in a run of shape keys gets a rank of the run's class. */
  lemma ShapeRunLookup(es: seq<(nat, nat)>, ss: seq<Shape>, first: nat, c: nat, s: Shape)
    requires NoDup(KeysOf(es))
    requires forall e :: e in Numbered(ShapeKeys(ss), first) ==> e in es
    requires ClassRun(first, |ss|, c)
    requires s in ss
    ensures ShapeKey(s) in InsertAll(es) && InClass(InsertAll(es)[ShapeKey(s)], c)
  {
    ShapeKeyIn(ss, s);
    LookupPart(es, ShapeKeys(ss), first, ShapeKey(s));
    RunInClass(InsertAll(es)[ShapeKey(s)], first, |ss|, c);
  }

  /** Each run of numbered entries of the unsuited inserts is part of them. */
  lemma SevenRuns(es: seq<(nat, nat)>, a: seq<(nat, nat)>, b: seq<(nat, nat)>, c: seq<(nat, nat)>, d: seq<(nat, nat)>,
                  e: seq<(nat, nat)>, f: seq<(nat, nat)>, g: seq<(nat, nat)>)
    requires es == a + b + (c + d + e + f + g)
    ensures forall x :: x in a ==> x in es
    ensures forall x :: x in b ==> x in es
    ensures forall x :: x in c ==> x in es
    ensures forall x :: x in d ==> x in es
    ensures forall x :: x in e ==> x in es
    ensures forall x :: x in f ==> x in es
    ensures forall x :: x in g ==> x in es
  {
  }

  lemma UnsuitedRuns()
    ensures forall x :: x in StraightEntries() ==> x in UnsuitedEntries()
    ensures forall x :: x in HighCardEntries() ==> x in UnsuitedEntries()
    ensures forall x :: x in QuadEntries() ==> x in UnsuitedEntries()
    ensures forall x :: x in FullHouseEntries() ==> x in UnsuitedEntries()
    ensures forall x :: x in TripsEntries() ==> x in UnsuitedEntries()
    ensures forall x :: x in TwoPairEntries() ==> x in UnsuitedEntries()
    ensures forall x :: x in PairEntries() ==> x in UnsuitedEntries()
  {
    SevenRuns(UnsuitedEntries(), StraightEntries(), HighCardEntries(), QuadEntries(), FullHouseEntries(),
              TripsEntries(), TwoPairEntries(), PairEntries());
  }

  /** Every five-rank mask is a key of the flush map: a straight flush (class 1) or a flush (class 4). */
  lemma FlushLookup(x: int)
    requires FiveRanks(x)
    ensures PrimeProductFromRankBits(x) in Lookup.New().flushLookup
    ensures InClass(Lookup.New().flushLookup[PrimeProductFromRankBits(x)], if x in STRAIGHT_FLUSHES then 1 else 4)
  {
    FlushKeysDistinct();
    FlushPatternsExact();
    PatternRuns(|STRAIGHT_FLUSHES|, |FlushPatterns()|);
    PatternLookup(FlushEntries(), STRAIGHT_FLUSHES, 1, 1, FlushPatterns(), MAX_FULL_HOUSE + 1, 4, x);
  }

  /** Every five-rank mask is a key of the unsuited map: a straight (class 5) or a high card (class 9). */
  lemma UnsuitedLookup(x: int)
    requires FiveRanks(x)
    ensures PrimeProductFromRankBits(x) in Lookup.New().unsuitedLookup
    ensures InClass(Lookup.New().unsuitedLookup[PrimeProductFromRankBits(x)], if x in STRAIGHT_FLUSHES then 5 else 9)
  {
    UnsuitedKeysDistinct();
    FlushPatternsExact();
    UnsuitedRuns();
    PatternRuns(|STRAIGHT_FLUSHES|, |FlushPatterns()|);
    PatternLookup(UnsuitedEntries(), STRAIGHT_FLUSHES, MAX_FLUSH + 1, 5, FlushPatterns(), MAX_PAIR + 1, 9, x);
  }

  lemma ShapeRunSizes()
    ensures ClassRun(MAX_STRAIGHT_FLUSH + 1, |Quads()|, 2) && ClassRun(MAX_FOUR_OF_A_KIND + 1, |FullHouses()|, 3)
    ensures ClassRun(MAX_STRAIGHT + 1, |Trips()|, 6) && ClassRun(MAX_THREE_OF_A_KIND + 1, |TwoPairs()|, 7)
    ensures ClassRun(MAX_TWO_PAIR + 1, |OnePairs()|, 8)
  {
    QuadsExact();
    FullHousesExact();
    TripsExact();
    TwoPairsExact();
    OnePairsExact();
    ShapeRuns(|Quads()|, |FullHouses()|, |Trips()|, |TwoPairs()|, |OnePairs()|);
  }

  /** Every four of a kind is a key of the unsuited map with a rank of class 2. */
  lemma QuadLookup(s: Shape)
    requires WellFormed(s) && s.FourOfAKind?
    ensures ShapeKey(s) in Lookup.New().unsuitedLookup && InClass(Lookup.New().unsuitedLookup[ShapeKey(s)], 2)
  {
    UnsuitedKeysDistinct();
    UnsuitedRuns();
    QuadsExact();
    ShapeRunSizes();
    ShapeRunLookup(UnsuitedEntries(), Quads(), MAX_STRAIGHT_FLUSH + 1, 2, s);
  }

  /** Every full house is a key of the unsuited map with a rank of class 3. */
  lemma FullHouseLookup(s: Shape)
    requires WellFormed(s) && s.FullHouse?
    ensures ShapeKey(s) in Lookup.New().unsuitedLookup && InClass(Lookup.New().unsuitedLookup[ShapeKey(s)], 3)
  {
    UnsuitedKeysDistinct();
    UnsuitedRuns();
    FullHousesExact();
    ShapeRunSizes();
    ShapeRunLookup(UnsuitedEntries(), FullHouses(), MAX_FOUR_OF_A_KIND + 1, 3, s);
  }

  /** Every three of a kind is a key of the unsuited map with a rank of class 6. */
  lemma TripsLookup(s: Shape)
    requires WellFormed(s) && s.ThreeOfAKind?
    ensures ShapeKey(s) in Lookup.New().unsuitedLookup && InClass(Lookup.New().unsuitedLookup[ShapeKey(s)], 6)
  {
    UnsuitedKeysDistinct();
    UnsuitedRuns();
    TripsExact();
    ShapeRunSizes();
    ShapeRunLookup(UnsuitedEntries(), Trips(), MAX_STRAIGHT + 1, 6, s);
  }

  /** Every two pair is a key of the unsuited map with a rank of class 7. */
  lemma TwoPairLookup(s: Shape)
    requires WellFormed(s) && s.TwoPair?
    ensures ShapeKey(s) in Lookup.New().unsuitedLookup && InClass(Lookup.New().unsuitedLookup[ShapeKey(s)], 7)
  {
    UnsuitedKeysDistinct();
    UnsuitedRuns();
    TwoPairsExact();
    ShapeRunSizes();
    ShapeRunLookup(UnsuitedEntries(), TwoPairs(), MAX_THREE_OF_A_KIND + 1, 7, s);
  }

  /** Every one pair is a key of the unsuited map with a rank of class 8. */
  lemma PairLookup(s: Shape)
    requires WellFormed(s) && s.OnePair?
    ensures ShapeKey(s) in Lookup.New().unsuitedLookup && InClass(Lookup.New().unsuitedLookup[ShapeKey(s)], 8)
  {
    UnsuitedKeysDistinct();
    UnsuitedRuns();
    OnePairsExact();
    ShapeRunSizes();
    ShapeRunLookup(UnsuitedEntries(), OnePairs(), MAX_TWO_PAIR + 1, 8, s);
  }

  // ---------------------------------------------------------------------------
  // Completeness of the two maps

  /** Every five-rank mask has a flush rank: a straight flush for the ten straights, a flush otherwise. */
  ghost predicate FlushComplete(m: map<nat, nat>)
  {
    forall x :: FiveRanks(x) ==>
      PrimeProductFromRankBits(x) in m && InClass(m[PrimeProductFromRankBits(x)], if x in STRAIGHT_FLUSHES then 1 else 4)
  }

  /** Every five-rank mask has an unsuited rank, a straight or a high card. */
  ghost predicate PatternsComplete(m: map<nat, nat>)
  {
    forall x :: FiveRanks(x) ==>
      PrimeProductFromRankBits(x) in m && InClass(m[PrimeProductFromRankBits(x)], if x in STRAIGHT_FLUSHES then 5 else 9)
  }

  /** Every hand with a repeated rank has an unsuited rank of its shape's class. */
  ghost predicate ShapesComplete(m: map<nat, nat>)
  {
    forall s :: WellFormed(s) ==> ShapeKey(s) in m && InClass(m[ShapeKey(s)], ShapeClass(s))
  }

  lemma JoinShapeClasses(m: map<nat, nat>)
    requires forall s :: WellFormed(s) && s.FourOfAKind? ==> ShapeKey(s) in m && InClass(m[ShapeKey(s)], 2)
    requires forall s :: WellFormed(s) && s.FullHouse? ==> ShapeKey(s) in m && InClass(m[ShapeKey(s)], 3)
    requires forall s :: WellFormed(s) && s.ThreeOfAKind? ==> ShapeKey(s) in m && InClass(m[ShapeKey(s)], 6)
    requires forall s :: WellFormed(s) && s.TwoPair? ==> ShapeKey(s) in m && InClass(m[ShapeKey(s)], 7)
    requires forall s :: WellFormed(s) && s.OnePair? ==> ShapeKey(s) in m && InClass(m[ShapeKey(s)], 8)
    ensures ShapesComplete(m)
  {
  }

  /** The flush map LookupTable::new builds is complete. */
  lemma NewFlushComplete()
    ensures FlushComplete(Lookup.New().flushLookup)
  {
    forall x | FiveRanks(x)
      ensures PrimeProductFromRankBits(x) in Lookup.New().flushLookup
      ensures InClass(Lookup.New().flushLookup[PrimeProductFromRankBits(x)], if x in STRAIGHT_FLUSHES then 1 else 4)
    {
      FlushLookup(x);
    }
  }

  /** The unsuited map LookupTable::new builds is complete for five-rank masks. */
  lemma NewPatternsComplete()
    ensures PatternsComplete(Lookup.New().unsuitedLookup)
  {
    forall x | FiveRanks(x)
      ensures PrimeProductFromRankBits(x) in Lookup.New().unsuitedLookup
      ensures InClass(Lookup.New().unsuitedLookup[PrimeProductFromRankBits(x)], if x in STRAIGHT_FLUSHES then 5 else 9)
    {
      UnsuitedLookup(x);
    }
  }

  /** The unsuited map LookupTable::new builds is complete for the shapes. */
  lemma NewShapesComplete()
    ensures ShapesComplete(Lookup.New().unsuitedLookup)
  {
    forall s | WellFormed(s) && s.FourOfAKind?
      ensures ShapeKey(s) in Lookup.New().unsuitedLookup && InClass(Lookup.New().unsuitedLookup[ShapeKey(s)], 2)
    {
      QuadLookup(s);
    }
    forall s | WellFormed(s) && s.FullHouse?
      ensures ShapeKey(s) in Lookup.New().unsuitedLookup && InClass(Lookup.New().unsuitedLookup[ShapeKey(s)], 3)
    {
      FullHouseLookup(s);
    }
    forall s | WellFormed(s) && s.ThreeOfAKind?
      ensures ShapeKey(s) in Lookup.New().unsuitedLookup && InClass(Lookup.New().unsuitedLookup[ShapeKey(s)], 6)
    {
      TripsLookup(s);
    }
    forall s | WellFormed(s) && s.TwoPair?
      ensures ShapeKey(s) in Lookup.New().unsuitedLookup && InClass(Lookup.New().unsuitedLookup[ShapeKey(s)], 7)
    {
      TwoPairLookup(s);
    }
    forall s | WellFormed(s) && s.OnePair?
      ensures ShapeKey(s) in Lookup.New().unsuitedLookup && InClass(Lookup.New().unsuitedLookup[ShapeKey(s)], 8)
    {
      PairLookup(s);
    }
    JoinShapeClasses(Lookup.New().unsuitedLookup);
  }
}
