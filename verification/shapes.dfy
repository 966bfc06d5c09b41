/**
 * The five hand categories with repeated ranks that `multiples` in lookup.rs
 * enumerates, the prime-product key it computes for each, and the facts that
 * make those keys usable: a shape's key is the key of its five ranks, and the
 * multiset of ranks determines the shape.
 */
module Shapes {
  import opened Wrappers
  import opened Primes
  import opened Card
  import opened Keys
  import opened Sequences

  /**
   * A hand with repeated ranks.  Kickers are listed from high to low, as the
   * loops produce them.
   */
  datatype Shape =
    | FourOfAKind(quad: Rank, kicker: Rank)
    | FullHouse(trips: Rank, pair: Rank)
    | ThreeOfAKind(trips: Rank, high: Rank, low: Rank)
    | TwoPair(high: Rank, low: Rank, kicker: Rank)
    | OnePair(pair: Rank, high: Rank, middle: Rank, low: Rank)

  /** The ranks of a shape are distinct where they must be, and kickers descend. */
  predicate WellFormed(s: Shape)
  {
    match s
    case FourOfAKind(q, k) => q != k
    case FullHouse(t, p) => t != p
    case ThreeOfAKind(t, h, l) => h > l && t != h && t != l
    case TwoPair(h, l, k) => h > l && k != h && k != l
    case OnePair(p, h, m, l) => h > m > l && p != h && p != m && p != l
  }

  /** The key `multiples` inserts for a shape, written with the prime powers of lookup.rs. */
  function Product(s: Shape): int
  {
    match s
    case FourOfAKind(q, k) => Pow4(PrimeOf(q)) * PrimeOf(k)
    case FullHouse(t, p) => Cube(PrimeOf(t)) * Square(PrimeOf(p))
    case ThreeOfAKind(t, h, l) => Cube(PrimeOf(t)) * PrimeOf(h) * PrimeOf(l)
    case TwoPair(h, l, k) => Square(PrimeOf(h)) * Square(PrimeOf(l)) * PrimeOf(k)
    case OnePair(p, h, m, l) => Square(PrimeOf(p)) * PrimeOf(h) * PrimeOf(m) * PrimeOf(l)
  }

  function Square(b: int): int { b * b }
  function Cube(b: int): int { b * b * b }
  function Pow4(b: int): int { b * b * b * b }

  /** The five ranks of a hand of this shape. */
  function Ranks(s: Shape): (rs: seq<Rank>)
    ensures |rs| == 5
  {
    match s
    case FourOfAKind(q, k) => [q, q, q, q, k]
    case FullHouse(t, p) => [t, t, t, p, p]
    case ThreeOfAKind(t, h, l) => [t, t, t, h, l]
    case TwoPair(h, l, k) => [h, h, l, l, k]
    case OnePair(p, h, m, l) => [p, p, h, m, l]
  }

  /** How many of the shape's five cards have rank x. */
  function Mult(s: Shape, x: Rank): nat
  {
    match s
    case FourOfAKind(q, k) => (if x == q then 4 else 0) + (if x == k then 1 else 0)
    case FullHouse(t, p) => (if x == t then 3 else 0) + (if x == p then 2 else 0)
    case ThreeOfAKind(t, h, l) => (if x == t then 3 else 0) + (if x == h then 1 else 0) + (if x == l then 1 else 0)
    case TwoPair(h, l, k) => (if x == h then 2 else 0) + (if x == l then 2 else 0) + (if x == k then 1 else 0)
    case OnePair(p, h, m, l) =>
      (if x == p then 2 else 0) + (if x == h then 1 else 0) + (if x == m then 1 else 0) + (if x == l then 1 else 0)
  }

  /** The key of a shape is the product of its five ranks' primes. */
  lemma ProductIsKey(s: Shape)
    ensures Product(s) == RankKey(Ranks(s))
  {
    var rs := Ranks(s);
    NestedKey(rs);
    var p0, p1, p2, p3, p4 := PrimeOf(rs[0]), PrimeOf(rs[1]), PrimeOf(rs[2]), PrimeOf(rs[3]), PrimeOf(rs[4]);
    match s
    case FourOfAKind(q, k) =>
      Regroup(p0, p0, p0, p0, p4);
    case FullHouse(t, p) =>
      Regroup(p0, p0, p0, p3, p3);
    case ThreeOfAKind(t, h, l) =>
      Regroup(p0, p0, p0, p3, p4);
    case TwoPair(h, l, k) =>
      Regroup(p0, p0, p2, p2, p4);
    case OnePair(p, h, m, l) =>
      Regroup(p0, p0, p2, p3, p4);
  }

  lemma NestedKey(rs: seq<Rank>)
    requires |rs| == 5
    ensures RankKey(rs) == PrimeOf(rs[0]) * (PrimeOf(rs[1]) * (PrimeOf(rs[2]) * (PrimeOf(rs[3]) * PrimeOf(rs[4]))))
  {
    RankKeyFive(rs);
  }

  /** The ways Product groups five factors all equal the right-nested product. */
  lemma Regroup(a: int, b: int, c: int, d: int, e: int)
    ensures a * b * c * d * e == a * (b * (c * (d * e)))
    ensures (a * b * c) * (d * e) == a * (b * (c * (d * e)))
    ensures (a * b) * (c * d) * e == a * (b * (c * (d * e)))
  {
    MulAssoc(a, b, c * (d * e));
    MulAssoc(a * b, c, d * e);
    MulAssoc(a * b * c, d, e);
    MulAssoc(a * b, c * d, e);
    MulAssoc(c, d, e);
  }

  /** Counting x in a sequence: its head, then its tail. */
  lemma CountHead(s: seq<Rank>, x: Rank)
    requires |s| > 0
    ensures multiset(s)[x] == (if s[0] == x then 1 else 0) + multiset(s[1..])[x]
  {
    assert s == [s[0]] + s[1..];
  }

  /** How often x occurs among five values. */
  lemma CountFive(s: seq<Rank>, x: Rank)
    requires |s| == 5
    ensures multiset(s)[x] ==
      (if s[0] == x then 1 else 0) + (if s[1] == x then 1 else 0) + (if s[2] == x then 1 else 0)
      + (if s[3] == x then 1 else 0) + (if s[4] == x then 1 else 0)
  {
    CountHead(s, x);
    CountHead(s[1..], x);
    CountHead(s[2..], x);
    CountHead(s[3..], x);
    CountHead(s[4..], x);
    assert s[1..][1..] == s[2..] && s[2..][1..] == s[3..] && s[3..][1..] == s[4..] && s[4..][1..] == [];
  }

  /** Mult counts the ranks of the shape. */
  lemma MultCount(s: Shape, x: Rank)
    ensures multiset(Ranks(s))[x] == Mult(s, x)
  {
    var rs := Ranks(s);
    CountFive(rs, x);
    MultSlots(s, x);
  }

  lemma MultSlots(s: Shape, x: Rank)
    ensures Mult(s, x) == (if Ranks(s)[0] == x then 1 else 0) + (if Ranks(s)[1] == x then 1 else 0)
      + (if Ranks(s)[2] == x then 1 else 0) + (if Ranks(s)[3] == x then 1 else 0) + (if Ranks(s)[4] == x then 1 else 0)
  {
  }

  // ---------------------------------------------------------------------------
  // The multiset of ranks determines the shape

  lemma FourUnique(a: Shape, b: Shape)
    requires a.FourOfAKind? && WellFormed(a) && WellFormed(b)
    requires Mult(b, a.quad) == 4 && Mult(b, a.kicker) == 1
    ensures a == b
  {
  }

  lemma FullHouseUnique(a: Shape, b: Shape)
    requires a.FullHouse? && WellFormed(a) && WellFormed(b)
    requires Mult(b, a.trips) == 3 && Mult(b, a.pair) == 2
    ensures a == b
  {
  }

  lemma ThreeUnique(a: Shape, b: Shape)
    requires a.ThreeOfAKind? && WellFormed(a) && WellFormed(b)
    requires Mult(b, a.trips) == 3 && Mult(b, a.high) == 1 && Mult(b, a.low) == 1
    ensures a == b
  {
  }

  lemma TwoPairUnique(a: Shape, b: Shape)
    requires a.TwoPair? && WellFormed(a) && WellFormed(b)
    requires Mult(b, a.high) == 2 && Mult(b, a.low) == 2 && Mult(b, a.kicker) == 1
    ensures a == b
  {
  }

  lemma OnePairUnique(a: Shape, b: Shape)
    requires a.OnePair? && WellFormed(a) && WellFormed(b)
    requires Mult(b, a.pair) == 2 && Mult(b, a.high) == 1 && Mult(b, a.middle) == 1 && Mult(b, a.low) == 1
    ensures a == b
  {
  }

  /** Well-formed shapes that count every rank alike are equal. */
  lemma SameMultsSameShape(a: Shape, b: Shape)
    requires WellFormed(a) && WellFormed(b)
    requires forall x: Rank :: Mult(a, x) == Mult(b, x)
    ensures a == b
  {
    match a
    case FourOfAKind(q, k) =>
      assert Mult(a, q) == Mult(b, q) && Mult(a, k) == Mult(b, k);
      FourUnique(a, b);
    case FullHouse(t, p) =>
      assert Mult(a, t) == Mult(b, t) && Mult(a, p) == Mult(b, p);
      FullHouseUnique(a, b);
    case ThreeOfAKind(t, h, l) =>
      assert Mult(a, t) == Mult(b, t) && Mult(a, h) == Mult(b, h) && Mult(a, l) == Mult(b, l);
      ThreeUnique(a, b);
    case TwoPair(h, l, k) =>
      assert Mult(a, h) == Mult(b, h) && Mult(a, l) == Mult(b, l) && Mult(a, k) == Mult(b, k);
      TwoPairUnique(a, b);
    case OnePair(p, h, m, l) =>
      assert Mult(a, p) == Mult(b, p) && Mult(a, h) == Mult(b, h) && Mult(a, m) == Mult(b, m) && Mult(a, l) == Mult(b, l);
      OnePairUnique(a, b);
  }

  /** Two well-formed shapes have the same ranks, counted with multiplicity, exactly when they are equal. */
  lemma ShapeInjective(a: Shape, b: Shape)
    requires WellFormed(a) && WellFormed(b)
    ensures multiset(Ranks(a)) == multiset(Ranks(b)) <==> a == b
  {
    if multiset(Ranks(a)) == multiset(Ranks(b)) {
      forall x: Rank
        ensures Mult(a, x) == Mult(b, x)
      {
        SameMult(a, b, x);
      }
      SameMultsSameShape(a, b);
    }
  }

  lemma SameMult(a: Shape, b: Shape, x: Rank)
    requires multiset(Ranks(a)) == multiset(Ranks(b))
    ensures Mult(a, x) == Mult(b, x)
  {
    MultCount(a, x);
    MultCount(b, x);
  }

  // ---------------------------------------------------------------------------
  // Every five ranks with at most four of a kind are a shape or five distinct ranks

  predicate NonIncreasing(t: seq<Rank>)
  {
    forall i, j :: 0 <= i < j < |t| ==> t[i] >= t[j]
  }

  /** Insert x into a non-increasing sequence. */
  function InsertDown(x: Rank, t: seq<Rank>): (r: seq<Rank>)
    ensures multiset(r) == multiset(t) + multiset{x}
    ensures |r| == |t| + 1
  {
    if |t| == 0 then [x]
    else if x >= t[0] then [x] + t
    else
      assert t == [t[0]] + t[1..];
      [t[0]] + InsertDown(x, t[1..])
  }

  lemma {:induction false} InsertDownSorted(x: Rank, t: seq<Rank>)
    requires NonIncreasing(t)
    ensures NonIncreasing(InsertDown(x, t))
    decreases |t|
  {
    if |t| > 0 && x < t[0] {
      InsertDownSorted(x, t[1..]);
      var r := InsertDown(x, t[1..]);
      InsertBelow(x, t);
      assert forall j :: 0 <= j < |r| ==> r[j] <= t[0] by {
        forall j | 0 <= j < |r|
          ensures r[j] <= t[0]
        {
          assert r[j] in r;
        }
      }
    }
  }

  /** Inserting a rank below the head keeps every element at most the head. */
  lemma InsertBelow(x: Rank, t: seq<Rank>)
    requires NonIncreasing(t) && |t| > 0 && x < t[0]
    ensures forall y :: y in InsertDown(x, t[1..]) ==> y <= t[0]
  {
    forall y | y in InsertDown(x, t[1..])
      ensures y <= t[0]
    {
      assert y in multiset(InsertDown(x, t[1..]));
      if y != x {
        assert y in multiset(t[1..]);
        var k :| 0 <= k < |t[1..]| && t[1..][k] == y;
        assert t[k + 1] == y;
      }
    }
  }

  /** The ranks of s from highest to lowest. */
  function SortDown(s: seq<Rank>): (r: seq<Rank>)
    ensures multiset(r) == multiset(s)
    ensures |r| == |s|
  {
    if |s| == 0 then []
    else
      assert s == [s[0]] + s[1..];
      InsertDown(s[0], SortDown(s[1..]))
  }

  lemma {:induction false} SortDownSorted(s: seq<Rank>)
    ensures NonIncreasing(SortDown(s))
    decreases |s|
  {
    if |s| > 0 {
      SortDownSorted(s[1..]);
      InsertDownSorted(s[0], SortDown(s[1..]));
    }
  }

  /**
   * The shape of five ranks listed from highest to lowest, read off from which
   * neighbours are equal; None when all five are distinct or all five equal.
   */
  function Classify(t: seq<Rank>): Option<Shape>
    requires |t| == 5
  {
    var e1, e2, e3, e4 := t[0] == t[1], t[1] == t[2], t[2] == t[3], t[3] == t[4];
    if e1 && e2 && e3 && e4 then None
    else if e1 && e2 && e3 then Some(FourOfAKind(t[0], t[4]))
    else if e2 && e3 && e4 then Some(FourOfAKind(t[1], t[0]))
    else if e1 && e2 && e4 then Some(FullHouse(t[0], t[3]))
    else if e1 && e3 && e4 then Some(FullHouse(t[2], t[0]))
    else if e1 && e2 then Some(ThreeOfAKind(t[0], t[3], t[4]))
    else if e2 && e3 then Some(ThreeOfAKind(t[1], t[0], t[4]))
    else if e3 && e4 then Some(ThreeOfAKind(t[2], t[0], t[1]))
    else if e1 && e3 then Some(TwoPair(t[0], t[2], t[4]))
    else if e1 && e4 then Some(TwoPair(t[0], t[3], t[2]))
    else if e2 && e4 then Some(TwoPair(t[1], t[3], t[0]))
    else if e1 then Some(OnePair(t[0], t[2], t[3], t[4]))
    else if e2 then Some(OnePair(t[1], t[0], t[3], t[4]))
    else if e3 then Some(OnePair(t[2], t[0], t[1], t[4]))
    else if e4 then Some(OnePair(t[3], t[0], t[1], t[2]))
    else None
  }

  /** How many of the five slots of u hold x. */
  function Slots(u: seq<Rank>, x: Rank): nat
    requires |u| == 5
  {
    (if u[0] == x then 1 else 0) + (if u[1] == x then 1 else 0) + (if u[2] == x then 1 else 0)
    + (if u[3] == x then 1 else 0) + (if u[4] == x then 1 else 0)
  }

  /** Five-slot sequences that hold every rank equally often are permutations of each other. */
  lemma SameSlots(u: seq<Rank>, v: seq<Rank>)
    requires |u| == 5 && |v| == 5
    requires forall x :: Slots(u, x) == Slots(v, x)
    ensures multiset(u) == multiset(v)
  {
    forall x: Rank
      ensures multiset(u)[x] == multiset(v)[x]
    {
      CountFive(u, x);
      CountFive(v, x);
      assert Slots(u, x) == Slots(v, x);
    }
  }

  lemma ClassifyFour(t: seq<Rank>)
    requires |t| == 5 && NonIncreasing(t) && Classify(t).Some? && Classify(t).value.FourOfAKind?
    ensures WellFormed(Classify(t).value) && multiset(Ranks(Classify(t).value)) == multiset(t)
  {
    assert t[0] >= t[1] >= t[2] >= t[3] >= t[4];
    SameSlots(Ranks(Classify(t).value), t);
  }

  lemma ClassifyFullHouse(t: seq<Rank>)
    requires |t| == 5 && NonIncreasing(t) && Classify(t).Some? && Classify(t).value.FullHouse?
    ensures WellFormed(Classify(t).value) && multiset(Ranks(Classify(t).value)) == multiset(t)
  {
    assert t[0] >= t[1] >= t[2] >= t[3] >= t[4];
    SameSlots(Ranks(Classify(t).value), t);
  }

  lemma ClassifyThree(t: seq<Rank>)
    requires |t| == 5 && NonIncreasing(t) && Classify(t).Some? && Classify(t).value.ThreeOfAKind?
    ensures WellFormed(Classify(t).value) && multiset(Ranks(Classify(t).value)) == multiset(t)
  {
    assert t[0] >= t[1] >= t[2] >= t[3] >= t[4];
    SameSlots(Ranks(Classify(t).value), t);
  }

  lemma ClassifyTwoPair(t: seq<Rank>)
    requires |t| == 5 && NonIncreasing(t) && Classify(t).Some? && Classify(t).value.TwoPair?
    ensures WellFormed(Classify(t).value) && multiset(Ranks(Classify(t).value)) == multiset(t)
  {
    assert t[0] >= t[1] >= t[2] >= t[3] >= t[4];
    SameSlots(Ranks(Classify(t).value), t);
  }

  lemma ClassifyOnePair(t: seq<Rank>)
    requires |t| == 5 && NonIncreasing(t) && Classify(t).Some? && Classify(t).value.OnePair?
    ensures WellFormed(Classify(t).value) && multiset(Ranks(Classify(t).value)) == multiset(t)
  {
    assert t[0] >= t[1] >= t[2] >= t[3] >= t[4];
    SameSlots(Ranks(Classify(t).value), t);
  }

  /** What Classify finds is a well-formed shape with the same ranks; it finds nothing only for five equal or five distinct ranks. */
  lemma ClassifySound(t: seq<Rank>)
    requires |t| == 5 && NonIncreasing(t)
    ensures Classify(t).None? <==> t[0] == t[4] || t[0] > t[1] > t[2] > t[3] > t[4]
  {
    assert t[0] >= t[1] >= t[2] >= t[3] >= t[4];
  }

  /** What Classify finds is a well-formed shape with the same ranks. */
  lemma ClassifyShape(t: seq<Rank>)
    requires |t| == 5 && NonIncreasing(t) && Classify(t).Some?
    ensures WellFormed(Classify(t).value) && multiset(Ranks(Classify(t).value)) == multiset(t)
  {
    match Classify(t).value
    case FourOfAKind(_, _) => ClassifyFour(t);
    case FullHouse(_, _) => ClassifyFullHouse(t);
    case ThreeOfAKind(_, _, _) => ClassifyThree(t);
    case TwoPair(_, _, _) => ClassifyTwoPair(t);
    case OnePair(_, _, _, _) => ClassifyOnePair(t);
  }

  /** The shape of any five ranks: sort them from high to low and classify. */
  function ShapeOf(rs: seq<Rank>): Option<Shape>
    requires |rs| == 5
  {
    Classify(SortDown(rs))
  }

  /** The ranks of five distinct ranks from lowest to highest. */
  function Ascending(rs: seq<Rank>): seq<Rank>
  {
    Reverse(SortDown(rs))
  }

  /**
   * Five ranks with at most four of a kind either form a well-formed shape with
   * the same ranks, or are five distinct ranks; the first happens exactly when
   * some rank repeats.
   */
  lemma ShapeOfSound(rs: seq<Rank>)
    requires |rs| == 5 && forall x :: multiset(rs)[x] <= 4
    ensures ShapeOf(rs).Some? ==> WellFormed(ShapeOf(rs).value) && multiset(Ranks(ShapeOf(rs).value)) == multiset(rs)
    ensures ShapeOf(rs).None? ==> StrictlyIncreasing(Ascending(rs)) && multiset(Ascending(rs)) == multiset(rs)
    ensures ShapeOf(rs).None? <==> forall x :: multiset(rs)[x] <= 1
  {
    var t := SortDown(rs);
    SortDownSorted(rs);
    ClassifySound(t);
    if ShapeOf(rs).Some? {
      var sh := ShapeOf(rs).value;
      ClassifyShape(t);
      var x := MainRank(sh);
      MultCount(sh, x);
      assert multiset(rs)[x] >= 2;
    } else {
      CountFive(t, t[0]);
      assert t[0] > t[1] > t[2] > t[3] > t[4];
      forall x: Rank
        ensures multiset(rs)[x] <= 1
      {
        CountFive(t, x);
      }
      AscendingRanks(t);
    }
  }

  /** The rank every shape holds at least twice. */
  function MainRank(s: Shape): (x: Rank)
    ensures Mult(s, x) >= 2
  {
    match s
    case FourOfAKind(q, _) => q
    case FullHouse(t, _) => t
    case ThreeOfAKind(t, _, _) => t
    case TwoPair(h, _, _) => h
    case OnePair(p, _, _, _) => p
  }

  /** Five strictly decreasing ranks, reversed, are strictly increasing and the same ranks. */
  lemma AscendingRanks(t: seq<Rank>)
    requires |t| == 5 && t[0] > t[1] > t[2] > t[3] > t[4]
    ensures StrictlyIncreasing(Reverse(t)) && multiset(Reverse(t)) == multiset(t)
  {
    var u := Reverse(t);
    assert u[0] < u[1] < u[2] < u[3] < u[4];
    SameSlots(u, t);
  }
}
