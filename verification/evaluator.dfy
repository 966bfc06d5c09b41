/**
 * The Evaluator of src/evaluator.rs: `_five` tests the five suit nibbles for a
 * common bit, builds the flush key or the unsuited key, and looks it up in the
 * matching map; `evaluate` does this for the first five cards of hand and
 * board; `get_rank_class` and `class_to_string` name the result.
 *
 * A missing map key and an index past the end of the cards panic in the
 * source; here they make the result None.
 */
module HandEvaluator {
  import opened Wrappers
  import opened Bits
  import opened Fields
  import opened Card
  import opened Keys
  import opened Shapes
  import opened Sequences
  import opened Lookup
  import opened Patterns
  import opened TableContents
  import opened Straights

  datatype Evaluator = Evaluator(table: LookupTable)

  /** Evaluator::new. */
  function NewEvaluator(): Evaluator
  {
    Evaluator(Lookup.New())
  }

  /** The four suit bits 12..15 of a card code. */
  const SUIT_BITS: nat := 0xF000

  /** The flush test of `_five`: some suit bit is set in all five codes. */
  predicate FlushBitsShared(cards: seq<nat>)
    requires |cards| == 5
  {
    And(AndAll(cards), SUIT_BITS) != 0
  }

  /** The key `_five` looks up for a flush: the rank bits of all five codes, shifted down to bit 0. */
  function FlushKey(cards: seq<nat>): nat
  {
    PrimeProductFromRankBits(Shr(OrAll(cards), 16))
  }

  /** Evaluator::_five; None where `unwrap` panics on a missing key. */
  function Five(e: Evaluator, cards: seq<nat>): (r: Option<nat>)
    requires |cards| == 5
    ensures FlushBitsShared(cards) ==> (r.Some? <==> FlushKey(cards) in e.table.flushLookup)
    ensures !FlushBitsShared(cards) ==> (r.Some? <==> PrimeProductFromHand(cards) in e.table.unsuitedLookup)
    ensures r.Some? && FlushBitsShared(cards) ==> r.value in e.table.flushLookup.Values
    ensures r.Some? && !FlushBitsShared(cards) ==> r.value in e.table.unsuitedLookup.Values
  {
    if FlushBitsShared(cards) then
      var prime := FlushKey(cards);
      if prime in e.table.flushLookup then Some(e.table.flushLookup[prime]) else None
    else
      var prime := PrimeProductFromHand(cards);
      if prime in e.table.unsuitedLookup then Some(e.table.unsuitedLookup[prime]) else None
  }

  /** Evaluator::evaluate: the first five of hand and board; None where indexing past the end panics. */
  function Evaluate(e: Evaluator, cards: seq<nat>, board: seq<nat>): (r: Option<nat>)
    ensures |cards + board| < 5 ==> r.None?
  {
    var all := cards + board;
    if |all| < 5 then None else Five(e, all[..5])
  }

  // ---------------------------------------------------------------------------
  // The flush test

  /** Bits 12..15 are the set bits of 0xF000. */
  lemma SuitBits(n: nat)
    ensures Bit(SUIT_BITS, n) <==> 12 <= n < 16
  {
    SmallPowers();
    assert SUIT_BITS == 15 * Pow2(12) + 0;
    if n < 12 {
      BitPackedLow(15, 0, 12, n);
      ShrZero(n);
    } else {
      BitPackedHigh(15, 0, 12, n);
      if n >= 16 {
        BitAboveRange(15, 4, n - 12);
      } else {
        assert Shr(15, n - 12) % 2 == 1 by {
          var k := n - 12;
          if k == 0 {} else if k == 1 {} else if k == 2 {} else {}
        }
      }
    }
  }

  /** Bit 12 + j of a card code is set exactly when j is the card's suit. */
  lemma CardSuitBit(c: nat, j: nat)
    requires IsCard(c) && j < 4
    ensures Bit(c, 12 + j) <==> CardSuit(c) == j
  {
    EncodeSuitBit(CardRank(c), CardSuit(c), j);
  }

  /** All five cards have the same suit. */
  predicate SameSuit(cards: seq<nat>)
    requires AllCards(cards) && |cards| == 5
  {
    forall i :: 0 <= i < 5 ==> CardSuit(cards[i]) == CardSuit(cards[0])
  }

  /** For valid codes the flush test holds exactly when the five cards share a suit. */
  lemma FlushTest(cards: seq<nat>)
    requires AllCards(cards) && |cards| == 5
    ensures FlushBitsShared(cards) <==> SameSuit(cards)
  {
    var a := AndAll(cards);
    NonzeroHasBit(And(a, SUIT_BITS));
    if FlushBitsShared(cards) {
      var n: nat :| Bit(And(a, SUIT_BITS), n);
      BitAnd(a, SUIT_BITS, n);
      SuitBits(n);
      BitAndAll(cards, n);
      forall i | 0 <= i < 5
        ensures CardSuit(cards[i]) == n - 12
      {
        CardSuitBit(cards[i], n - 12);
      }
    }
    if SameSuit(cards) {
      var n := 12 + CardSuit(cards[0]);
      forall i | 0 <= i < 5
        ensures Bit(cards[i], n)
      {
        CardSuitBit(cards[i], CardSuit(cards[0]));
      }
      BitAndAll(cards, n);
      SuitBits(n);
      BitAnd(a, SUIT_BITS, n);
    }
  }

  // ---------------------------------------------------------------------------
  // Distinct cards

  /** Five suits out of four: two of them coincide. */
  lemma FiveSuits(s: seq<SuitIndex>)
    requires |s| == 5
    ensures exists i, j :: 0 <= i < j < 5 && s[i] == s[j]
  {
    if s[0] != s[1] && s[0] != s[2] && s[0] != s[3] && s[1] != s[2] && s[1] != s[3] && s[2] != s[3] {
      assert s[4] == s[0] || s[4] == s[1] || s[4] == s[2] || s[4] == s[3];
    }
  }

  /** Five cards of one rank share a suit somewhere, so they are not all different. */
  lemma OneRankRepeats(cards: seq<nat>, x: Rank)
    requires AllCards(cards) && |cards| == 5
    requires forall i :: 0 <= i < 5 ==> CardRank(cards[i]) == x
    ensures !NoDup(cards)
  {
    var s := seq(5, i requires 0 <= i < 5 => CardSuit(cards[i]));
    FiveSuits(s);
    var i, j :| 0 <= i < j < 5 && s[i] == s[j];
    CardEquality(cards[i], cards[j]);
  }

  /** Five different cards never hold one rank five times: there are only four suits. */
  lemma RankCounts(cards: seq<nat>)
    requires AllCards(cards) && |cards| == 5 && NoDup(cards)
    ensures forall x :: multiset(CardRanks(cards))[x] <= 4
  {
    var rs := CardRanks(cards);
    forall x
      ensures multiset(rs)[x] <= 4
    {
      if x in rs {
        CountFive(rs, x);
        if multiset(rs)[x] == 5 {
          OneRankRepeats(cards, x);
        }
      }
    }
  }

  /** Five different cards of one suit have five different ranks. */
  lemma SuitedRanks(cards: seq<nat>)
    requires AllCards(cards) && |cards| == 5 && NoDup(cards) && SameSuit(cards)
    ensures NoDup(CardRanks(cards))
  {
    var rs := CardRanks(cards);
    forall i, j | 0 <= i < j < 5
      ensures rs[i] != rs[j]
    {
      CardEquality(cards[i], cards[j]);
    }
  }

  // ---------------------------------------------------------------------------
  // The class of a hand, from its cards alone

  /** The five ranks make a straight. */
  predicate IsStraight(rs: seq<Rank>)
    requires |rs| == 5
  {
    StraightRanks(Ascending(rs))
  }

  /**
   * The poker class of five cards (1 straight flush .. 9 high card): suited
   * hands are straight flushes or flushes, hands with a repeated rank take
   * their shape's class, the rest are straights or high cards.
   */
  function HandClass(cards: seq<nat>): (c: nat)
    requires AllCards(cards) && |cards| == 5
    ensures 1 <= c <= 9
  {
    var rs := CardRanks(cards);
    if SameSuit(cards) then (if IsStraight(rs) then 1 else 4)
    else match ShapeOf(rs)
      case Some(s) => ShapeClass(s)
      case None => if IsStraight(rs) then 5 else 9
  }

  /** A table built the way LookupTable::new builds it: complete maps and the fixed class tables. */
  ghost predicate Complete(t: LookupTable)
  {
    && FlushComplete(t.flushLookup)
    && PatternsComplete(t.unsuitedLookup)
    && ShapesComplete(t.unsuitedLookup)
    && t.maxToRankClass == MaxToRankClass()
    && t.rankClassToString == RankClassToString()
  }

  /** The table of Evaluator::new is complete. */
  lemma NewComplete()
    ensures Complete(NewEvaluator().table)
  {
    NewFlushComplete();
    NewPatternsComplete();
    NewShapesComplete();
  }

  /** Five different ranks, as an increasing list, have a five-rank mask that keys like the hand. */
  lemma DistinctRanksMask(rs: seq<Rank>)
    requires |rs| == 5 && NoDup(rs)
    ensures ShapeOf(rs).None?
    ensures StrictlyIncreasing(Ascending(rs)) && |Ascending(rs)| == 5
    ensures FiveRanks(RankMask(Ascending(rs)))
    ensures PrimeProductFromRankBits(RankMask(Ascending(rs))) == RankKey(rs)
  {
    forall x
      ensures multiset(rs)[x] <= 1
    {
      NoDupCount(rs, x);
    }
    ShapeOfSound(rs);
    var a := Ascending(rs);
    assert |a| == 5 by {
      assert |multiset(a)| == |multiset(rs)|;
    }
    RankMaskBound(a);
    Pow2Monotone(a[4] as nat + 1, 13);
    SmallPowers();
    RankMaskPop(a);
    RankMaskKey(a);
    RankKeyInjective(a, rs);
  }

  /** A suited hand of five different cards gets a straight-flush or flush rank. */
  lemma FlushHand(t: LookupTable, cards: seq<nat>)
    requires FlushComplete(t.flushLookup)
    requires AllCards(cards) && |cards| == 5 && NoDup(CardRanks(cards))
    ensures FlushKey(cards) in t.flushLookup
    ensures InClass(t.flushLookup[FlushKey(cards)], if IsStraight(CardRanks(cards)) then 1 else 4)
  {
    var rs := CardRanks(cards);
    HandKeyAgreement(cards);
    HandKey(cards);
    DistinctRanksMask(rs);
    StraightsAreMasks(Ascending(rs));
  }

  /** An unsuited hand of five different ranks gets a straight or high-card rank. */
  lemma PatternHand(t: LookupTable, cards: seq<nat>)
    requires PatternsComplete(t.unsuitedLookup)
    requires AllCards(cards) && |cards| == 5 && NoDup(CardRanks(cards))
    ensures PrimeProductFromHand(cards) in t.unsuitedLookup
    ensures InClass(t.unsuitedLookup[PrimeProductFromHand(cards)], if IsStraight(CardRanks(cards)) then 5 else 9)
  {
    var rs := CardRanks(cards);
    HandKey(cards);
    DistinctRanksMask(rs);
    StraightsAreMasks(Ascending(rs));
  }

  /** A hand with a repeated rank is keyed by its shape and gets the shape's class. */
  lemma ShapeHand(t: LookupTable, cards: seq<nat>)
    requires ShapesComplete(t.unsuitedLookup)
    requires AllCards(cards) && |cards| == 5 && (forall x :: multiset(CardRanks(cards))[x] <= 4)
    requires ShapeOf(CardRanks(cards)).Some?
    ensures PrimeProductFromHand(cards) in t.unsuitedLookup
    ensures InClass(t.unsuitedLookup[PrimeProductFromHand(cards)], ShapeClass(ShapeOf(CardRanks(cards)).value))
  {
    var rs := CardRanks(cards);
    var s := ShapeOf(rs).value;
    ShapeOfSound(rs);
    HandKey(cards);
    RankKeyInjective(Ranks(s), rs);
    ProductIsKey(s);
  }

  /** Without a repeated rank, no rank occurs twice. */
  lemma NoShapeNoDup(rs: seq<Rank>)
    requires |rs| == 5 && (forall x :: multiset(rs)[x] <= 4) && ShapeOf(rs).None?
    ensures NoDup(rs)
  {
    ShapeOfSound(rs);
    forall i, j | 0 <= i < j < 5
      ensures rs[i] != rs[j]
    {
      CountFive(rs, rs[i]);
    }
  }

  /**
   * For five different valid cards every key `_five` builds is in a complete
   * table, and the rank it finds lies in the hand's class.
   */
  lemma FiveClass(e: Evaluator, cards: seq<nat>)
    requires Complete(e.table)
    requires AllCards(cards) && |cards| == 5 && NoDup(cards)
    ensures Five(e, cards).Some?
    ensures InClass(Five(e, cards).value, HandClass(cards))
  {
    var rs := CardRanks(cards);
    FlushTest(cards);
    RankCounts(cards);
    if SameSuit(cards) {
      SuitedRanks(cards);
      FlushHand(e.table, cards);
    } else if ShapeOf(rs).Some? {
      ShapeHand(e.table, cards);
    } else {
      NoShapeNoDup(rs);
      PatternHand(e.table, cards);
    }
  }

  /** `_five` on five different valid cards gives a rank in 1..7462; a suited hand ranks 1..10 or 323..1599. */
  lemma FiveRange(e: Evaluator, cards: seq<nat>)
    requires Complete(e.table)
    requires AllCards(cards) && |cards| == 5 && NoDup(cards)
    ensures Five(e, cards).Some? && 1 <= Five(e, cards).value <= MAX_HIGH_CARD
    ensures SameSuit(cards) ==>
      1 <= Five(e, cards).value <= MAX_STRAIGHT_FLUSH || MAX_FULL_HOUSE < Five(e, cards).value <= MAX_FLUSH
  {
    FiveClass(e, cards);
    ClassBounds(Five(e, cards).value, HandClass(cards));
  }

  /** Every class lies in 1..7462; the two suited classes are 1..10 and 323..1599. */
  lemma ClassBounds(v: int, c: nat)
    requires InClass(v, c)
    ensures 1 <= v <= MAX_HIGH_CARD
    ensures c == 1 ==> v <= MAX_STRAIGHT_FLUSH
    ensures c == 4 ==> MAX_FULL_HOUSE < v <= MAX_FLUSH
  {
  }

  /** `evaluate` looks at the first five cards only: more board cards change nothing. */
  lemma EvaluateFirstFive(e: Evaluator, cards: seq<nat>, board: seq<nat>, extra: seq<nat>)
    requires |cards + board| >= 5
    ensures Evaluate(e, cards, board) == Five(e, (cards + board)[..5])
    ensures Evaluate(e, cards, board + extra) == Evaluate(e, cards, board)
  {
    assert (cards + (board + extra))[..5] == (cards + board)[..5];
  }

  // ---------------------------------------------------------------------------
  // Classes and their names

  /** The nine keys `get_rank_class` indexes are present. */
  predicate HasBoundaries(m: map<nat, nat>)
  {
    && MAX_STRAIGHT_FLUSH in m && MAX_FOUR_OF_A_KIND in m && MAX_FULL_HOUSE in m && MAX_FLUSH in m
    && MAX_STRAIGHT in m && MAX_THREE_OF_A_KIND in m && MAX_TWO_PAIR in m && MAX_PAIR in m
    && MAX_HIGH_CARD in m
  }

  /** Evaluator::get_rank_class: the class stored for the first boundary at or above hr. */
  function GetRankClass(e: Evaluator, hr: nat): (r: Result<nat>)
    requires HasBoundaries(e.table.maxToRankClass)
    ensures r.Failure? <==> hr > MAX_HIGH_CARD
  {
    var m := e.table.maxToRankClass;
    if hr >= 0 && hr <= MAX_STRAIGHT_FLUSH then Success(m[MAX_STRAIGHT_FLUSH])
    else if hr <= MAX_FOUR_OF_A_KIND then Success(m[MAX_FOUR_OF_A_KIND])
    else if hr <= MAX_FULL_HOUSE then Success(m[MAX_FULL_HOUSE])
    else if hr <= MAX_FLUSH then Success(m[MAX_FLUSH])
    else if hr <= MAX_STRAIGHT then Success(m[MAX_STRAIGHT])
    else if hr <= MAX_THREE_OF_A_KIND then Success(m[MAX_THREE_OF_A_KIND])
    else if hr <= MAX_TWO_PAIR then Success(m[MAX_TWO_PAIR])
    else if hr <= MAX_PAIR then Success(m[MAX_PAIR])
    else if hr <= MAX_HIGH_CARD then Success(m[MAX_HIGH_CARD])
    else Failure("Invalid hand rank, cannot return rank class")
  }

  /** The boundary table of LookupTable::new has all nine keys. */
  lemma BoundaryKeys()
    ensures HasBoundaries(MaxToRankClass())
  {
  }

  /** With the boundary table of LookupTable::new, a rank in 0..7462 is in the class `get_rank_class` names. */
  lemma RankClassOf(e: Evaluator, hr: nat)
    requires e.table.maxToRankClass == MaxToRankClass()
    ensures HasBoundaries(e.table.maxToRankClass)
    ensures hr <= MAX_HIGH_CARD ==> GetRankClass(e, hr).Success? && 1 <= GetRankClass(e, hr).value <= 9
    ensures 1 <= hr <= MAX_HIGH_CARD ==> InClass(hr, GetRankClass(e, hr).value)
    ensures hr == 0 ==> GetRankClass(e, hr) == Success(1)
  {
  }

  /** `get_rank_class` returns the class whose range holds the rank, and only that one. */
  lemma RankClassExact(e: Evaluator, hr: nat, c: nat)
    requires e.table.maxToRankClass == MaxToRankClass()
    requires InClass(hr, c)
    ensures HasBoundaries(e.table.maxToRankClass)
    ensures GetRankClass(e, hr) == Success(c)
  {
    RankClassOf(e, hr);
  }

  /** The class is the first boundary at or above the rank: it is at least the rank, the one before is below it. */
  lemma RankClassBoundary(e: Evaluator, hr: nat)
    requires e.table.maxToRankClass == MaxToRankClass()
    requires hr <= MAX_HIGH_CARD
    ensures HasBoundaries(e.table.maxToRankClass)
    ensures GetRankClass(e, hr).Success?
    ensures var c := GetRankClass(e, hr).value;
      1 <= c <= 9 && hr <= ClassMax(c) && (c > 1 ==> ClassMax(c - 1) < hr)
  {
    RankClassOf(e, hr);
  }

  /** A better (lower) rank never gets a worse (higher) class. */
  lemma RankClassMonotone(e: Evaluator, a: nat, b: nat)
    requires e.table.maxToRankClass == MaxToRankClass()
    requires a <= b <= MAX_HIGH_CARD
    ensures HasBoundaries(e.table.maxToRankClass)
    ensures GetRankClass(e, a).Success? && GetRankClass(e, b).Success?
    ensures GetRankClass(e, a).value <= GetRankClass(e, b).value
  {
    RankClassOf(e, a);
    RankClassOf(e, b);
  }

  /** `_five` and `get_rank_class` agree: the class of a hand's rank is the hand's class. */
  lemma FiveRankClass(e: Evaluator, cards: seq<nat>)
    requires Complete(e.table)
    requires AllCards(cards) && |cards| == 5 && NoDup(cards)
    ensures Five(e, cards).Some? && HasBoundaries(e.table.maxToRankClass)
    ensures GetRankClass(e, Five(e, cards).value) == Success(HandClass(cards))
  {
    FiveClass(e, cards);
    RankClassExact(e, Five(e, cards).value, HandClass(cards));
  }

  /** Evaluator::class_to_string; None where `unwrap` panics on an unknown class. */
  function ClassToString(e: Evaluator, classInt: nat): (r: Option<string>)
    ensures r.Some? <==> classInt in e.table.rankClassToString
  {
    if classInt in e.table.rankClassToString then Some(e.table.rankClassToString[classInt]) else None
  }

  /** With the names of LookupTable::new, exactly the classes 1..9 have a name, and these are they. */
  lemma ClassNames(e: Evaluator, c: nat)
    requires e.table.rankClassToString == RankClassToString()
    ensures ClassToString(e, c).Some? <==> 1 <= c <= 9
    ensures c == 1 ==> ClassToString(e, c) == Some("Straight Flush")
    ensures c == 2 ==> ClassToString(e, c) == Some("Four of a Kind")
    ensures c == 3 ==> ClassToString(e, c) == Some("Full House")
    ensures c == 4 ==> ClassToString(e, c) == Some("Flush")
    ensures c == 5 ==> ClassToString(e, c) == Some("Straight")
    ensures c == 6 ==> ClassToString(e, c) == Some("Three of a Kind")
    ensures c == 7 ==> ClassToString(e, c) == Some("Two Pair")
    ensures c == 8 ==> ClassToString(e, c) == Some("Pair")
    ensures c == 9 ==> ClassToString(e, c) == Some("High Card")
  {
  }
}
