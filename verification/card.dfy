/**
 * Cards as 32-bit codes.  A code packs four fields:
 *
 *   bits 16..28  one bit for the rank (deuce = bit 16, ace = bit 28)
 *   bits 12..15  the suit, one bit each for spades, hearts, diamonds, clubs
 *   bits  8..11  the rank index 0..12
 *   bits  0..7   the prime of the rank (2, 3, 5, ..., 41)
 *
 * The product of the rank primes of five cards is the key of the hand in the
 * lookup tables; the prime field makes that product cheap to compute.
 */
module Card {
  import opened Bits
  import opened Fields
  import opened Primes
  import opened Wrappers

  /** A rank index: deuce is 0, ace is 12. */
  type Rank = r: nat | r < 13

  /** A suit index: spades 0, hearts 1, diamonds 2, clubs 3; the suit field holds 2^index. */
  type SuitIndex = j: nat | j < 4

  /** The rank indices in increasing order, 0 through 12. */
  const INT_RANKS: seq<nat> := [0, 1, 2, 3, 4, 5, 6, 7, 8, 9, 10, 11, 12]

  const PRIMES: seq<nat> := [2, 3, 5, 7, 11, 13, 17, 19, 23, 29, 31, 37, 41]

  const CHAR_RANK_TO_INT_RANK: seq<(char, nat)> :=
    [('2', 0), ('3', 1), ('4', 2), ('5', 3), ('6', 4), ('7', 5), ('8', 6),
     ('9', 7), ('T', 8), ('J', 9), ('Q', 10), ('K', 11), ('A', 12)]

  const CHAR_SUIT_TO_INT_SUIT: seq<(char, nat)> := [('s', 1), ('h', 2), ('d', 4), ('c', 8)]

  // ---------------------------------------------------------------------------
  // Character tables

  /** The value of the first entry of `table` whose character is `c`, from position i on. */
  function FindFrom(table: seq<(char, nat)>, c: char, i: nat): (r: Option<nat>)
    ensures r.Some? ==> exists k :: i <= k < |table| && table[k] == (c, r.value)
    ensures r.None? <==> forall k :: i <= k < |table| ==> table[k].0 != c
    decreases |table| - i
  {
    if i >= |table| then None
    else if table[i].0 == c then Some(table[i].1)
    else FindFrom(table, c, i + 1)
  }

  /** `table.iter().find(|(x, _)| x == c).map(|e| e.1)` */
  function Find(table: seq<(char, nat)>, c: char): Option<nat>
  {
    FindFrom(table, c, 0)
  }

  /** The rank table maps position r to r, and looking up its character finds r. */
  lemma RankEntry(r: Rank)
    ensures CHAR_RANK_TO_INT_RANK[r].1 == r
    ensures Find(CHAR_RANK_TO_INT_RANK, CHAR_RANK_TO_INT_RANK[r].0) == Some(r)
  {
    if r < 7 {
      RankEntryLow(r);
    } else {
      RankEntryHigh(r);
    }
  }

  lemma RankEntryLow(r: Rank)
    requires r < 7
    ensures CHAR_RANK_TO_INT_RANK[r].1 == r
    ensures Find(CHAR_RANK_TO_INT_RANK, CHAR_RANK_TO_INT_RANK[r].0) == Some(r)
  {
    if r == 0 {} else if r == 1 {} else if r == 2 {} else if r == 3 {}
    else if r == 4 {} else if r == 5 {} else {}
  }

  lemma RankEntryHigh(r: Rank)
    requires r >= 7
    ensures CHAR_RANK_TO_INT_RANK[r].1 == r
    ensures Find(CHAR_RANK_TO_INT_RANK, CHAR_RANK_TO_INT_RANK[r].0) == Some(r)
  {
    if r == 7 {} else if r == 8 {} else if r == 9 {} else if r == 10 {}
    else if r == 11 {} else {}
  }

  /** The suit table maps position j to the one-bit value 2^j, and looking up its character finds it. */
  lemma SuitEntry(j: SuitIndex)
    ensures CHAR_SUIT_TO_INT_SUIT[j].1 == Pow2(j)
    ensures Find(CHAR_SUIT_TO_INT_SUIT, CHAR_SUIT_TO_INT_SUIT[j].0) == Some(Pow2(j))
  {
    if j == 0 {} else if j == 1 {} else if j == 2 {} else {}
  }

  /** Every value found in the rank table is the position of the character. */
  lemma FindRank(c: char)
    ensures Find(CHAR_RANK_TO_INT_RANK, c).Some? ==>
      var r := Find(CHAR_RANK_TO_INT_RANK, c).value;
      r < 13 && CHAR_RANK_TO_INT_RANK[r].0 == c
  {
    if Find(CHAR_RANK_TO_INT_RANK, c).Some? {
      var k :| 0 <= k < 13 && CHAR_RANK_TO_INT_RANK[k] == (c, Find(CHAR_RANK_TO_INT_RANK, c).value);
      RankEntry(k);
    }
  }

  /** Every value found in the suit table is 2^j for the position j of the character. */
  lemma FindSuit(c: char) returns (j: SuitIndex)
    requires Find(CHAR_SUIT_TO_INT_SUIT, c).Some?
    ensures Find(CHAR_SUIT_TO_INT_SUIT, c).value == Pow2(j) && CHAR_SUIT_TO_INT_SUIT[j].0 == c
  {
    var k :| 0 <= k < 4 && CHAR_SUIT_TO_INT_SUIT[k] == (c, Find(CHAR_SUIT_TO_INT_SUIT, c).value);
    SuitEntry(k);
    j := k;
  }

  // ---------------------------------------------------------------------------
  // Card codes

  /** `x << n`. */
  function Shl(x: nat, n: nat): nat
  {
    x * Pow2(n)
  }

  /**
   * Card::new: the code of a card written as a rank character followed by a
   * suit character.  Characters after the second are ignored.  None is the
   * panic of an `unwrap` on a missing character or an unknown one.
   */
  function New(s: string): (r: Option<nat>)
  {
    if |s| < 2 then None
    else
      match (Find(CHAR_RANK_TO_INT_RANK, s[0]), Find(CHAR_SUIT_TO_INT_SUIT, s[1]))
      case (Some(rankInt), Some(suitInt)) =>
        if rankInt >= |PRIMES| then None
        else
          var rankPrime := PRIMES[rankInt];
          var bitrank := Shl(Shl(1, rankInt), 16);
          var suit := Shl(suitInt, 12);
          var rank := Shl(rankInt, 8);
          Some(Or(Or(Or(bitrank, suit), rank), rankPrime))
      case _ => None
  }

  /** The field layout of the code of rank r and suit j. */
  function Encode(r: Rank, j: SuitIndex): nat
  {
    Pow2(16 + r) + Pow2(12 + j) + r * 256 + PRIMES[r]
  }

  /** The rank primes are prime, increase strictly, and stay at most 41. */
  lemma RankPrime(r: Rank)
    ensures IsPrime(PRIMES[r]) && 2 <= PRIMES[r] <= 41
    ensures r < 12 ==> PRIMES[r] < PRIMES[r + 1]
  {
    if r <= 6 {
      SmallRankPrime(r);
    } else {
      LargeRankPrime(r);
    }
  }

  lemma SmallRankPrime(r: Rank)
    requires r <= 6
    ensures IsPrime(PRIMES[r]) && 2 <= PRIMES[r] <= 41 && PRIMES[r] < PRIMES[r + 1]
  {
    PrimeByTrialDivision(PRIMES[r]);
  }

  lemma LargeRankPrime(r: Rank)
    requires r > 6
    ensures IsPrime(PRIMES[r]) && 2 <= PRIMES[r] <= 41
    ensures r < 12 ==> PRIMES[r] < PRIMES[r + 1]
  {
    var p := PRIMES[r];
    if r == 7 {} else if r == 8 {} else if r == 9 {} else if r == 10 {} else if r == 11 {} else {}
    assert NoDivisorFrom(p, 32);
    assert NoDivisorFrom(p, 22);
    assert NoDivisorFrom(p, 12);
    PrimeByTrialDivision(p);
  }

  /** The four fields of Card::new do not overlap, so their disjunction is their sum. */
  lemma EncodeLayout(r: Rank, j: SuitIndex)
    ensures Or(Or(Or(Shl(Shl(1, r), 16), Shl(Pow2(j), 12)), Shl(r, 8)), PRIMES[r]) == Encode(r, j)
  {
    EncodeSum(r, j);
    ShlFields(r, j);
    PackFields(Shl(Shl(1, r), 16), Shl(Pow2(j), 12), Shl(r, 8), PRIMES[r], Pow2(r), Pow2(j), r);
  }

  lemma ShlFields(r: Rank, j: SuitIndex)
    ensures Shl(Shl(1, r), 16) == Pow2(r) * 65536 && Shl(Pow2(j), 12) == Pow2(j) * 4096 && Shl(r, 8) == r * 256
    ensures Pow2(j) <= 8 && PRIMES[r] < 256
  {
    SmallPowers();
    RankPrime(r);
    Pow2Monotone(j, 3);
  }

  /** The code as a sum of the four fields. */
  lemma EncodeSum(r: Rank, j: SuitIndex)
    ensures Encode(r, j) == Pow2(r) * 65536 + Pow2(j) * 4096 + r * 256 + PRIMES[r]
  {
    SmallPowers();
    Pow2Add(16, r);
    Pow2Add(12, j);
  }

  lemma PackFields(x1: nat, x2: nat, x3: nat, p: nat, a: nat, b: nat, r: nat)
    requires x1 == a * 65536 && x2 == b * 4096 && x3 == r * 256
    requires b <= 8 && r < 16 && p < 256
    ensures Or(Or(Or(x1, x2), x3), p) == a * 65536 + b * 4096 + r * 256 + p
  {
    SmallPowers();
    var y := a * 16 + b;
    var z := y * 16 + r;
    OrField(a, x2, 16, 65536);
    assert Or(x1, x2) == y * 4096;
    OrField(y, x3, 12, 4096);
    assert Or(Or(x1, x2), x3) == z * 256;
    OrField(z, p, 8, 256);
  }

  /** OR-ing a value below 2^m into a multiple of 2^m (written as the constant mv) adds it. */
  lemma OrField(hi: nat, lo: nat, m: nat, mv: nat)
    requires mv == Pow2(m) && lo < mv
    ensures Or(hi * mv, lo) == hi * mv + lo
  {
    OrShifted(hi, lo, m);
  }

  /** Card::new of a known rank character and a known suit character. */
  lemma NewOf(s: string, r: Rank, j: SuitIndex)
    requires |s| >= 2 && s[0] == CHAR_RANK_TO_INT_RANK[r].0 && s[1] == CHAR_SUIT_TO_INT_SUIT[j].0
    ensures New(s) == Some(Encode(r, j))
  {
    RankEntry(r);
    SuitEntry(j);
    EncodeLayout(r, j);
  }

  /** Every code Card::new produces has the field layout, for the rank and suit its characters name. */
  lemma NewIsEncode(s: string) returns (r: Rank, j: SuitIndex)
    requires New(s).Some?
    ensures |s| >= 2 && s[0] == CHAR_RANK_TO_INT_RANK[r].0 && s[1] == CHAR_SUIT_TO_INT_SUIT[j].0
    ensures New(s) == Some(Encode(r, j))
  {
    FindRank(s[0]);
    r := Find(CHAR_RANK_TO_INT_RANK, s[0]).value;
    j := FindSuit(s[1]);
    NewOf(s, r, j);
  }

  /** Card::new fails exactly on a string shorter than two characters or an unknown character. */
  lemma NewFails(s: string)
    ensures New(s).None? <==>
      |s| < 2
      || (forall k :: 0 <= k < |CHAR_RANK_TO_INT_RANK| ==> CHAR_RANK_TO_INT_RANK[k].0 != s[0])
      || (forall k :: 0 <= k < |CHAR_SUIT_TO_INT_SUIT| ==> CHAR_SUIT_TO_INT_SUIT[k].0 != s[1])
  {
    if |s| >= 2 {
      FindRank(s[0]);
    }
  }

  /** Reading the fields of a code back. */
  lemma EncodeFields(r: Rank, j: SuitIndex)
    ensures And(Encode(r, j), 0xFF) == PRIMES[r]
    ensures Shr(Encode(r, j), 8) % 16 == r
    ensures Shr(Encode(r, j), 12) % 16 == Pow2(j)
    ensures Shr(Encode(r, j), 16) == Pow2(r)
  {
    EncodeSum(r, j);
    ShlFields(r, j);
    UnpackFields(Encode(r, j), Pow2(r), Pow2(j), r, PRIMES[r]);
  }

  lemma UnpackFields(e: nat, a: nat, b: nat, r: nat, p: nat)
    requires b < 16 && r < 16 && p < 256 && e == a * 65536 + b * 4096 + r * 256 + p
    ensures And(e, 0xFF) == p && Shr(e, 8) % 16 == r && Shr(e, 12) % 16 == b && Shr(e, 16) == a
  {
    var x := a * 256 + b * 16 + r;
    var y := a * 16 + b;
    LowByte(e, x, p);
    Nibble(x, y, r);
    ShrAdd(e, 8, 4);
    Nibble(y, a, b);
    ShrAdd(e, 12, 4);
  }

  /** The low byte of x * 256 + p is p, and shifting it out leaves x. */
  lemma LowByte(e: nat, x: nat, p: nat)
    requires p < 256 && e == x * 256 + p
    ensures And(e, 0xFF) == p && Shr(e, 8) == x
  {
    SmallPowers();
    AndLowField(x, p, 8);
    ShrPacked(x, p, 8);
  }

  /** The low nibble of hi * 16 + lo is lo, and shifting it out leaves hi. */
  lemma Nibble(v: nat, hi: nat, lo: nat)
    requires lo < 16 && v == hi * 16 + lo
    ensures v % 16 == lo && Shr(v, 4) == hi
  {
    SmallPowers();
    ShrPacked(hi, lo, 4);
    DivModUnique(v, 16, hi, lo);
  }

  // ---------------------------------------------------------------------------
  // Decoding

  /** The position of the suit whose field value is v. */
  function SuitOfValue(v: nat): (j: Option<SuitIndex>)
    ensures j.Some? ==> CHAR_SUIT_TO_INT_SUIT[j.value].1 == v
  {
    if v == CHAR_SUIT_TO_INT_SUIT[0].1 then Some(0)
    else if v == CHAR_SUIT_TO_INT_SUIT[1].1 then Some(1)
    else if v == CHAR_SUIT_TO_INT_SUIT[2].1 then Some(2)
    else if v == CHAR_SUIT_TO_INT_SUIT[3].1 then Some(3)
    else None
  }

  /** Bits 8..11 of a code: the rank index. */
  function RankField(c: nat): nat
  {
    Shr(c, 8) % 16
  }

  /** Bits 12..15 of a code: the suit value. */
  function SuitField(c: nat): nat
  {
    Shr(c, 12) % 16
  }

  /** A valid card code: exactly the code its own rank and suit fields describe. */
  predicate IsCard(c: nat)
  {
    RankField(c) < 13 && SuitOfValue(SuitField(c)).Some?
    && c == Encode(RankField(c), SuitOfValue(SuitField(c)).value)
  }

  function CardRank(c: nat): Rank
    requires IsCard(c)
  {
    RankField(c)
  }

  function CardSuit(c: nat): SuitIndex
    requires IsCard(c)
  {
    SuitOfValue(SuitField(c)).value
  }

  /**
   * The two characters of a card code, read from its rank and suit fields; None
   * unless the code is exactly the one those characters give.
   */
  function Decode(c: nat): (s: Option<string>)
    ensures s.Some? <==> IsCard(c)
  {
    if IsCard(c) then Some([CHAR_RANK_TO_INT_RANK[CardRank(c)].0, CHAR_SUIT_TO_INT_SUIT[CardSuit(c)].0])
    else None
  }

  lemma SuitOfPow2(j: SuitIndex)
    ensures SuitOfValue(Pow2(j)) == Some(j)
  {
    if j == 0 {} else if j == 1 {} else if j == 2 {} else {}
  }

  /** The code of every rank and suit is valid and has that rank and suit. */
  lemma EncodeIsCard(r: Rank, j: SuitIndex)
    ensures IsCard(Encode(r, j)) && CardRank(Encode(r, j)) == r && CardSuit(Encode(r, j)) == j
  {
    EncodeFields(r, j);
    SuitOfPow2(j);
  }

  /** Codes are equal exactly when their ranks and suits are. */
  lemma CardEquality(c: nat, d: nat)
    requires IsCard(c) && IsCard(d)
    ensures c == d <==> CardRank(c) == CardRank(d) && CardSuit(c) == CardSuit(d)
  {
  }

  /** Decoding a code from Card::new gives back the two characters it was made from. */
  lemma DecodeNew(s: string)
    requires New(s).Some?
    ensures |s| >= 2 && Decode(New(s).value) == Some(s[..2])
  {
    var r, j := NewIsEncode(s);
    EncodeIsCard(r, j);
    assert s[..2] == [s[0], s[1]];
  }

  /** Every code that decodes is the code Card::new gives for the decoded characters. */
  lemma NewDecode(c: nat)
    requires Decode(c).Some?
    ensures New(Decode(c).value) == Some(c)
  {
    NewOf(Decode(c).value, CardRank(c), CardSuit(c));
  }

  /** Card::new tells apart any two cards that differ in their first two characters. */
  lemma NewInjective(s: string, t: string)
    requires New(s).Some? && New(s) == New(t)
    ensures s[..2] == t[..2]
  {
    DecodeNew(s);
    DecodeNew(t);
  }

  /** Every code Card::new produces is valid. */
  lemma NewIsCard(s: string)
    requires New(s).Some?
    ensures IsCard(New(s).value)
  {
    DecodeNew(s);
  }

  /** The one-hot rank field: bit 16 + n of a code is set exactly for n equal to its rank. */
  lemma EncodeRankBit(r: Rank, j: SuitIndex, n: nat)
    ensures Bit(Encode(r, j), 16 + n) <==> n == r
  {
    EncodeSum(r, j);
    ShlFields(r, j);
    SmallPowers();
    BitPackedHigh(Pow2(r), Pow2(j) * 4096 + r * 256 + PRIMES[r], 16, 16 + n);
    BitPow2(r, n);
  }

  /** The one-hot suit field: bit 12 + n (n < 4) of a code is set exactly for n equal to its suit. */
  lemma EncodeSuitBit(r: Rank, j: SuitIndex, n: nat)
    requires n < 4
    ensures Bit(Encode(r, j), 12 + n) <==> n == j
  {
    EncodeSum(r, j);
    ShlFields(r, j);
    SmallPowers();
    SuitBitOf(Encode(r, j), Pow2(r), Pow2(j), r * 256 + PRIMES[r], n);
    BitPow2(j, n);
  }

  lemma SuitBitOf(e: nat, a: nat, b: nat, low: nat, n: nat)
    requires b <= 8 && low < 4096 && n < 4 && e == a * 65536 + b * 4096 + low
    ensures Bit(e, 12 + n) == Bit(b, n)
  {
    SmallPowers();
    assert e == (a * 16 + b) * Pow2(12) + low;
    BitPackedHigh(a * 16 + b, low, 12, 12 + n);
    assert a * 16 + b == a * Pow2(4) + b;
    BitPackedLow(a, b, 4, n);
  }

  /** The codes from the unit tests of Card::new. */
  lemma NewExamples()
    ensures New("2s") == Some(69634)
    ensures New("3h") == Some(139523)
    ensures New("4d") == Some(279045)
    ensures New("Ac") == Some(268471337)
  {
    DeuceOfSpades("2s");
    TreyOfHearts("3h");
    FourOfDiamonds("4d");
    AceOfClubs("Ac");
  }

  // Each fixture takes its string as a parameter, which keeps the verifier
  // from evaluating Card::new on the literal bit by bit.

  lemma DeuceOfSpades(s: string)
    requires s == "2s"
    ensures New(s) == Some(69634)
  {
    NewExample(s, 0, 0, 69634);
  }

  lemma TreyOfHearts(s: string)
    requires s == "3h"
    ensures New(s) == Some(139523)
  {
    NewExample(s, 1, 1, 139523);
  }

  lemma FourOfDiamonds(s: string)
    requires s == "4d"
    ensures New(s) == Some(279045)
  {
    NewExample(s, 2, 2, 279045);
  }

  lemma AceOfClubs(s: string)
    requires s == "Ac"
    ensures New(s) == Some(268471337)
  {
    NewExample(s, 12, 3, 268471337);
  }

  /** Card::new of known characters, with the code given as the sum of its fields. */
  lemma NewExample(s: string, r: Rank, j: SuitIndex, c: nat)
    requires |s| == 2 && s[0] == CHAR_RANK_TO_INT_RANK[r].0 && s[1] == CHAR_SUIT_TO_INT_SUIT[j].0
    requires c == Pow2(r) * 65536 + Pow2(j) * 4096 + r * 256 + PRIMES[r]
    ensures New(s) == Some(c)
  {
    var e := Encode(r, j);
    EncodeSum(r, j);
    assert e == c;
    NewOf(s, r, j);
  }
}
