# deuces-rs poker hand evaluator, modelled in Dafny

deuces-rs ranks poker hands with a variant of Cactus Kev's method. A card is one
32-bit code:

- bits 16..28 hold a one-hot rank;
- bits 12..15 hold a one-hot suit;
- bits 8..11 hold the rank index;
- the low byte holds the rank's prime.

`LookupTable::new` fills two maps from prime products to hand ranks, 1 (royal
flush) to 7462 (seven-five high):

- the flush map holds the straight flushes and flushes;
- the unsuited map holds everything else.

The flush patterns come from a bit-twiddling generator that enumerates five-bit
masks. `Evaluator::_five` tests whether the five cards share a suit, builds the
key and looks it up. `get_rank_class` maps a rank to one of nine classes, and
`class_to_string` names the class. The Python file `deuces3/evaluator_mvp.py`
is the reference for the best-of-combinations evaluation of six and seven
cards, and for its own `get_rank_class`.

The model is one module per concern:

- `Bits` and `Fields`: two's-complement `&`, `|`, shifts and bit tests on
  unbounded integers.
- `Card`: the card code, `Card::new` and decoding back to characters.
- `Keys`: `prime_product_from_rankbits` and `prime_product_from_hand`.
- `Enumeration` and `BitSequence`: an independent enumeration of k-bit masks,
  and the generator.
- `Patterns`, `Straights`, `Combinations`, `Multiples`, `Shapes`, `Tables`,
  `Lookup` and `TableContents`: the lists and loops of `LookupTable::new`, and
  what the resulting maps contain.
- `Strength`: the order in which the loops of `LookupTable::new` list their
  hands, and the ranks that order yields.
- `HandEvaluator`: the Rust `Evaluator`.
- `MvpEvaluator`: the Python `evaluate`, `_six`, `_seven` and `get_rank_class`.

Two behaviours of the Rust code are easy to miss and are modelled as written:

- `get_rank_class` takes an unsigned rank, and its first branch accepts
  `hr >= 0 && hr <= MAX_STRAIGHT_FLUSH`, so rank 0 gets class 1, straight flush
  (evaluator.rs:76). The test at evaluator.rs:117 expects exactly this.
  HandEvaluator.RankClassOf states it.
- `evaluate` takes a hand and a board and scores their first five cards,
  because the dispatch on the number of cards is commented out
  (evaluator.rs:21-30). HandEvaluator.EvaluateFirstFive states it.

Each operation is checked against an independent definition:

- Card codes decode back to the characters they were made from.
- The generator is checked against the enumeration of masks by index.
- Each category of the table is shown to hold exactly the hands of that shape,
  each once.
- Each category is also shown to rank the stronger of two of its hands better.
  Hands with a repeated rank are compared on their deciding ranks, main rank
  first. Straights and straight flushes are ranked from the ace-high one down
  to the wheel. Flushes and high cards are ranked by decreasing rank mask, which
  is the order of the highest rank where two hands differ.
- `_five` on five different cards is shown to return a rank in the poker class
  of the hand. That class (`HandClass`) is defined from ranks and suits, not
  from the table.

## Model

| member | source | states |
|---|---|---|
| Card.FindFrom | src/card.rs:31-32 | the character search finds a value only if the table has an entry for that character with that value, and finds none exactly when no entry from the start position has that character |
| Card.NewOf | src/card.rs:28-40 | a rank character and a suit character from the tables give the code with the one-hot rank, the one-hot suit, the rank index and the rank prime in their fields |
| Card.NewFails | src/card.rs:29-32 | `new` fails exactly when the string has fewer than two characters, or its first character is not a rank character, or its second is not a suit character |
| Card.NewIsEncode | src/card.rs:28-40 | every code `new` produces is the field layout of the rank and suit its first two characters name |
| Card.EncodeLayout | src/card.rs:35-39 | OR-ing `1 << rank << 16`, `suit << 12`, `rank << 8` and the prime gives the sum of the four fields, because they do not overlap |
| Card.EncodeFields | src/card.rs:35-39 | the fields of a code read back: the low byte is the rank prime, bits 8..11 the rank, bits 12..15 the suit value, and the bits from 16 up the rank bit |
| Card.EncodeRankBit | src/card.rs:35 | bit 16 + n of a code is set exactly when n is the card's rank |
| Card.EncodeSuitBit | src/card.rs:36 | bit 12 + n (n < 4) of a code is set exactly when n is the card's suit |
| Card.DecodeNew | src/card.rs:28-40 | decoding the code of a string gives back its first two characters |
| Card.NewDecode | src/card.rs:28-40 | every code that decodes is what `new` gives for the decoded characters |
| Card.NewInjective | src/card.rs:28-40 | two strings with the same code agree in their first two characters |
| Card.CardEquality | src/card.rs:28-40 | two valid codes are equal exactly when their ranks and suits are |
| Card.RankPrime | src/card.rs:5 | each rank prime is prime, lies in 2..41, and the primes increase with the rank |
| Card.NewExamples | src/card.rs:65-71 | `new` gives 69634 for "2s", 139523 for "3h", 279045 for "4d" and 268471337 for "Ac" |
| Keys.RankBitsKey | src/card.rs:42-50 | `prime_product_from_rankbits` is the product of the primes of the ranks whose bits are set |
| Keys.RankBitsIgnoreHigh | src/card.rs:44-45 | bits 13 and above of the mask do not change the product |
| Keys.RankBitsInjective | src/card.rs:42-50 | two masks below 2^13 have the same product exactly when they are equal |
| Keys.RankKeyInjective | src/card.rs:42-58 | two lists of ranks have the same prime product exactly when they are permutations of each other |
| Keys.AceDeuceBits | src/card.rs:75 | the product for 0b1000000000001 is 82 |
| Keys.AceTreyBits | src/card.rs:76 | the product for 0b1000000000010 is 123 |
| Keys.AceFourBits | src/card.rs:77 | the product for 0b1000000000100 is 205 |
| Keys.AceEightBits | src/card.rs:78 | the product for 0b1000001000000 is 697 |
| Keys.BroadwayBits | src/card.rs:79 | the product for 7936 is 31367009 |
| Keys.EightHighBits | src/card.rs:80 | the product for 124 is 85085 |
| Keys.SevenHighBits | src/card.rs:81 | the product for 62 is 15015 |
| Keys.SixHighBits | src/card.rs:82 | the product for 31 is 2310 |
| Keys.WheelBits | src/card.rs:83 | the product for 4111 is 8610 |
| Keys.HandProduct | src/card.rs:52-58 | `prime_product_from_hand` multiplies the low bytes of the codes |
| Keys.HandPermutation | src/card.rs:52-58 | the product does not depend on the order of the cards |
| Keys.HandKey | src/card.rs:52-58 | for valid codes the product is the prime product of the cards' ranks |
| Keys.HandKeyBound | src/card.rs:52-58 | for five valid codes the product is at most 115856201 (41^5), below 2^32, so the u32 product never wraps |
| Keys.HandKeyAgreement | src/evaluator.rs:36-37 | for valid codes of different ranks, the rank-bit product of the OR of the codes shifted right by 16 equals `prime_product_from_hand` |
| Keys.HandRankBit | src/evaluator.rs:36 | bit x of the OR of valid codes shifted right by 16 is set exactly when some card has rank x |
| BitSequence.NextByCtz | src/lookup.rs:53-61 | one generator step sets the low `ctz(t) - ctz(v) - 1` bits of `t = v + lowbit(v)` |
| BitSequence.NextGrows | src/lookup.rs:53-61 | every step yields a larger number |
| BitSequence.GenerateEnumerates | src/lookup.rs:53-61 | seeded with the k lowest bits set, the next C(n, k) - 1 outputs of the generator are exactly the enumeration of k-bit numbers below 2^n after its first element, position by position |
| BitSequence.FirstOutputs | test/deuces3/test_lookup.py:15-21 | seeded with 0b11111 the generator first yields 47, 55 and 59 |
| Enumeration.CombosExact | src/lookup.rs:78-87 | the enumeration holds a number exactly when it is below 2^n and has k set bits |
| Enumeration.CombosIncreasing | src/lookup.rs:78-87 | the enumeration is strictly increasing, so it lists each such number once |
| Enumeration.FiveOfThirteen | src/lookup.rs:81 | there are 1287 five-rank masks, the 1277 + 10 the flush loop walks |
| Patterns.StraightsFiveRanks | src/lookup.rs:65-76 | each of the ten literal straights is a mask of five ranks |
| Patterns.DrawnMembers | src/lookup.rs:78-87 | the 1286 masks the generator draws from 0b11111 are every five-rank mask except 0b11111 itself, each once, in increasing order |
| Patterns.FilteredLength | src/lookup.rs:81-87 | filtering the straights out of the 1286 generated masks leaves 1277 |
| Patterns.FlushPatternsExact | src/lookup.rs:78-92 | the flush list holds exactly the 1277 five-rank masks that are not straights, once each, strongest first |
| Patterns.AllPatterns | src/lookup.rs:65-92 | the straights followed by the flush list are all five-rank masks, once each |
| Patterns.AllPatternKeysDistinct | src/lookup.rs:94-111 | the flush loops never insert the same key twice |
| Straights.StraightAtMask | src/lookup.rs:65-76 | entry j of the literal list is the mask of the j-th straight, from ace high down to the wheel |
| Straights.StraightsAreMasks | src/lookup.rs:65-76 | five increasing ranks have their mask in the literal list exactly when they are five in a row or the wheel |
| Combinations.PairsLength | src/lookup.rs:194 | `combinations(2)` of n ranks has n(n-1)/2 entries |
| Combinations.TriplesLength | src/lookup.rs:214 | `combinations(3)` of n ranks has C(n, 3) entries |
| Combinations.PairsMembers | src/lookup.rs:194 | from a decreasing list, `combinations(2)` holds exactly the pairs of its elements, larger first |
| Combinations.TriplesMembers | src/lookup.rs:214 | from a decreasing list, `combinations(3)` holds exactly the triples of its elements, in decreasing order |
| Combinations.ForEachExact | src/lookup.rs:148-156 | a loop whose blocks each hold exactly the values one element owns yields every such value exactly once |
| Multiples.BackwardsRanks | src/lookup.rs:140 | `(0..13).rev()` holds every rank once, from ace down |
| Multiples.OthersExact | src/lookup.rs:150-151 | `retain(x != i)` keeps the twelve other ranks, still from ace down |
| Multiples.QuadsExact | src/lookup.rs:144-157 | the four-of-a-kind loop yields each of the 156 quads once |
| Multiples.FullHousesExact | src/lookup.rs:159-172 | the full-house loop yields each of the 156 full houses once |
| Multiples.TripsExact | src/lookup.rs:174-189 | the three-of-a-kind loop yields each of the 858 hands once |
| Multiples.TwoPairsExact | src/lookup.rs:191-205 | the two-pair loop yields each of the 858 hands once |
| Multiples.OnePairsExact | src/lookup.rs:207-225 | the one-pair loop yields each of the 2860 hands once |
| Strength.PairsFirst | src/lookup.rs:194 | from a decreasing list of ranks, `combinations(2)` lists every pair ahead of every pair it beats on the first rank, then the second |
| Strength.TriplesFirst | src/lookup.rs:214 | from a decreasing list of ranks, `combinations(3)` lists every triple ahead of every triple it beats rank by rank |
| Strength.QuadsStrongestFirst | src/lookup.rs:144-157 | the four-of-a-kind loop lists every hand ahead of every weaker one: higher quad rank first, then higher kicker |
| Strength.FullHousesStrongestFirst | src/lookup.rs:159-172 | the full-house loop lists every hand ahead of every weaker one: higher trips first, then higher pair |
| Strength.TripsStrongestFirst | src/lookup.rs:174-189 | the three-of-a-kind loop lists every hand ahead of every weaker one: trips, then high kicker, then low kicker |
| Strength.TwoPairsStrongestFirst | src/lookup.rs:191-205 | the two-pair loop lists every hand ahead of every weaker one: high pair, then low pair, then kicker |
| Strength.OnePairsStrongestFirst | src/lookup.rs:207-225 | the one-pair loop lists every hand ahead of every weaker one: pair, then the three kickers from high to low |
| Strength.QuadRanks | src/lookup.rs:144-157 | of two four of a kinds, the unsuited map gives one the smaller (better) rank exactly when it has the higher quad rank, or the same quad rank and the higher kicker |
| Strength.FullHouseRanks | src/lookup.rs:159-172 | of two full houses, the unsuited map gives one the smaller rank exactly when it wins on trips, then on pair |
| Strength.TripsRanks | src/lookup.rs:174-189 | of two three of a kinds, the unsuited map gives one the smaller rank exactly when it wins on trips, then high kicker, then low kicker |
| Strength.TwoPairRanks | src/lookup.rs:191-205 | of two two pairs, the unsuited map gives one the smaller rank exactly when it wins on high pair, then low pair, then kicker |
| Strength.PairRanks | src/lookup.rs:207-225 | of two one pairs, the unsuited map gives one the smaller rank exactly when it wins on pair rank, then on the kickers from high to low |
| Strength.StraightFlushRank | src/lookup.rs:94-102 | the straight flush j places below the royal flush, with the wheel last, has flush rank exactly j + 1 |
| Strength.StraightRank | src/lookup.rs:123-129 | the straight j places below the ace-high straight, with the wheel last, has unsuited rank exactly MAX_FLUSH + 1 + j |
| Strength.MaskOrder | src/lookup.rs:92 | one mask is larger than another exactly when it holds the highest rank where the two differ; this is the order `flushes.reverse()` relies on to put the strongest flush first |
| Strength.FlushOrder | src/lookup.rs:92-111 | of two five-rank masks that are not straights, the flush map ranks one better exactly when its mask is the larger, that is, when it holds the highest rank where the two differ |
| Strength.HighCardOrder | src/lookup.rs:131-136 | of two five-rank masks that are not straights, the unsuited map ranks one better exactly when its mask is the larger, that is, when it holds the highest rank where the two differ |
| Shapes.ProductIsKey | src/lookup.rs:153-221 | each `pow`-based product in `multiples` is the prime product of the hand's five ranks |
| Shapes.ShapeInjective | src/lookup.rs:139-226 | two well-formed hands have the same ranks, counted with multiplicity, exactly when they are equal |
| Shapes.ShapeOfSound | src/lookup.rs:139-226 | five ranks, none of them five times, either form one of the well-formed shapes `multiples` enumerates, with the same ranks, or are five different ranks; the latter exactly when no rank repeats |
| Tables.InsertAllKeys | src/lookup.rs:99 | the map holds exactly the inserted keys |
| Tables.InsertAllLookup | src/lookup.rs:99 | with no repeated key, each key maps to the value inserted with it |
| Tables.InsertAllSize | src/lookup.rs:251-256 | with no repeated key, the map has one entry per insert |
| Tables.NumberedValues | src/lookup.rs:94-111 | the `rank += 1` counter hands out exactly first .. first + n - 1 |
| TableContents.FlushKeysDistinct | src/lookup.rs:94-111 | `flushes` never inserts a key twice |
| TableContents.UnsuitedKeysDistinct | src/lookup.rs:122-226 | `straight_and_highcards` and `multiples` never insert a key twice |
| TableContents.AllShapesExact | src/lookup.rs:139-226 | `multiples` ranks every hand with a repeated rank exactly once, 4888 hands |
| TableContents.PatternNotShape | src/lookup.rs:122-226 | no five-rank pattern shares its key with a hand that repeats a rank |
| TableContents.TableSizes | src/lookup.rs:251-256 | `new` builds a flush map of 1287 entries and an unsuited map of 6175 |
| TableContents.FlushRanks | src/lookup.rs:94-111 | the flush map stores exactly the ranks 1..10 and 323..1599 |
| TableContents.UnsuitedRanks | src/lookup.rs:122-226 | the unsuited map stores exactly the ranks 11..322 and 1600..7462 |
| TableContents.RanksPartition | src/lookup.rs:14-22 | the two maps share no rank and together use exactly 1..7462 |
| TableContents.FlushLookup | src/lookup.rs:94-111 | every five-rank mask is a flush key, ranked as a straight flush for the ten straights and as a flush otherwise |
| TableContents.UnsuitedLookup | src/lookup.rs:122-137 | every five-rank mask is an unsuited key, ranked as a straight or a high card |
| TableContents.QuadLookup | src/lookup.rs:144-157 | every four of a kind is an unsuited key with a rank in 11..166 |
| TableContents.FullHouseLookup | src/lookup.rs:159-172 | every full house is an unsuited key with a rank in 167..322 |
| TableContents.TripsLookup | src/lookup.rs:174-189 | every three of a kind is an unsuited key with a rank in 1610..2467 |
| TableContents.TwoPairLookup | src/lookup.rs:191-205 | every two pair is an unsuited key with a rank in 2468..3325 |
| TableContents.PairLookup | src/lookup.rs:207-225 | every one pair is an unsuited key with a rank in 3326..6185 |
| TableContents.NewFlushComplete | src/lookup.rs:64-120 | the flush map of `new` ranks every five-rank mask in its class |
| TableContents.NewPatternsComplete | src/lookup.rs:122-137 | the unsuited map of `new` ranks every five-rank mask as a straight or a high card |
| TableContents.NewShapesComplete | src/lookup.rs:139-226 | the unsuited map of `new` ranks every hand with a repeated rank in its shape's class |
| HandEvaluator.NewComplete | src/evaluator.rs:9-19 | the table of `Evaluator::new` ranks every five-rank mask in the flush map and every five-rank mask and repeated-rank hand in the unsuited map, each in its class, and holds the boundary and name tables |
| HandEvaluator.Five | src/evaluator.rs:33-45 | `_five` finds a rank exactly when its key is in the map the flush test selects, and the rank is a value of that map |
| HandEvaluator.FlushTest | src/evaluator.rs:35 | for valid codes the AND of the five codes with 0xF000 is nonzero exactly when all five cards share a suit |
| HandEvaluator.FiveClass | src/evaluator.rs:33-45 | on five different valid cards `_five` finds the key, and the rank lies in the hand's poker class |
| HandEvaluator.FiveRange | src/evaluator.rs:33-45 | on five different valid cards `_five` returns 1..7462; a suited hand gets 1..10 or 323..1599 |
| HandEvaluator.Evaluate | src/evaluator.rs:21-24 | `evaluate` with fewer than five cards in total has no result |
| HandEvaluator.EvaluateFirstFive | src/evaluator.rs:21-24 | `evaluate` is `_five` of the first five cards of hand and board; more board cards change nothing |
| HandEvaluator.GetRankClass | src/evaluator.rs:75-97 | `get_rank_class` fails exactly for ranks above 7462 |
| HandEvaluator.RankClassOf | src/evaluator.rs:75-97 | with the table of `new`, every rank in 0..7462 gets a class in 1..9 that contains the rank, and 0 gets class 1 |
| HandEvaluator.RankClassExact | src/evaluator.rs:75-97 | a rank in the range of class c gets class c |
| HandEvaluator.RankClassBoundary | src/evaluator.rs:75-97 | the class is the first boundary at or above the rank |
| HandEvaluator.RankClassMonotone | src/evaluator.rs:75-97 | a lower (better) rank never gets a higher class |
| HandEvaluator.FiveRankClass | src/evaluator.rs:75-97 | `get_rank_class` of the rank `_five` returns is the class of the hand |
| HandEvaluator.ClassToString | src/evaluator.rs:103-105 | `class_to_string` has a result exactly when the class is a key of the name map |
| HandEvaluator.ClassNames | src/lookup.rs:40-51 | with the names of `new`, exactly the classes 1..9 have a name, from "Straight Flush" to "High Card" |
| MvpEvaluator.Choose | deuces3/evaluator_mvp.py:323 | every selection of `itertools.combinations(cards, 5)` has five elements |
| MvpEvaluator.ChooseMembers | deuces3/evaluator_mvp.py:323 | the selections are exactly the k-element subsequences of the cards |
| MvpEvaluator.ChooseCount | deuces3/evaluator_mvp.py:317-318 | there are C(n, k) selections |
| MvpEvaluator.ChooseFirst | deuces3/evaluator_mvp.py:323 | the first selection is the first k cards |
| MvpEvaluator.SixCombinations | deuces3/evaluator_mvp.py:317-318 | six cards give six selections of five |
| MvpEvaluator.SevenCombinations | deuces3/evaluator_mvp.py:334-335 | seven cards give twenty-one selections of five |
| MvpEvaluator.Best | deuces3/evaluator_mvp.py:321-330 | the minimum loop fails exactly when some `_five` lookup fails; otherwise it is at most the start value and every score, and is the start value or one of the scores |
| MvpEvaluator.Six | deuces3/evaluator_mvp.py:315-330 | when `_six` has a result, it is at most 7462 and at most the score of every selection of five, all of which succeed |
| MvpEvaluator.Seven | deuces3/evaluator_mvp.py:332-347 | when `_seven` has a result, it is at most 7462 and at most the score of every selection of five, all of which succeed |
| MvpEvaluator.BestOfCombinations | deuces3/evaluator_mvp.py:315-347 | on different valid cards the minimum loop finds every key and returns the rank, in 1..7462, of one of the selections |
| MvpEvaluator.PyEvaluate | deuces3/evaluator_mvp.py:288-295 | `evaluate` has no result unless hand and board hold five to seven cards |
| MvpEvaluator.PyEvaluateRange | deuces3/evaluator_mvp.py:288-295 | five to seven different valid cards get a rank in 1..7462, which is the rank of one of their five-card selections |
| MvpEvaluator.PyEvaluateIsBest | deuces3/evaluator_mvp.py:282-295 | on six or seven cards `evaluate` dispatches to the minimum loop over all selections of five |
| MvpEvaluator.PyEvaluateFive | deuces3/evaluator_mvp.py:297-313 | on exactly five cards the Python and the Rust `evaluate` agree |
| MvpEvaluator.PyEvaluateNotWorse | deuces3/evaluator_mvp.py:288-295 | on six or seven cards the Python rank is never worse than the Rust rank of the first five cards |
| MvpEvaluator.PyGetRankClass | deuces3/evaluator_mvp.py:349-373 | the Python `get_rank_class` as written raises exactly for ranks above 7462 |
| MvpEvaluator.PyNegativeRank | deuces3/evaluator_mvp.py:354-357 | as written, every negative rank is reported as class 2, four of a kind |
| MvpEvaluator.RankClass | deuces3/evaluator_mvp.py:349-373 | with the intended guard, a rank has a class exactly when it lies in 0..7462 |
| MvpEvaluator.RankClassAgrees | deuces3/evaluator_mvp.py:349-373 | the corrected lookup names the class the rank lies in, equals the Rust `get_rank_class` on 0..7462, and equals the code as written on every rank that is not negative |

## Left out

- Card.NewFails: the `unwrap` panics of `Card::new` (card.rs:29-32) are modelled as `None`, not as a precondition. Characters after the second are ignored, as in the code.
- HandEvaluator.Five: the `unwrap` panic on a missing key (evaluator.rs:38 and 43) is modelled as `None`.
- HandEvaluator.Evaluate: the index panic with fewer than five cards (evaluator.rs:24) is modelled as `None`. The function scores only the first five cards of hand and board, as evaluator.rs:21-24 does. The size dispatch to `_six` and `_seven` is commented out in the source (evaluator.rs:25-30 and 47-73), so no Rust best-of-combinations is modelled. The Python one is (MvpEvaluator.Six and MvpEvaluator.Seven), and MvpEvaluator.PyEvaluateNotWorse relates the two evaluators.
- HandEvaluator.ClassToString: the `unwrap` panic on an unknown class (evaluator.rs:104) is modelled as `None`.
- HandEvaluator.GetRankClass: requires the nine boundary keys in the class map, which `new` always inserts (HandEvaluator.RankClassOf proves this for the table of `new`). The panic of the map index on a missing boundary key is not modelled. `hr` is a `nat` because the Rust parameter is a `u32`.
- MvpEvaluator.PyEvaluate: the `KeyError` of `hand_size_map` for a hand of other than five to seven cards, and a `KeyError` of a table lookup, are modelled as `None`.
- MvpEvaluator.PyGetRankClass: the raised `Exception` is modelled as `Failure` with the source's message text, typo included.
- Integer widths: Rust `u32`/`i32` and Python integers are modelled as unbounded `int`/`nat`. No wrap-around is modelled. Instead, bounds are proved where overflow could matter:
  - Keys.HandKeyBound: a hand product stays below 2^32;
  - the generator's masks stay below 2^13;
  - the `as u32` cast is an explicit modulo (`AsU32`), proved to leave masks unchanged (Patterns.AsU32Small).
- Keys.PrimeProductFromHand: the `u32` overflow of the product on inputs that are not card codes is not modelled.
- BitSequence.Spread: the Python generator divides with float division, `int((t & -t) / (bits & -bits))`, and Rust with `i32` integer division. Both operands are powers of two, the lowest set bits of masks below 2^13. The quotient is therefore exact in both languages, and far below 2^53. The model writes the division as exact repeated halving (`DivPow2`).
- The Python `LookupTable` is not modelled separately. Its constants, lists and loops (evaluator_mvp.py:24-243) are the same as lookup.rs, so MvpEvaluator uses the table of `Lookup.New()`. The Python `class_to_string` (evaluator_mvp.py:375-379) is the same dictionary lookup as HandEvaluator.ClassToString.
- `HashMap` is modelled as a Dafny `map`, built by inserting the entries in order (`Tables.InsertAll`). Hashing and iteration order are not modelled.
- `get_five_card_rank_percentage` (evaluator.rs:99-101, evaluator_mvp.py:381-385) is not modelled, because it is floating point.
- `hand_summary` (evaluator_mvp.py:387-440) and `write_table_to_disk` (evaluator_mvp.py:245-251) are not modelled. They print and write files.
- src/builder.rs, src/lexograph.rs, deuces3/lexograph.py, src/model.rs and src/lib.rs are not part of this model.
- `multiples` computes `(0..INT_RANKS.len()).rev()`. The model writes this as `Countdown(|INT_RANKS|)` rather than as a literal list, with the same value.

## Findings

| source | as written | input that shows it | evidently intended | confidence | as-written member | corrected member |
|---|---|---|---|---|---|---|
| deuces3/evaluator_mvp.py:354-357 | only the first branch tests `hr >= 0`, so a negative rank falls through to `hr <= MAX_FOUR_OF_A_KIND` | `get_rank_class(-1)` returns 2, four of a kind, instead of raising | a negative rank is rejected like one above 7462, as in the Rust version where `hr` is unsigned | medium, not executed | MvpEvaluator.PyNegativeRank | MvpEvaluator.RankClass |
