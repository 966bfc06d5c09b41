/**
 * The Python evaluator of deuces3/evaluator_mvp.py, from which the Rust was
 * ported. It builds the same lookup table and has the same `_five`, and adds
 * what the Rust leaves out: `evaluate` on six or seven cards takes the best
 * (lowest) rank over every five-card combination.
 *
 * A raised KeyError or exception becomes None or a Failure here.
 */
module MvpEvaluator {
  import opened Wrappers
  import opened Card
  import opened Keys
  import opened Sequences
  import opened Enumeration
  import opened Lookup
  import opened TableContents
  import opened HandEvaluator

  // ---------------------------------------------------------------------------
  // itertools.combinations

  /** `[x] + c` for every c, in order. */
  function Prepend<T>(x: T, cs: seq<seq<T>>): (r: seq<seq<T>>)
    ensures |r| == |cs|
    ensures forall i :: 0 <= i < |r| ==> r[i] == [x] + cs[i]
  {
    seq(|cs|, i requires 0 <= i < |cs| => [x] + cs[i])
  }

  /**
   * `itertools.combinations(s, k)`: the k-element selections of s, in the
   * order of their positions; those holding s[0] come first.
   */
  function Choose<T>(s: seq<T>, k: nat): (r: seq<seq<T>>)
    ensures forall i :: 0 <= i < |r| ==> |r[i]| == k
    decreases |s|
  {
    if k == 0 then [[]]
    else if |s| == 0 then []
    else Prepend(s[0], Choose(s[1..], k - 1)) + Choose(s[1..], k)
  }

  /** c can be obtained from s by deleting elements. */
  predicate Sub<T(==)>(c: seq<T>, s: seq<T>)
    decreases |s|
  {
    if |c| == 0 then true
    else if |s| == 0 then false
    else (c[0] == s[0] && Sub(c[1..], s[1..])) || Sub(c, s[1..])
  }

  /** The selections are exactly the k-element subsequences. */
  lemma {:induction false} ChooseMembers<T>(s: seq<T>, k: nat, c: seq<T>)
    ensures c in Choose(s, k) <==> |c| == k && Sub(c, s)
    decreases |s|
  {
    if k == 0 {
    } else if |s| == 0 {
    } else {
      var with := Choose(s[1..], k - 1);
      var without := Choose(s[1..], k);
      assert Choose(s, k) == Prepend(s[0], with) + without;
      ChooseMembers(s[1..], k, c);
      if |c| > 0 {
        ChooseMembers(s[1..], k - 1, c[1..]);
        if c in Prepend(s[0], with) {
          var i :| 0 <= i < |with| && Prepend(s[0], with)[i] == c;
          assert c[1..] == with[i];
        }
        if c[0] == s[0] && c[1..] in with {
          var i :| 0 <= i < |with| && with[i] == c[1..];
          assert Prepend(s[0], with)[i] == c;
        }
      }
    }
  }

  /** There are Binom(n, k) selections of k out of n. */
  lemma {:induction false} ChooseCount<T>(s: seq<T>, k: nat)
    ensures |Choose(s, k)| == Binom(|s|, k)
    decreases |s|
  {
    if k > 0 && |s| > 0 {
      ChooseCount(s[1..], k - 1);
      ChooseCount(s[1..], k);
    }
  }

  /** The first k elements are the first selection. */
  lemma {:induction false} ChooseFirst<T>(s: seq<T>, k: nat)
    requires k <= |s|
    ensures |Choose(s, k)| > 0 && Choose(s, k)[0] == s[..k]
    decreases |s|
  {
    if k > 0 {
      ChooseFirst(s[1..], k - 1);
      assert s[..k] == [s[0]] + s[1..][..k - 1];
    }
  }

  /** Every element of a subsequence is an element of the whole. */
  lemma {:induction false} SubMembers<T>(c: seq<T>, s: seq<T>, x: T)
    requires Sub(c, s) && x in c
    ensures x in s
    decreases |s|
  {
    if c[0] == s[0] && Sub(c[1..], s[1..]) {
      if x != c[0] {
        assert x in c[1..];
        SubMembers(c[1..], s[1..], x);
      }
    } else {
      SubMembers(c, s[1..], x);
    }
  }

  /** A subsequence of a sequence without repeats has none either. */
  lemma {:induction false} SubNoDup<T>(c: seq<T>, s: seq<T>)
    requires Sub(c, s) && NoDup(s)
    ensures NoDup(c)
    decreases |s|
  {
    if |c| > 0 {
      NoDupTail(s);
      if c[0] == s[0] && Sub(c[1..], s[1..]) {
        SubNoDup(c[1..], s[1..]);
        HeadNotInTail(s);
        forall x | x in [c[0]]
          ensures x !in c[1..]
        {
          if x in c[1..] {
            SubMembers(c[1..], s[1..], x);
          }
        }
        NoDupAppend([c[0]], c[1..]);
        assert c == [c[0]] + c[1..];
      } else {
        SubNoDup(c, s[1..]);
      }
    }
  }

  lemma HeadNotInTail<T>(s: seq<T>)
    requires NoDup(s) && |s| > 0
    ensures s[0] !in s[1..]
  {
    forall j | 0 <= j < |s[1..]|
      ensures s[1..][j] != s[0]
    {
      assert s[1..][j] == s[j + 1];
    }
  }

  /** Five different valid cards taken from different valid cards. */
  lemma SubHand(c: seq<nat>, cards: seq<nat>)
    requires Sub(c, cards) && AllCards(cards) && NoDup(cards)
    ensures AllCards(c) && NoDup(c)
  {
    SubNoDup(c, cards);
    forall i | 0 <= i < |c|
      ensures IsCard(c[i])
    {
      SubMembers(c, cards, c[i]);
      var j :| 0 <= j < |cards| && cards[j] == c[i];
    }
  }

  // ---------------------------------------------------------------------------
  // _six and _seven

  /**
   * The loop of `_six` and `_seven`: start from `minimum` and keep each
   * `_five` score that is strictly lower; None where a lookup raises.
   */
  function Best(e: Evaluator, combos: seq<seq<nat>>, minimum: nat): (r: Option<nat>)
    requires forall i :: 0 <= i < |combos| ==> |combos[i]| == 5
    ensures r.None? <==> exists i :: 0 <= i < |combos| && Five(e, combos[i]).None?
    ensures r.Some? ==> r.value <= minimum
    ensures r.Some? ==> forall i :: 0 <= i < |combos| ==> Five(e, combos[i]).Some? && r.value <= Five(e, combos[i]).value
    ensures r.Some? ==> r.value == minimum || exists i :: 0 <= i < |combos| && r.value == Five(e, combos[i]).value
    decreases |combos|
  {
    if |combos| == 0 then Some(minimum)
    else match Five(e, combos[0])
      case None => None
      case Some(score) =>
        var rest := Best(e, combos[1..], if score < minimum then score else minimum);
        assert forall i :: 1 <= i < |combos| ==> combos[i] == combos[1..][i - 1];
        rest
  }

  /** Evaluator._six: the best rank of the six five-card combinations. */
  function Six(e: Evaluator, cards: seq<nat>): (r: Option<nat>)
    requires |cards| == 6
    ensures r.Some? ==> r.value <= MAX_HIGH_CARD
    ensures r.Some? ==> forall c :: c in Choose(cards, 5) ==> Five(e, c).Some? && r.value <= Five(e, c).value
  {
    Best(e, Choose(cards, 5), MAX_HIGH_CARD)
  }

  /** Evaluator._seven: the best rank of the twenty-one five-card combinations. */
  function Seven(e: Evaluator, cards: seq<nat>): (r: Option<nat>)
    requires |cards| == 7
    ensures r.Some? ==> r.value <= MAX_HIGH_CARD
    ensures r.Some? ==> forall c :: c in Choose(cards, 5) ==> Five(e, c).Some? && r.value <= Five(e, c).value
  {
    Best(e, Choose(cards, 5), MAX_HIGH_CARD)
  }

  lemma {:induction false} BinomAll(n: nat)
    ensures Binom(n, n) == 1
  {
    if n > 0 {
      BinomAll(n - 1);
      BinomBeyond(n - 1, n);
    }
  }

  lemma BinomAllButOne(n: nat)
    requires n >= 1
    ensures Binom(n, n - 1) == n
  {
    if n > 1 {
      BinomAll(n - 1);
      BinomAllButOne(n - 1);
    }
  }

  lemma BinomAllButTwo(n: nat)
    requires n >= 2
    ensures 2 * Binom(n, n - 2) == n * (n - 1)
  {
    if n > 2 {
      BinomAllButOne(n - 1);
      BinomAllButTwo(n - 1);
    }
  }

  /** Six cards give six combinations. */
  lemma SixCombinations(cards: seq<nat>)
    requires |cards| == 6
    ensures |Choose(cards, 5)| == 6
  {
    ChooseCount(cards, |cards| - 1);
    BinomAllButOne(|cards|);
  }

  /** Seven cards give twenty-one combinations. */
  lemma SevenCombinations(cards: seq<nat>)
    requires |cards| == 7
    ensures |Choose(cards, 5)| == 21
  {
    ChooseCount(cards, |cards| - 2);
    BinomAllButTwo(|cards|);
  }

  /**
   * For different valid cards, the best-of-combinations loop finds every key,
   * and its rank in 1..7462 is the rank of one of the combinations.
   */
  lemma BestOfCombinations(e: Evaluator, cards: seq<nat>)
    requires Complete(e.table)
    requires AllCards(cards) && NoDup(cards) && |cards| >= 5
    ensures Best(e, Choose(cards, 5), MAX_HIGH_CARD).Some?
    ensures 1 <= Best(e, Choose(cards, 5), MAX_HIGH_CARD).value <= MAX_HIGH_CARD
    ensures exists c :: c in Choose(cards, 5) && Five(e, c) == Best(e, Choose(cards, 5), MAX_HIGH_CARD)
  {
    var combos := Choose(cards, 5);
    forall i | 0 <= i < |combos|
      ensures Five(e, combos[i]).Some? && 1 <= Five(e, combos[i]).value <= MAX_HIGH_CARD
    {
      ChooseMembers(cards, 5, combos[i]);
      SubHand(combos[i], cards);
      FiveRange(e, combos[i]);
    }
    ChooseFirst(cards, 5);
    var v := Best(e, combos, MAX_HIGH_CARD).value;
    if v == MAX_HIGH_CARD {
      assert v == Five(e, combos[0]).value;
    }
  }

  // ---------------------------------------------------------------------------
  // evaluate

  /** Evaluator.evaluate: dispatch on the number of cards; None where `hand_size_map` has no entry. */
  function PyEvaluate(e: Evaluator, cards: seq<nat>, board: seq<nat>): (r: Option<nat>)
    ensures !(5 <= |cards + board| <= 7) ==> r.None?
  {
    var all := cards + board;
    if |all| == 5 then Five(e, all)
    else if |all| == 6 then Six(e, all)
    else if |all| == 7 then Seven(e, all)
    else None
  }

  /** Five to seven different valid cards get a rank in 1..7462, the rank of one of their five-card combinations. */
  lemma PyEvaluateRange(e: Evaluator, cards: seq<nat>, board: seq<nat>)
    requires Complete(e.table)
    requires AllCards(cards + board) && NoDup(cards + board) && 5 <= |cards + board| <= 7
    ensures PyEvaluate(e, cards, board).Some?
    ensures 1 <= PyEvaluate(e, cards, board).value <= MAX_HIGH_CARD
    ensures exists c :: c in Choose(cards + board, 5) && Five(e, c) == PyEvaluate(e, cards, board)
  {
    var all := cards + board;
    if |all| == 5 {
      FiveRange(e, all);
      ChooseFirst(all, 5);
      assert all[..5] == all;
      assert Choose(all, 5)[0] in Choose(all, 5);
    } else {
      PyEvaluateIsBest(e, cards, board);
      BestOfCombinations(e, all);
    }
  }

  /** On six or seven cards `evaluate` is the best-of-combinations loop. */
  lemma PyEvaluateIsBest(e: Evaluator, cards: seq<nat>, board: seq<nat>)
    requires 6 <= |cards + board| <= 7
    ensures PyEvaluate(e, cards, board) == Best(e, Choose(cards + board, 5), MAX_HIGH_CARD)
  {
  }

  /** On exactly five cards the Python and the Rust evaluators agree. */
  lemma PyEvaluateFive(e: Evaluator, cards: seq<nat>, board: seq<nat>)
    requires |cards + board| == 5
    ensures PyEvaluate(e, cards, board) == Evaluate(e, cards, board)
  {
    assert (cards + board)[..5] == cards + board;
  }

  /** On six or seven cards the Python rank is never worse than the Rust rank of the first five. */
  lemma PyEvaluateNotWorse(e: Evaluator, cards: seq<nat>, board: seq<nat>)
    requires 6 <= |cards + board| <= 7
    requires PyEvaluate(e, cards, board).Some?
    ensures Evaluate(e, cards, board).Some?
    ensures PyEvaluate(e, cards, board).value <= Evaluate(e, cards, board).value
  {
    var all := cards + board;
    ChooseFirst(all, 5);
  }

  // ---------------------------------------------------------------------------
  // get_rank_class

  const RANK_ERROR := "Inavlid hand rank, cannot return rank class"

  /**
   * Evaluator.get_rank_class as written: only the first branch tests
   * `hr >= 0`, so a negative rank falls through to the second branch.
   */
  function PyGetRankClass(hr: int): (r: Result<nat>)
    ensures r.Failure? <==> hr > MAX_HIGH_CARD
  {
    var m := MaxToRankClass();
    if hr >= 0 && hr <= MAX_STRAIGHT_FLUSH then Success(m[MAX_STRAIGHT_FLUSH])
    else if hr <= MAX_FOUR_OF_A_KIND then Success(m[MAX_FOUR_OF_A_KIND])
    else if hr <= MAX_FULL_HOUSE then Success(m[MAX_FULL_HOUSE])
    else if hr <= MAX_FLUSH then Success(m[MAX_FLUSH])
    else if hr <= MAX_STRAIGHT then Success(m[MAX_STRAIGHT])
    else if hr <= MAX_THREE_OF_A_KIND then Success(m[MAX_THREE_OF_A_KIND])
    else if hr <= MAX_TWO_PAIR then Success(m[MAX_TWO_PAIR])
    else if hr <= MAX_PAIR then Success(m[MAX_PAIR])
    else if hr <= MAX_HIGH_CARD then Success(m[MAX_HIGH_CARD])
    else Failure(RANK_ERROR)
  }

  /** Every negative rank is reported as four of a kind. */
  lemma PyNegativeRank(hr: int)
    requires hr < 0
    ensures PyGetRankClass(hr) == Success(2)
  {
  }

  /** get_rank_class with the evidently intended guard: a negative rank is rejected like one above 7462. */
  function RankClass(hr: int): (r: Result<nat>)
    ensures r.Success? <==> 0 <= hr <= MAX_HIGH_CARD
  {
    if hr < 0 then Failure(RANK_ERROR) else PyGetRankClass(hr)
  }

  /**
   * The corrected lookup names the class a rank lies in, and agrees with the
   * Rust get_rank_class on every rank that type can hold (up to the wording of
   * the error); it differs from the code as written only below zero.
   */
  lemma RankClassAgrees(e: Evaluator, hr: int)
    requires e.table.maxToRankClass == MaxToRankClass()
    ensures 1 <= hr <= MAX_HIGH_CARD ==> RankClass(hr).Success? && InClass(hr, RankClass(hr).value)
    ensures hr >= 0 ==> HasBoundaries(e.table.maxToRankClass)
    ensures hr >= 0 ==> RankClass(hr).Success? == GetRankClass(e, hr).Success?
    ensures 0 <= hr <= MAX_HIGH_CARD ==> RankClass(hr) == GetRankClass(e, hr)
    ensures hr >= 0 ==> RankClass(hr) == PyGetRankClass(hr)
  {
    if hr >= 0 {
      RankClassOf(e, hr);
    }
  }
}
