/**
 * The list combinators the table builder uses: `itertools.combinations` of two
 * and of three elements, and nested loops that collect a block of entries per
 * element (`ForEach`).
 */
module Combinations {
  import opened Card
  import opened Enumeration
  import opened Sequences

  /** Strictly decreasing, as `(0..13).rev()` and everything filtered from it. */
  predicate Descending(s: seq<int>)
  {
    forall i, j :: 0 <= i < j < |s| ==> s[i] > s[j]
  }

  /** Filtering keeps a decreasing sequence decreasing. */
  lemma {:induction false} WithoutDescending(s: seq<Rank>, drop: seq<Rank>)
    requires Descending(s)
    ensures Descending(Without(s, drop))
    decreases |s|
  {
    if |s| > 0 {
      WithoutDescending(s[1..], drop);
      var rest := Without(s[1..], drop);
      if s[0] !in drop {
        var r := [s[0]] + rest;
        forall i, j | 0 <= i < j < |r|
          ensures r[i] > r[j]
        {
          assert r[j] == rest[j - 1] && rest[j - 1] in s[1..];
          if i > 0 {
            assert r[i] == rest[i - 1];
          }
        }
      }
    }
  }

  // ---------------------------------------------------------------------------
  // combinations(2) and combinations(3)

  /** The pairs (s[i], s[j]) with i < j, in lexicographic order of (i, j). */
  function Pairs(s: seq<Rank>): seq<(Rank, Rank)>
    decreases |s|
  {
    if |s| < 2 then [] else Behind(s[0], s[1..]) + Pairs(s[1..])
  }

  /** The pairs (x, t[j]) for every j, in order. */
  function Behind(x: Rank, t: seq<Rank>): (r: seq<(Rank, Rank)>)
    ensures |r| == |t|
    ensures forall j :: 0 <= j < |t| ==> r[j] == (x, t[j])
  {
    seq(|t|, j requires 0 <= j < |t| => (x, t[j]))
  }

  /** The triples (s[i], s[j], s[k]) with i < j < k, in lexicographic order. */
  function Triples(s: seq<Rank>): seq<(Rank, Rank, Rank)>
    decreases |s|
  {
    if |s| < 3 then [] else Before(s[0], Pairs(s[1..])) + Triples(s[1..])
  }

  /** The triples (x, p.0, p.1) for every pair p, in order. */
  function Before(x: Rank, ps: seq<(Rank, Rank)>): (r: seq<(Rank, Rank, Rank)>)
    ensures |r| == |ps|
    ensures forall j :: 0 <= j < |ps| ==> r[j] == (x, ps[j].0, ps[j].1)
  {
    seq(|ps|, j requires 0 <= j < |ps| => (x, ps[j].0, ps[j].1))
  }

  lemma {:induction false} PairsLength(s: seq<Rank>)
    ensures |Pairs(s)| == Binom(|s|, 2)
    decreases |s|
  {
    if |s| < 2 {
      if |s| == 1 {
        assert Binom(1, 2) == Binom(0, 2) + Binom(0, 1);
      }
    } else {
      PairsLength(s[1..]);
      BinomOne(|s| - 1);
    }
  }

  lemma {:induction false} TriplesLength(s: seq<Rank>)
    ensures |Triples(s)| == Binom(|s|, 3)
    decreases |s|
  {
    if |s| < 3 {
      SmallBinom(|s|);
    } else {
      TriplesLength(s[1..]);
      PairsLength(s[1..]);
    }
  }

  lemma SmallBinom(n: nat)
    requires n < 3
    ensures Binom(n, 3) == 0
  {
    BinomBeyond(n, 3);
  }

  /** From a decreasing sequence, the pairs are exactly its elements two at a time, larger first. */
  lemma {:induction false} PairsMembers(s: seq<Rank>, a: Rank, b: Rank)
    requires Descending(s)
    ensures (a, b) in Pairs(s) <==> a in s && b in s && a > b
    decreases |s|
  {
    if |s| >= 2 {
      var t := s[1..];
      PairsMembers(t, a, b);
      assert forall x :: x in t ==> x < s[0] by {
        forall x | x in t
          ensures x < s[0]
        {
          var k :| 0 <= k < |t| && t[k] == x;
          assert s[k + 1] == x;
        }
      }
      assert (a, b) in Behind(s[0], t) <==> a == s[0] && b in t by {
        if a == s[0] && b in t {
          var k :| 0 <= k < |t| && t[k] == b;
          assert Behind(s[0], t)[k] == (a, b);
        }
      }
      assert s == [s[0]] + t;
    } else if |s| == 1 {
      assert forall x :: x in s ==> x == s[0];
    }
  }

  lemma {:induction false} TriplesMembers(s: seq<Rank>, a: Rank, b: Rank, c: Rank)
    requires Descending(s)
    ensures (a, b, c) in Triples(s) <==> a in s && b in s && c in s && a > b > c
    decreases |s|
  {
    if |s| >= 3 {
      var t := s[1..];
      TriplesMembers(t, a, b, c);
      PairsMembers(t, b, c);
      DescendingTail(s);
      BeforeMembers(s[0], Pairs(t), a, b, c);
      assert s == [s[0]] + t;
    } else if a in s && b in s && c in s && a > b > c {
      ThreeInside(s, a, b, c);
    }
  }

  /** The triples led by x are x followed by one of the pairs. */
  lemma BeforeMembers(x: Rank, ps: seq<(Rank, Rank)>, a: Rank, b: Rank, c: Rank)
    ensures (a, b, c) in Before(x, ps) <==> a == x && (b, c) in ps
  {
    if a == x && (b, c) in ps {
      var k :| 0 <= k < |ps| && ps[k] == (b, c);
      assert Before(x, ps)[k] == (a, b, c);
    }
  }

  /** Three distinct elements need three positions. */
  lemma ThreeInside(s: seq<Rank>, a: Rank, b: Rank, c: Rank)
    requires Descending(s)
    requires a in s && b in s && c in s && a > b > c
    ensures |s| >= 3
  {
    var i :| 0 <= i < |s| && s[i] == a;
    var j :| 0 <= j < |s| && s[j] == b;
    var k :| 0 <= k < |s| && s[k] == c;
    assert i < j < k;
  }

  /** Everything after the head of a decreasing sequence is below the head. */
  lemma DescendingTail(s: seq<Rank>)
    requires Descending(s) && |s| > 0
    ensures Descending(s[1..])
    ensures forall x :: x in s[1..] ==> x < s[0]
  {
    forall x | x in s[1..]
      ensures x < s[0]
    {
      var k :| 0 <= k < |s[1..]| && s[1..][k] == x;
      assert s[k + 1] == x;
    }
  }

  lemma {:induction false} PairsNoDup(s: seq<Rank>)
    requires Descending(s)
    ensures NoDup(Pairs(s))
    decreases |s|
  {
    if |s| >= 2 {
      var t := s[1..];
      DescendingTail(s);
      PairsNoDup(t);
      var h := Behind(s[0], t);
      forall p | p in h
        ensures p !in Pairs(t)
      {
        PairsMembers(t, p.0, p.1);
      }
      NoDupAppend(h, Pairs(t));
    }
  }

  lemma {:induction false} TriplesNoDup(s: seq<Rank>)
    requires Descending(s)
    ensures NoDup(Triples(s))
    decreases |s|
  {
    if |s| >= 3 {
      var t := s[1..];
      DescendingTail(s);
      TriplesNoDup(t);
      PairsNoDup(t);
      var h := Before(s[0], Pairs(t));
      forall i, j | 0 <= i < j < |h|
        ensures h[i] != h[j]
      {
        assert Pairs(t)[i] != Pairs(t)[j];
      }
      forall p | p in h
        ensures p !in Triples(t)
      {
        TriplesMembers(t, p.0, p.1, p.2);
      }
      NoDupAppend(h, Triples(t));
    }
  }

  // ---------------------------------------------------------------------------
  // Nested loops

  /** The blocks f(x) for x in xs, one after another. */
  function ForEach<A, B>(xs: seq<A>, f: A -> seq<B>): seq<B>
    decreases |xs|
  {
    if |xs| == 0 then [] else f(xs[0]) + ForEach(xs[1..], f)
  }

  /** Blocks of equal size c give c entries per element. */
  lemma {:induction false} ForEachLength<A, B>(xs: seq<A>, f: A -> seq<B>, c: nat)
    requires forall x :: x in xs ==> |f(x)| == c
    ensures |ForEach(xs, f)| == |xs| * c
    decreases |xs|
  {
    if |xs| > 0 {
      ForEachLength(xs[1..], f, c);
    }
  }

  /** An entry of the loop is an entry of some element's block, and every such entry is in the loop. */
  lemma {:induction false} ForEachMembers<A, B>(xs: seq<A>, f: A -> seq<B>, y: B)
    ensures y in ForEach(xs, f) <==> exists x :: x in xs && y in f(x)
    decreases |xs|
  {
    if |xs| > 0 {
      ForEachMembers(xs[1..], f, y);
      assert xs == [xs[0]] + xs[1..];
    }
  }

  /** Repeat-free blocks of distinct elements that share nothing make a repeat-free loop. */
  lemma {:induction false} ForEachNoDup<A, B>(xs: seq<A>, f: A -> seq<B>)
    requires NoDup(xs)
    requires forall x :: x in xs ==> NoDup(f(x))
    requires forall x, x', y :: x in xs && x' in xs && y in f(x) && y in f(x') ==> x == x'
    ensures NoDup(ForEach(xs, f))
    decreases |xs|
  {
    if |xs| > 0 {
      NoDupTail(xs);
      ForEachNoDup(xs[1..], f);
      forall y | y in f(xs[0])
        ensures y !in ForEach(xs[1..], f)
      {
        ForEachMembers(xs[1..], f, y);
      }
      NoDupAppend(f(xs[0]), ForEach(xs[1..], f));
    }
  }

  /** A value in the block of an element is owned by that element. */
  lemma Owned<A, B>(xs: seq<A>, f: A -> seq<B>, P: B -> bool, owner: B -> A, x: A, y: B)
    requires forall x, y :: x in xs ==> (y in f(x) <==> P(y) && owner(y) == x)
    requires x in xs && y in f(x)
    ensures owner(y) == x
  {
  }

  /**
   * A loop whose blocks hold, for each element x, exactly the values satisfying
   * P that x owns, yields every value satisfying P exactly once.
   */
  lemma ForEachExact<A, B>(xs: seq<A>, f: A -> seq<B>, c: nat, P: B -> bool, owner: B -> A)
    requires NoDup(xs)
    requires forall x :: x in xs ==> |f(x)| == c && NoDup(f(x))
    requires forall x, y :: x in xs ==> (y in f(x) <==> P(y) && owner(y) == x)
    requires forall y :: P(y) ==> owner(y) in xs
    ensures |ForEach(xs, f)| == |xs| * c
    ensures NoDup(ForEach(xs, f))
    ensures forall y :: y in ForEach(xs, f) <==> P(y)
  {
    ForEachLength(xs, f, c);
    forall x, x', y | x in xs && x' in xs && y in f(x) && y in f(x')
      ensures x == x'
    {
      Owned(xs, f, P, owner, x, y);
      Owned(xs, f, P, owner, x', y);
    }
    ForEachNoDup(xs, f);
    forall y
      ensures y in ForEach(xs, f) <==> P(y)
    {
      ForEachMembers(xs, f, y);
    }
  }

  lemma DescendingNoDup(s: seq<Rank>)
    requires Descending(s)
    ensures NoDup(s)
  {
  }
}
