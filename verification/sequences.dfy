/**
 * Facts about sequences without repeated elements, and the list operations the
 * table builder uses: keeping the elements a predicate accepts (`retain`, or a
 * loop that skips some values) and reversal.
 */
module Sequences {
  import opened Primes

  predicate NoDup<T(==)>(s: seq<T>)
  {
    forall i, j :: 0 <= i < j < |s| ==> s[i] != s[j]
  }

  /** Without its head, a repeat-free sequence holds everything but the head. */
  lemma NoDupTail<T>(s: seq<T>)
    requires |s| > 0 && NoDup(s)
    ensures NoDup(s[1..])
    ensures forall x :: x in s[1..] <==> x in s && x != s[0]
  {
    forall x | x in s[1..]
      ensures x != s[0]
    {
      var k :| 0 <= k < |s[1..]| && s[1..][k] == x;
      assert s[k + 1] == x;
    }
    assert s == [s[0]] + s[1..];
  }

  /** Without position j, a repeat-free sequence holds everything but s[j], still without repeats. */
  lemma NoDupRemove<T>(s: seq<T>, j: nat)
    requires j < |s| && NoDup(s)
    ensures NoDup(s[..j] + s[j + 1..])
    ensures forall x :: x in s[..j] + s[j + 1..] <==> x in s && x != s[j]
  {
    var t := s[..j] + s[j + 1..];
    assert s == s[..j] + [s[j]] + s[j + 1..];
    forall p, q | 0 <= p < q < |t|
      ensures t[p] != t[q]
    {
      var p' := if p < j then p else p + 1;
      var q' := if q < j then q else q + 1;
      assert t[p] == s[p'] && t[q] == s[q'];
    }
    forall x | x in s && x != s[j]
      ensures x in t
    {
      var i :| 0 <= i < |s| && s[i] == x;
      assert t[if i < j then i else i - 1] == x;
    }
    forall x | x in t
      ensures x != s[j]
    {
      var k :| 0 <= k < |t| && t[k] == x;
      assert s[if k < j then k else k + 1] == x;
    }
  }

  /** Repeat-free sequences with the same elements are permutations of each other. */
  lemma {:induction false} SameElements<T>(a: seq<T>, b: seq<T>)
    requires NoDup(a) && NoDup(b)
    requires forall x :: x in a <==> x in b
    ensures multiset(a) == multiset(b)
    decreases |a|
  {
    if |a| > 0 {
      assert a[0] in a;
      var j :| 0 <= j < |b| && b[j] == a[0];
      NoDupTail(a);
      NoDupRemove(b, j);
      SameElements(a[1..], b[..j] + b[j + 1..]);
      MatchedHeads(a, b, j);
    } else {
      NoDupCard(a);
      NoDupCard(b);
      assert (set x | x in a) == (set x | x in b);
    }
  }

  /** A repeat-free sequence has as many elements as the set of its elements. */
  lemma {:induction false} NoDupCard<T>(s: seq<T>)
    requires NoDup(s)
    ensures |set x | x in s| == |s|
    decreases |s|
  {
    if |s| > 0 {
      NoDupTail(s);
      NoDupCard(s[1..]);
      assert (set x | x in s) == (set x | x in s[1..]) + {s[0]};
    } else {
      assert (set x | x in s) == {};
    }
  }

  /** In a sequence without repeats every value occurs at most once. */
  lemma {:induction false} NoDupCount<T>(s: seq<T>, x: T)
    requires NoDup(s)
    ensures multiset(s)[x] <= 1
    decreases |s|
  {
    if |s| > 0 {
      NoDupTail(s);
      NoDupCount(s[1..], x);
      assert s == [s[0]] + s[1..];
      assert multiset(s)[x] == multiset([s[0]])[x] + multiset(s[1..])[x];
    }
  }

  /** Two repeat-free sequences with no common element concatenate without repeats. */
  lemma NoDupAppend<T>(a: seq<T>, b: seq<T>)
    requires NoDup(a) && NoDup(b)
    requires forall x :: x in a ==> x !in b
    ensures NoDup(a + b)
  {
    var c := a + b;
    forall i, j | 0 <= i < j < |c|
      ensures c[i] != c[j]
    {
      if i < |a| && j >= |a| {
        assert c[i] in a && c[j] == b[j - |a|] && b[j - |a|] in b;
      } else if j >= |a| {
        assert c[i] == b[i - |a|] && c[j] == b[j - |a|];
      }
    }
  }

  // ---------------------------------------------------------------------------
  // Filtering and reversal

  /** The elements of s that are not in `drop`, in order. */
  function Without<T(==,!new)>(s: seq<T>, drop: seq<T>): (r: seq<T>)
    ensures forall x :: x in r <==> x in s && x !in drop
    ensures |r| <= |s|
  {
    if |s| == 0 then []
    else (if s[0] in drop then [] else [s[0]]) + Without(s[1..], drop)
  }

  lemma {:induction false} WithoutNoDup<T(!new)>(s: seq<T>, drop: seq<T>)
    requires NoDup(s)
    ensures NoDup(Without(s, drop))
    decreases |s|
  {
    if |s| > 0 {
      NoDupTail(s);
      WithoutNoDup(s[1..], drop);
    }
  }

  /** Filtering out `drop` from a repeat-free sequence removes exactly the elements the two share. */
  lemma {:induction false} WithoutLength<T(!new)>(s: seq<T>, drop: seq<T>)
    requires NoDup(s)
    ensures |Without(s, drop)| == |s| - |set x | x in s && x in drop|
    decreases |s|
  {
    if |s| > 0 {
      NoDupTail(s);
      WithoutLength(s[1..], drop);
      var shared := set x | x in s && x in drop;
      var rest := set x | x in s[1..] && x in drop;
      if s[0] in drop {
        assert shared == rest + {s[0]};
      } else {
        assert shared == rest;
      }
    } else {
      assert (set x | x in s && x in drop) == {};
    }
  }

  function Reverse<T>(s: seq<T>): (r: seq<T>)
    ensures |r| == |s| && forall i :: 0 <= i < |s| ==> r[i] == s[|s| - 1 - i]
  {
    seq(|s|, i requires 0 <= i < |s| => s[|s| - 1 - i])
  }

  lemma ReverseMembers<T>(s: seq<T>)
    ensures forall x :: x in Reverse(s) <==> x in s
    ensures NoDup(s) ==> NoDup(Reverse(s))
  {
    var r := Reverse(s);
    forall x | x in s
      ensures x in r
    {
      var i :| 0 <= i < |s| && s[i] == x;
      assert r[|s| - 1 - i] == x;
    }
  }
}
