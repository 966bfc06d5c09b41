/**
 * The HashMaps of the lookup table, built by inserting (key, rank) entries one
 * after another.  An insert overwrites the value of a key already present, so
 * the map has one entry per entry inserted exactly when no key repeats.
 */
module Tables {
  import opened Sequences

  /** The keys of a list of entries, in order. */
  function KeysOf(es: seq<(nat, nat)>): (ks: seq<nat>)
    ensures |ks| == |es| && forall i :: 0 <= i < |es| ==> ks[i] == es[i].0
  {
    seq(|es|, i requires 0 <= i < |es| => es[i].0)
  }

  /** The values of a list of entries, in order. */
  function ValuesOf(es: seq<(nat, nat)>): (vs: seq<nat>)
    ensures |vs| == |es| && forall i :: 0 <= i < |es| ==> vs[i] == es[i].1
  {
    seq(|es|, i requires 0 <= i < |es| => es[i].1)
  }

  /** `map.insert(k, v)` for every entry, first to last, starting from an empty map. */
  function InsertAll(es: seq<(nat, nat)>): map<nat, nat>
  {
    if |es| == 0 then map[] else InsertAll(es[..|es| - 1])[es[|es| - 1].0 := es[|es| - 1].1]
  }

  /**
   * `rank` counting up from `first` while the loop walks `keys`: the i-th key
   * gets rank first + i.
   */
  function Numbered(keys: seq<nat>, first: nat): (es: seq<(nat, nat)>)
    ensures |es| == |keys| && forall i :: 0 <= i < |keys| ==> es[i] == (keys[i], first + i)
  {
    seq(|keys|, i requires 0 <= i < |keys| => (keys[i], first + i))
  }

  /** The map holds exactly the inserted keys. */
  lemma {:induction false} InsertAllKeys(es: seq<(nat, nat)>)
    ensures forall k :: k in InsertAll(es) <==> k in KeysOf(es)
    decreases |es|
  {
    if |es| > 0 {
      var init := es[..|es| - 1];
      InsertAllKeys(init);
      forall k
        ensures k in KeysOf(es) <==> k in KeysOf(init) || k == es[|es| - 1].0
      {
        if k in KeysOf(es) {
          var i :| 0 <= i < |es| && KeysOf(es)[i] == k;
          if i < |es| - 1 {
            assert KeysOf(init)[i] == k;
          }
        }
        if k in KeysOf(init) {
          var i :| 0 <= i < |init| && KeysOf(init)[i] == k;
          assert KeysOf(es)[i] == k;
        }
        assert KeysOf(es)[|es| - 1] == es[|es| - 1].0;
      }
    }
  }

  /** With no repeated key, every key maps to the value inserted with it. */
  lemma {:induction false} InsertAllLookup(es: seq<(nat, nat)>, i: nat)
    requires NoDup(KeysOf(es)) && i < |es|
    ensures es[i].0 in InsertAll(es) && InsertAll(es)[es[i].0] == es[i].1
    decreases |es|
  {
    var last := |es| - 1;
    if i < last {
      var init := es[..last];
      assert KeysOf(es)[i] != KeysOf(es)[last];
      assert NoDup(KeysOf(init)) by {
        forall a, b | 0 <= a < b < |init|
          ensures KeysOf(init)[a] != KeysOf(init)[b]
        {
          assert KeysOf(es)[a] != KeysOf(es)[b];
        }
      }
      InsertAllLookup(init, i);
    }
  }

  /** With no repeated key, the map has one entry per insert. */
  lemma {:induction false} InsertAllSize(es: seq<(nat, nat)>)
    requires NoDup(KeysOf(es))
    ensures |InsertAll(es)| == |es|
    decreases |es|
  {
    if |es| > 0 {
      var last := |es| - 1;
      var init := es[..last];
      assert NoDup(KeysOf(init)) by {
        forall a, b | 0 <= a < b < |init|
          ensures KeysOf(init)[a] != KeysOf(init)[b]
        {
          assert KeysOf(es)[a] != KeysOf(es)[b];
        }
      }
      InsertAllSize(init);
      InsertAllKeys(init);
      forall i | 0 <= i < |init|
        ensures KeysOf(init)[i] != es[last].0
      {
        assert KeysOf(es)[i] != KeysOf(es)[last];
      }
    }
  }

  /** With no repeated key, the map's values are exactly the inserted values. */
  lemma InsertAllValues(es: seq<(nat, nat)>)
    requires NoDup(KeysOf(es))
    ensures forall v :: v in InsertAll(es).Values <==> v in ValuesOf(es)
  {
    var m := InsertAll(es);
    InsertAllKeys(es);
    forall v | v in m.Values
      ensures v in ValuesOf(es)
    {
      var k :| k in m && m[k] == v;
      var i :| 0 <= i < |es| && KeysOf(es)[i] == k;
      InsertAllLookup(es, i);
      assert ValuesOf(es)[i] == v;
    }
    forall v | v in ValuesOf(es)
      ensures v in m.Values
    {
      var i :| 0 <= i < |es| && ValuesOf(es)[i] == v;
      InsertAllLookup(es, i);
    }
  }

  /** The ranks handed out by a counter are the integers from first on, one per key. */
  lemma NumberedValues(keys: seq<nat>, first: nat)
    ensures forall v :: v in ValuesOf(Numbered(keys, first)) <==> first <= v < first + |keys|
  {
    var vs := ValuesOf(Numbered(keys, first));
    forall v | first <= v < first + |keys|
      ensures v in vs
    {
      assert vs[v - first] == v;
    }
  }

  /** Numbering keeps the keys. */
  lemma NumberedKeys(keys: seq<nat>, first: nat)
    ensures KeysOf(Numbered(keys, first)) == keys
  {
  }

  lemma KeysOfAppend(a: seq<(nat, nat)>, b: seq<(nat, nat)>)
    ensures KeysOf(a + b) == KeysOf(a) + KeysOf(b)
  {
  }

  lemma ValuesOfAppend(a: seq<(nat, nat)>, b: seq<(nat, nat)>)
    ensures ValuesOf(a + b) == ValuesOf(a) + ValuesOf(b)
  {
  }
}
