/** Small facts about finite sets and maps that the counting views need. */
module Sets {

  /** Some element of a non-empty set. */
  lemma Pick<T>(s: set<T>) returns (x: T)
    requires s != {}
    ensures x in s
  {
    x :| x in s;
  }

  lemma {:induction false} SubsetCard<T>(a: set<T>, b: set<T>)
    requires a <= b
    ensures |a| <= |b|
  {
    if a != {} {
      var x := Pick(a);
      SubsetCard(a - {x}, b - {x});
    }
  }

  /** The sum of `m[k]` over the keys `keys`, in no particular order. */
  ghost function SumOver<K>(m: map<K, int>, keys: set<K>): int
    requires keys <= m.Keys
    decreases keys
  {
    if keys == {} then 0
    else
      var k :| k in keys;
      m[k] + SumOver(m, keys - {k})
  }

  /** The sum does not depend on the order: any key can be taken out first. */
  lemma {:induction false} SumOverRemove<K>(m: map<K, int>, keys: set<K>, k: K)
    requires keys <= m.Keys && k in keys
    ensures SumOver(m, keys) == m[k] + SumOver(m, keys - {k})
    decreases keys
  {
    var j :| j in keys && SumOver(m, keys) == m[j] + SumOver(m, keys - {j});
    if j != k {
      SumOverRemove(m, keys - {j}, k);
      SumOverRemove(m, keys - {k}, j);
      assert keys - {j} - {k} == keys - {k} - {j};
    }
  }

  /** Two maps that agree on `keys` have the same sum over them. */
  lemma {:induction false} SumOverAgree<K>(m1: map<K, int>, m2: map<K, int>, keys: set<K>)
    requires keys <= m1.Keys && keys <= m2.Keys
    requires forall k :: k in keys ==> m1[k] == m2[k]
    ensures SumOver(m1, keys) == SumOver(m2, keys)
    decreases keys
  {
    if keys != {} {
      var k := Pick(keys);
      SumOverRemove(m1, keys, k);
      SumOverRemove(m2, keys, k);
      SumOverAgree(m1, m2, keys - {k});
    }
  }

  /** The sum over a list of keys, in list order. */
  function SumSeq<K>(m: map<K, int>, ks: seq<K>): int
    requires forall i :: 0 <= i < |ks| ==> ks[i] in m
  {
    if ks == [] then 0 else m[ks[0]] + SumSeq(m, ks[1..])
  }

  /** Summing over a duplicate-free list of the keys gives `SumOver`. */
  lemma {:induction false} SumSeqIsSumOver<K>(m: map<K, int>, ks: seq<K>)
    requires forall i :: 0 <= i < |ks| ==> ks[i] in m
    requires forall i, j :: 0 <= i < j < |ks| ==> ks[i] != ks[j]
    ensures (set i | 0 <= i < |ks| :: ks[i]) <= m.Keys
    ensures SumSeq(m, ks) == SumOver(m, set i | 0 <= i < |ks| :: ks[i])
  {
    var keys := set i | 0 <= i < |ks| :: ks[i];
    if ks != [] {
      var rest := set i | 0 <= i < |ks| - 1 :: ks[1..][i];
      SumSeqIsSumOver(m, ks[1..]);
      assert keys == rest + {ks[0]} by {
        forall x | x in keys ensures x in rest + {ks[0]} {
          var i :| 0 <= i < |ks| && ks[i] == x;
          if i > 0 { assert ks[1..][i - 1] == x; }
        }
      }
      assert ks[0] !in rest;
      SumOverRemove(m, keys, ks[0]);
      assert keys - {ks[0]} == rest;
    }
  }

  /** Summing over a duplicate-free list of all the keys gives `SumOver` on all of them. */
  lemma SumSeqIsSumOverAll<K>(m: map<K, int>, ks: seq<K>)
    requires forall i :: 0 <= i < |ks| ==> ks[i] in m
    requires forall i, j :: 0 <= i < j < |ks| ==> ks[i] != ks[j]
    requires forall k :: k in m ==> k in ks
    ensures SumSeq(m, ks) == SumOver(m, m.Keys)
  {
    SumSeqIsSumOver(m, ks);
    assert (set i | 0 <= i < |ks| :: ks[i]) == m.Keys;
  }
}
