/**
 * Sums over the values of a map, independent of any enumeration order, and the fact
 * that summing along any duplicate-free enumeration of the keys gives the same total.
 */
module Counters {
  import Seqs

  /** Some key of a non-empty map. */
  ghost function Pick<K, V>(m: map<K, V>): (k: K)
    requires |m| > 0
    ensures k in m
  {
    var k :| k in m; k
  }

  /** The sum of `f` over the values of `m`. */
  ghost function SumOver<K, V>(m: map<K, V>, f: V -> int): int
    decreases |m|
  {
    if |m| == 0 then 0
    else
      var k := Pick(m);
      assert |m - {k}| < |m| by { assert (m - {k}).Keys == m.Keys - {k}; }
      f(m[k]) + SumOver(m - {k}, f)
  }

  /** Any key can be taken out first. */
  lemma {:induction false} SumOverRemove<K, V>(m: map<K, V>, f: V -> int, k: K)
    requires k in m
    ensures SumOver(m, f) == f(m[k]) + SumOver(m - {k}, f)
    decreases |m|
  {
    var j := Pick(m);
    if j != k {
      var mj := m - {j};
      var mk := m - {k};
      RemoveShrinks(m, j);
      RemoveShrinks(m, k);
      SumOverRemove(mj, f, k);
      SumOverRemove(mk, f, j);
      RemoveCommutes(m, j, k);
    }
  }

  /** Taking out a present key leaves one key fewer. */
  lemma RemoveShrinks<K, V>(m: map<K, V>, k: K)
    requires k in m
    ensures (m - {k}).Keys == m.Keys - {k} && |m - {k}| == |m| - 1
  {
    assert (m - {k}).Keys == m.Keys - {k};
  }

  /** Two keys can be taken out in either order. */
  lemma RemoveCommutes<K, V>(m: map<K, V>, j: K, k: K)
    ensures m - {j} - {k} == m - {k} - {j}
  {
    assert (m - {j} - {k}).Keys == (m - {k} - {j}).Keys;
  }

  /** Replacing or adding one value changes the sum by the difference. */
  lemma SumOverUpdate<K, V>(m: map<K, V>, f: V -> int, k: K, v: V)
    ensures SumOver(m[k := v], f) == SumOver(m, f) - (if k in m then f(m[k]) else 0) + f(v)
  {
    SumOverRemove(m[k := v], f, k);
    UpdateRemove(m, k, v);
    if k in m {
      SumOverRemove(m, f, k);
    } else {
      RemoveAbsent(m, k);
    }
  }

  /** Taking a key out forgets whatever was stored under it. */
  lemma UpdateRemove<K, V>(m: map<K, V>, k: K, v: V)
    ensures m[k := v] - {k} == m - {k}
  {
    assert (m[k := v] - {k}).Keys == (m - {k}).Keys;
  }

  /** Taking out a key that is not there changes nothing. */
  lemma RemoveAbsent<K, V>(m: map<K, V>, k: K)
    requires k !in m
    ensures m - {k} == m
  {
    assert (m - {k}).Keys == m.Keys;
  }

  /** The sum of `f` over the values stored under `ks`, in order. */
  function SumSeq<K, V>(ks: seq<K>, m: map<K, V>, f: V -> int): int
    requires forall i :: 0 <= i < |ks| ==> ks[i] in m
  {
    if |ks| == 0 then 0 else SumSeq(ks[..|ks| - 1], m, f) + f(m[ks[|ks| - 1]])
  }

  /** Extending a prefix by one key adds that key's value. */
  lemma SumSeqSnoc<K, V>(ks: seq<K>, i: nat, m: map<K, V>, f: V -> int)
    requires i < |ks|
    requires forall j :: 0 <= j < |ks| ==> ks[j] in m
    ensures SumSeq(ks[..i + 1], m, f) == SumSeq(ks[..i], m, f) + f(m[ks[i]])
  {
    assert ks[..i + 1][..i] == ks[..i];
  }

  /** `ks` lists every key of `m` exactly once. */
  predicate Enumerates<K, V>(ks: seq<K>, m: map<K, V>)
  {
    && (forall i, j :: 0 <= i < j < |ks| ==> ks[i] != ks[j])
    && (forall i :: 0 <= i < |ks| ==> ks[i] in m)
    && (forall k :: k in m ==> k in ks)
  }

  /** Summing along an enumeration of the keys gives the order-independent sum. */
  lemma {:induction false} SumSeqEnumeration<K, V>(ks: seq<K>, m: map<K, V>, f: V -> int)
    requires Enumerates(ks, m)
    ensures SumSeq(ks, m, f) == SumOver(m, f)
    decreases |ks|
  {
    if |ks| == 0 {
      assert m.Keys == {};
      assert m == map[];
    } else {
      var last := ks[|ks| - 1];
      var init := ks[..|ks| - 1];
      var rest := m - {last};
      assert SumSeq(ks, m, f) == SumSeq(init, m, f) + f(m[last]);
      EnumeratesInit(ks, m);
      SumSeqRestrict(init, m, rest, f);
      SumSeqEnumeration(init, rest, f);
      SumOverRemove(m, f, last);
    }
  }

  /** Dropping the last key of an enumeration enumerates the map without that key. */
  lemma EnumeratesInit<K, V>(ks: seq<K>, m: map<K, V>)
    requires Enumerates(ks, m) && |ks| > 0
    ensures Enumerates(ks[..|ks| - 1], m - {ks[|ks| - 1]})
  {
    var last := ks[|ks| - 1];
    var init := ks[..|ks| - 1];
    forall k | k in m - {last} ensures k in init {
      var i :| 0 <= i < |ks| && ks[i] == k;
      assert i != |ks| - 1;
    }
  }

  /** `SumSeq` reads only the keys it lists. */
  lemma {:induction false} SumSeqRestrict<K, V>(ks: seq<K>, m: map<K, V>, m': map<K, V>, f: V -> int)
    requires forall i :: 0 <= i < |ks| ==> ks[i] in m && ks[i] in m' && m[ks[i]] == m'[ks[i]]
    ensures SumSeq(ks, m, f) == SumSeq(ks, m', f)
    decreases |ks|
  {
    if |ks| > 0 {
      SumSeqRestrict(ks[..|ks| - 1], m, m', f);
    }
  }

  /** The size of a duplicate-free enumeration is the number of keys. */
  lemma {:induction false} EnumerationSize<K, V>(ks: seq<K>, m: map<K, V>)
    requires Enumerates(ks, m)
    ensures |ks| == |m|
    decreases |ks|
  {
    if |ks| == 0 {
      assert m.Keys == {};
    } else {
      var last := ks[|ks| - 1];
      var rest := m - {last};
      assert rest.Keys == m.Keys - {last};
      EnumeratesInit(ks, m);
      EnumerationSize(ks[..|ks| - 1], rest);
    }
  }

  /** A tally value read as an integer, the summand of a tally's total. */
  function AsInt(n: nat): int { n }

  /** Adds one to the tally kept under `k` (`t[k] = (t[k] || 0) + 1`). */
  function Tally<K>(t: map<K, nat>, k: K): (r: map<K, nat>)
    ensures r.Keys == t.Keys + {k}
    ensures r[k] == (if k in t then t[k] else 0) + 1
    ensures forall j :: j in t && j != k ==> r[j] == t[j]
  {
    t[k := (if k in t then t[k] else 0) + 1]
  }

  /** A tally's total grows by exactly one per counted item. */
  lemma TallyTotal<K>(t: map<K, nat>, k: K)
    ensures SumOver(Tally(t, k), AsInt) == SumOver(t, AsInt) + 1
  {
    SumOverUpdate(t, AsInt, k, (if k in t then t[k] else 0) + 1);
  }

  /** The tally stored under `k`, or 0 when `k` was never counted. */
  function TallyOf<K>(t: map<K, nat>, k: K): nat
  {
    if k in t then t[k] else 0
  }

  /** The images of `s` under `key`. */
  function KeysOf<T, K>(s: seq<T>, key: T -> K): set<K>
  {
    set i | 0 <= i < |s| :: key(s[i])
  }

  /**
   * Tallies every element of `s` under `key`, visiting the elements in order (the
   * `forEach` that builds a `by_…` object of counters).
   */
  function TallyBy<T, K>(s: seq<T>, key: T -> K): (r: map<K, nat>)
    ensures r.Keys == KeysOf(s, key)
    ensures SumOver(r, AsInt) == |s|
    decreases |s|
  {
    if |s| == 0 then map[]
    else
      var init := s[..|s| - 1];
      var r0 := TallyBy(init, key);
      TallyTotal(r0, key(s[|s| - 1]));
      KeysOfSnoc(s, key);
      Tally(r0, key(s[|s| - 1]))
  }

  /** The key set grows by the last element's key. */
  lemma KeysOfSnoc<T, K>(s: seq<T>, key: T -> K)
    requires |s| > 0
    ensures KeysOf(s, key) == KeysOf(s[..|s| - 1], key) + {key(s[|s| - 1])}
  {
    var init := s[..|s| - 1];
    forall k | k in KeysOf(s, key)
      ensures k in KeysOf(init, key) + {key(s[|s| - 1])}
    {
      var i :| 0 <= i < |s| && key(s[i]) == k;
      if i < |s| - 1 {
        assert key(init[i]) == k;
      }
    }
    forall k | k in KeysOf(init, key)
      ensures k in KeysOf(s, key)
    {
      var i :| 0 <= i < |init| && key(init[i]) == k;
      assert key(s[i]) == k;
    }
  }

  /** The predicate "has key `k`", the filter a single counter stands for. */
  function HasKey<T, K(==)>(key: T -> K, k: K): T -> bool
  {
    x => key(x) == k
  }

  /** Each counter of a tally is the number of elements carrying its key. */
  lemma {:induction false} TallyByCounts<T, K>(s: seq<T>, key: T -> K, k: K)
    ensures TallyOf(TallyBy(s, key), k) == Seqs.Count(s, HasKey(key, k))
    decreases |s|
  {
    if |s| > 0 {
      var init := s[..|s| - 1];
      TallyByCounts(init, key, k);
      Seqs.CountSnoc(s, HasKey(key, k));
    }
  }
}
