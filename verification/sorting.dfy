/**
 * Stable sorting by a descending integer key: `Array.prototype.sort` with the comparator
 * `(a, b) => key(b) - key(a)`, which since ES2019 keeps elements of equal key in their
 * original order.
 */
module Sorting {
  import Seqs

  /** Keys never increase along the sequence. */
  predicate SortedDesc<T>(s: seq<T>, key: T -> int)
  {
    forall i, j :: 0 <= i < j < |s| ==> key(s[i]) >= key(s[j])
  }

  /** `x` placed after every leading element whose key is at least its own. */
  function Insert<T>(s: seq<T>, x: T, key: T -> int): (r: seq<T>)
    ensures |r| == |s| + 1
    ensures multiset(r) == multiset(s) + multiset{x}
  {
    if |s| == 0 then [x]
    else if key(s[0]) >= key(x) then
      assert s == [s[0]] + s[1..];
      [s[0]] + Insert(s[1..], x, key)
    else
      [x] + s
  }

  /** Inserting into a sorted sequence keeps it sorted. */
  lemma {:induction false} InsertSorted<T>(s: seq<T>, x: T, key: T -> int)
    requires SortedDesc(s, key)
    ensures SortedDesc(Insert(s, x, key), key)
  {
    if |s| > 0 && key(s[0]) >= key(x) {
      var rest := Insert(s[1..], x, key);
      InsertSorted(s[1..], x, key);
      assert s == [s[0]] + s[1..];
      forall j | 0 <= j < |rest|
        ensures key(s[0]) >= key(rest[j])
      {
        assert rest[j] in multiset(rest);
        if rest[j] != x {
          assert rest[j] in multiset(s[1..]);
        }
      }
    }
  }

  /** Elements of equal key `k`, in order. */
  function KeyIs<T>(key: T -> int, k: int): T -> bool
  {
    (x: T) => key(x) == k
  }

  /** Inserting `x` appends it to the run of its key and leaves every other run alone. */
  lemma {:induction false} InsertStable<T>(s: seq<T>, x: T, key: T -> int, k: int)
    requires SortedDesc(s, key)
    ensures Seqs.Filter(Insert(s, x, key), KeyIs(key, k))
         == Seqs.Filter(s, KeyIs(key, k)) + (if key(x) == k then [x] else [])
  {
    if |s| == 0 {
      Seqs.FilterCons(x, s, KeyIs(key, k));
      assert [x] + s == [x];
    } else if key(s[0]) >= key(x) {
      InsertStable(s[1..], x, key, k);
      InsertBehindHead(s, x, key, k);
    } else {
      InsertInFront(s, x, key, k);
    }
  }

  /** The inductive step of `InsertStable` when `x` goes behind the first element. */
  lemma InsertBehindHead<T>(s: seq<T>, x: T, key: T -> int, k: int)
    requires |s| > 0 && key(s[0]) >= key(x)
    requires Seqs.Filter(Insert(s[1..], x, key), KeyIs(key, k))
          == Seqs.Filter(s[1..], KeyIs(key, k)) + (if key(x) == k then [x] else [])
    ensures Seqs.Filter(Insert(s, x, key), KeyIs(key, k))
         == Seqs.Filter(s, KeyIs(key, k)) + (if key(x) == k then [x] else [])
  {
    var p := KeyIs(key, k);
    var rest := Insert(s[1..], x, key);
    var head: seq<T> := if p(s[0]) then [s[0]] else [];
    assert Insert(s, x, key) == [s[0]] + rest;
    Seqs.FilterCons(s[0], rest, p);
    Seqs.HeadTail(s);
    Seqs.FilterCons(s[0], s[1..], p);
    Seqs.AppendAssoc(head, Seqs.Filter(s[1..], p), if key(x) == k then [x] else []);
  }

  /** The base case of `InsertStable` when `x` goes in front: no element of `s` has its key. */
  lemma InsertInFront<T>(s: seq<T>, x: T, key: T -> int, k: int)
    requires SortedDesc(s, key)
    requires |s| > 0 && key(s[0]) < key(x)
    ensures Seqs.Filter(Insert(s, x, key), KeyIs(key, k))
         == Seqs.Filter(s, KeyIs(key, k)) + (if key(x) == k then [x] else [])
  {
    var p := KeyIs(key, k);
    assert Insert(s, x, key) == [x] + s;
    Seqs.FilterCons(x, s, p);
    if key(x) == k {
      forall i | 0 <= i < |s|
        ensures !p(s[i])
      {
        assert key(s[i]) <= key(s[0]);
      }
      NoneKept(s, p);
      Seqs.AppendEmpty([x]);
    } else {
      Seqs.AppendEmpty(Seqs.Filter(s, p));
    }
  }

  /** A filter that no element passes keeps nothing. */
  lemma NoneKept<T>(s: seq<T>, p: T -> bool)
    requires forall i :: 0 <= i < |s| ==> !p(s[i])
    ensures Seqs.Filter(s, p) == []
  {
  }

  /** Insertion sort that inserts each element after the ones before it with the same key. */
  function Sort<T>(s: seq<T>, key: T -> int): (r: seq<T>)
    ensures |r| == |s|
    ensures multiset(r) == multiset(s)
    ensures SortedDesc(r, key)
    decreases |s|
  {
    if |s| == 0 then []
    else
      var init, last := s[..|s| - 1], s[|s| - 1];
      assert s == init + [last];
      InsertSorted(Sort(init, key), last, key);
      Insert(Sort(init, key), last, key)
  }

  /** The sort is stable: the elements of any one key keep their original relative order. */
  lemma {:induction false} SortStable<T>(s: seq<T>, key: T -> int, k: int)
    ensures Seqs.Filter(Sort(s, key), KeyIs(key, k)) == Seqs.Filter(s, KeyIs(key, k))
    decreases |s|
  {
    if |s| > 0 {
      var init, last := s[..|s| - 1], s[|s| - 1];
      assert s == init + [last];
      SortStable(init, key, k);
      InsertStable(Sort(init, key), last, key, k);
      Seqs.FilterAppend(init, [last], KeyIs(key, k));
      assert Seqs.Filter([last], KeyIs(key, k)) == if key(last) == k then [last] else [];
    }
  }
}
