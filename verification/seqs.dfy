/** Order-preserving sequence utilities: filtering, first-match search and sums. */
module Seqs {
  import opened Wrappers

  /** The elements of `s` that satisfy `p`, in their original order (`Array.prototype.filter`). */
  function Filter<T>(s: seq<T>, p: T -> bool): (r: seq<T>)
    ensures |r| <= |s|
    ensures forall i :: 0 <= i < |r| ==> p(r[i])
    ensures forall i :: 0 <= i < |s| && p(s[i]) ==> s[i] in r
    ensures forall x :: x in r ==> x in s
  {
    if |s| == 0 then []
    else if p(s[0]) then [s[0]] + Filter(s[1..], p)
    else Filter(s[1..], p)
  }

  /** An element is kept by a filter exactly when it occurs in the input and satisfies the predicate. */
  lemma FilterMembership<T>(s: seq<T>, p: T -> bool)
    ensures forall x :: x in Filter(s, p) <==> x in s && p(x)
  {
    var r := Filter(s, p);
    forall x | x in r
      ensures p(x)
    {
      var i :| 0 <= i < |r| && r[i] == x;
    }
  }

  /** Filtering a sequence with a known first element. */
  lemma FilterCons<T>(x: T, s: seq<T>, p: T -> bool)
    ensures Filter([x] + s, p) == (if p(x) then [x] else []) + Filter(s, p)
  {
    assert ([x] + s)[1..] == s;
  }

  /** Concatenation is associative. */
  lemma AppendAssoc<T>(a: seq<T>, b: seq<T>, c: seq<T>)
    ensures a + (b + c) == (a + b) + c
  {
  }

  /** The empty sequence is a unit of concatenation. */
  lemma AppendEmpty<T>(s: seq<T>)
    ensures s + [] == s && [] + s == s
  {
  }

  /** A non-empty sequence is its first element followed by the rest. */
  lemma HeadTail<T>(s: seq<T>)
    requires |s| > 0
    ensures [s[0]] + s[1..] == s
  {
  }

  /** Filtering distributes over concatenation, so filtering keeps relative order. */
  lemma {:induction false} FilterAppend<T>(s: seq<T>, t: seq<T>, p: T -> bool)
    ensures Filter(s + t, p) == Filter(s, p) + Filter(t, p)
  {
    if |s| == 0 {
      assert s + t == t;
    } else {
      assert (s + t)[0] == s[0];
      assert (s + t)[1..] == s[1..] + t;
      FilterAppend(s[1..], t, p);
    }
  }

  /** A filter that keeps every element is the identity. */
  lemma {:induction false} FilterAll<T>(s: seq<T>, p: T -> bool)
    requires forall i :: 0 <= i < |s| ==> p(s[i])
    ensures Filter(s, p) == s
  {
    if |s| > 0 {
      FilterAll(s[1..], p);
    }
  }

  /** `f` applied to every element, in order (`Array.prototype.map`). */
  function Map<T, U>(s: seq<T>, f: T -> U): (r: seq<U>)
    ensures |r| == |s|
    ensures forall i :: 0 <= i < |s| ==> r[i] == f(s[i])
  {
    if |s| == 0 then [] else [f(s[0])] + Map(s[1..], f)
  }

  /** Pairs up two sequences of equal length, index by index. */
  function Zip<A, B>(a: seq<A>, b: seq<B>): (r: seq<(A, B)>)
    requires |a| == |b|
    ensures |r| == |a|
    ensures forall i :: 0 <= i < |a| ==> r[i] == (a[i], b[i])
  {
    if |a| == 0 then [] else [(a[0], b[0])] + Zip(a[1..], b[1..])
  }

  function Fst<A, B>(p: (A, B)): A { p.0 }
  function Snd<A, B>(p: (A, B)): B { p.1 }

  /** The predicate `p` read through `key`. */
  function On<T, K>(key: T -> K, p: K -> bool): T -> bool
  {
    x => p(key(x))
  }

  /** Filtering on a key and then projecting equals projecting and then filtering the keys. */
  lemma {:induction false} MapFilterOn<T, K>(s: seq<T>, key: T -> K, p: K -> bool)
    ensures Map(Filter(s, On(key, p)), key) == Filter(Map(s, key), p)
  {
    if |s| > 0 {
      MapFilterOn(s[1..], key, p);
      assert Map(s, key)[1..] == Map(s[1..], key);
    }
  }

  /** No element occurs twice. */
  predicate Distinct<T(==)>(s: seq<T>)
  {
    forall i, j :: 0 <= i < j < |s| ==> s[i] != s[j]
  }

  /** Filtering keeps a sequence free of duplicates. */
  lemma {:induction false} FilterDistinct<T>(s: seq<T>, p: T -> bool)
    requires Distinct(s)
    ensures Distinct(Filter(s, p))
  {
    if |s| > 0 {
      FilterDistinct(s[1..], p);
      assert s[0] !in s[1..];
      assert s[0] !in Filter(s[1..], p);
    }
  }

  /** The number of elements of `s` that satisfy `p`. */
  function Count<T>(s: seq<T>, p: T -> bool): nat
  {
    |Filter(s, p)|
  }

  /** Counting over a sequence extended by one element. */
  lemma CountSnoc<T>(s: seq<T>, p: T -> bool)
    requires |s| > 0
    ensures Count(s, p) == Count(s[..|s| - 1], p) + (if p(s[|s| - 1]) then 1 else 0)
  {
    var init, last := s[..|s| - 1], s[|s| - 1];
    assert s == init + [last];
    FilterAppend(init, [last], p);
    assert Filter([last], p) == Filter([], p) + (if p(last) then [last] else []);
  }

  /** The positions of `s` whose element satisfies `p`. */
  function Positions<T>(s: seq<T>, p: T -> bool): set<int>
  {
    set i | 0 <= i < |s| && p(s[i])
  }

  /** The positions of a non-empty sequence: those of its front, and the last one when it qualifies. */
  lemma PositionsSnoc<T>(s: seq<T>, p: T -> bool)
    requires |s| > 0
    ensures Positions(s, p) == Positions(s[..|s| - 1], p) + (if p(s[|s| - 1]) then {|s| - 1} else {})
    ensures |s| - 1 !in Positions(s[..|s| - 1], p)
  {
    var init := s[..|s| - 1];
    forall i | i in Positions(s, p) && i < |s| - 1
      ensures i in Positions(init, p)
    {
      assert init[i] == s[i];
    }
  }

  /** The count is the number of positions whose element satisfies `p`. */
  lemma {:induction false} CountIsIndices<T>(s: seq<T>, p: T -> bool)
    ensures Count(s, p) == |Positions(s, p)|
    decreases |s|
  {
    if |s| > 0 {
      CountSnoc(s, p);
      CountIsIndices(s[..|s| - 1], p);
      PositionsSnoc(s, p);
    }
  }

  /** Index of the first element of `s` satisfying `p` (`Array.prototype.findIndex`), if any. */
  function FindIndex<T>(s: seq<T>, p: T -> bool): (r: Option<nat>)
    ensures r.Some? ==> r.value < |s| && p(s[r.value])
    ensures r.Some? ==> forall j :: 0 <= j < r.value ==> !p(s[j])
    ensures r.None? <==> forall j :: 0 <= j < |s| ==> !p(s[j])
  {
    if |s| == 0 then None
    else if p(s[0]) then Some(0)
    else
      match FindIndex(s[1..], p)
      case None => None
      case Some(k) => Some(k + 1)
  }

  /** The first element of `s` satisfying `p` (`Array.prototype.find`), if any. */
  function Find<T>(s: seq<T>, p: T -> bool): (r: Option<T>)
    ensures r.Some? ==> exists i :: 0 <= i < |s| && s[i] == r.value && p(s[i]) && forall j :: 0 <= j < i ==> !p(s[j])
    ensures r.None? <==> forall j :: 0 <= j < |s| ==> !p(s[j])
  {
    match FindIndex(s, p)
    case None => None
    case Some(i) => Some(s[i])
  }

  /** Both predicates hold. */
  function Both<T>(p: T -> bool, q: T -> bool): T -> bool
  {
    x => p(x) && q(x)
  }

  /** Searching a non-empty sequence looks at its first element, then at the rest. */
  lemma FindCons<T>(s: seq<T>, p: T -> bool)
    requires |s| > 0
    ensures Find(s, p) == if p(s[0]) then Some(s[0]) else Find(s[1..], p)
  {
    if !p(s[0]) {
      match FindIndex(s[1..], p)
      case None =>
      case Some(k) => assert s[k + 1] == s[1..][k];
    }
  }

  /** Finding among the elements that pass a filter is finding the first element that passes both. */
  lemma {:induction false} FindFiltered<T>(s: seq<T>, p: T -> bool, q: T -> bool)
    ensures Find(Filter(s, p), q) == Find(s, Both(p, q))
  {
    if |s| > 0 {
      FindFiltered(s[1..], p, q);
      FindCons(s, Both(p, q));
      if p(s[0]) {
        var t := [s[0]] + Filter(s[1..], p);
        assert t[1..] == Filter(s[1..], p);
        FindCons(t, q);
      }
    }
  }

  /** Sum of a sequence of integers. */
  function Sum(s: seq<int>): int
  {
    if |s| == 0 then 0 else s[0] + Sum(s[1..])
  }

  /** Sums distribute over concatenation. */
  lemma {:induction false} SumAppend(s: seq<int>, t: seq<int>)
    ensures Sum(s + t) == Sum(s) + Sum(t)
  {
    if |s| == 0 {
      assert s + t == t;
    } else {
      assert (s + t)[1..] == s[1..] + t;
      SumAppend(s[1..], t);
    }
  }
}
