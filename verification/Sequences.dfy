/** Order-preserving filters and maps over sequences: the row-level vocabulary of a data frame. */
module Sequences {

  /** The elements of `s` that satisfy `p`, in order. */
  function Filter<T>(s: seq<T>, p: T -> bool): (r: seq<T>)
    ensures |r| <= |s|
  {
    if s == [] then []
    else
      var last := s[|s| - 1];
      Filter(s[..|s| - 1], p) + (if p(last) then [last] else [])
  }

  lemma {:induction false} FilterIn<T(!new)>(s: seq<T>, p: T -> bool)
    ensures forall x :: x in Filter(s, p) <==> x in s && p(x)
  {
    if s != [] {
      var n := |s| - 1;
      FilterIn(s[..n], p);
      assert s == s[..n] + [s[n]];
      forall x ensures x in Filter(s, p) <==> x in s && p(x) {
        assert x in s <==> x in s[..n] || x == s[n];
      }
    }
  }

  function Map<T, U>(s: seq<T>, f: T -> U): (r: seq<U>)
    ensures |r| == |s|
    ensures forall i :: 0 <= i < |s| ==> r[i] == f(s[i])
  {
    seq(|s|, i requires 0 <= i < |s| => f(s[i]))
  }

  lemma MapSnoc<T, U>(s: seq<T>, i: nat, f: T -> U)
    requires i < |s|
    ensures Map(s[..i + 1], f) == Map(s[..i], f) + [f(s[i])]
    ensures Map(s[..i + 1], f)[..i] == Map(s[..i], f)
  {
  }

  lemma MapConcat<T, U>(a: seq<T>, b: seq<T>, f: T -> U)
    ensures Map(a + b, f) == Map(a, f) + Map(b, f)
  {
  }

  lemma MapOne<T, U>(x: T, f: T -> U)
    ensures Map([x], f) == [f(x)]
  {
  }

  lemma MapCons<T, U>(s: seq<T>, f: T -> U)
    requires s != []
    ensures Map(s, f) == [f(s[0])] + Map(s[1..], f)
    ensures Map(s, f)[1..] == Map(s[1..], f)
  {
  }

  predicate Distinct<T(==)>(s: seq<T>) {
    forall i, j :: 0 <= i < j < |s| ==> s[i] != s[j]
  }

  /** Positions in order, none twice. */
  predicate Increasing(ps: seq<nat>) {
    forall a, b :: 0 <= a < b < |ps| ==> ps[a] < ps[b]
  }

  lemma IncreasingSnoc(ps: seq<nat>, p: nat)
    requires Increasing(ps) && forall k :: 0 <= k < |ps| ==> ps[k] < p
    ensures Increasing(ps + [p])
  {
  }

  lemma NoneIncreasing()
    ensures Increasing([])
  {
  }

  /** The elements at the given positions. */
  function Pick<T>(s: seq<T>, ks: seq<nat>): (r: seq<T>)
    requires forall m :: 0 <= m < |ks| ==> ks[m] < |s|
    ensures |r| == |ks|
    ensures forall m :: 0 <= m < |ks| ==> r[m] == s[ks[m]]
  {
    seq(|ks|, m requires 0 <= m < |ks| => s[ks[m]])
  }

  /** `ks` lists, in order, exactly the positions whose elements satisfy the test. */
  ghost predicate Lists<T(!new)>(s: seq<T>, p: T -> bool, ks: seq<nat>) {
    && Increasing(ks)
    && (forall m :: 0 <= m < |ks| ==> ks[m] < |s|)
    && (forall k: nat :: k in ks <==> k < |s| && p(s[k]))
  }

  lemma ListsSnoc<T(!new)>(s: seq<T>, x: T, p: T -> bool, ks: seq<nat>)
    requires Lists(s, p, ks)
    ensures
      var more := if p(x) then ks + [|s|] else ks;
      Lists(s + [x], p, more) && Pick(s + [x], more) == Pick(s, ks) + (if p(x) then [x] else [])
  {
    IncreasingSnoc(ks, |s|);
    hide Increasing;
    var more := if p(x) then ks + [|s|] else ks;
    forall k: nat ensures k in more <==> k < |s| + 1 && p((s + [x])[k]) {
      if k < |s| {
        assert (s + [x])[k] == s[k];
      }
    }
    assert Pick(s + [x], more) == Pick(s, ks) + (if p(x) then [x] else []);
  }

  lemma ListsNothing<T(!new)>(p: T -> bool)
    ensures Lists([], p, [])
  {
  }

  /** A filter keeps exactly the elements at those positions. */
  lemma {:induction false} FilterLists<T(!new)>(s: seq<T>, p: T -> bool) returns (ks: seq<nat>)
    ensures Lists(s, p, ks) && Filter(s, p) == Pick(s, ks)
  {
    if s == [] {
      ks := [];
      ListsNothing(p);
    } else {
      var front, last := s[..|s| - 1], s[|s| - 1];
      var before := FilterLists(front, p);
      hide Lists, Filter;
      assert s == front + [last];
      FilterSnoc(front, last, p);
      ListsSnoc(front, last, p, before);
      ks := if p(last) then before + [|front|] else before;
    }
  }

  lemma FilterSnoc<T(!new)>(s: seq<T>, x: T, p: T -> bool)
    ensures Filter(s + [x], p) == Filter(s, p) + (if p(x) then [x] else [])
  {
    assert (s + [x])[..|s|] == s;
  }

  lemma FilterSingleton<T(!new)>(x: T, p: T -> bool)
    ensures Filter([x], p) == if p(x) then [x] else []
  {
    FilterSnoc([], x, p);
    assert [] + [x] == [x];
  }

  lemma Regroup<T>(a: seq<T>, b: seq<T>, c: seq<T>)
    ensures a + (b + c) == a + b + c
  {
  }

  lemma {:induction false} FilterConcat<T(!new)>(a: seq<T>, b: seq<T>, p: T -> bool)
    ensures Filter(a + b, p) == Filter(a, p) + Filter(b, p)
  {
    if b == [] {
      assert a + b == a;
    } else {
      hide Filter;
      var front, last := b[..|b| - 1], b[|b| - 1];
      assert b == front + [last];
      FilterConcat(a, front, p);
      FilterSnoc(front, last, p);
      FilterSnoc(a + front, last, p);
      Regroup(a, front, [last]);
      Regroup(Filter(a, p), Filter(front, p), if p(last) then [last] else []);
    }
  }

  lemma {:induction false} FilterSame<T(!new)>(s: seq<T>, p: T -> bool, q: T -> bool)
    requires forall x :: x in s ==> p(x) == q(x)
    ensures Filter(s, p) == Filter(s, q)
  {
    if s != [] {
      FilterSame(s[..|s| - 1], p, q);
    }
  }

  lemma {:induction false} FilterNone<T(!new)>(s: seq<T>, p: T -> bool)
    requires forall x :: x in s ==> !p(x)
    ensures Filter(s, p) == []
  {
    if s != [] {
      FilterNone(s[..|s| - 1], p);
    }
  }

  lemma {:induction false} FilterAll<T(!new)>(s: seq<T>, p: T -> bool)
    requires forall x :: x in s ==> p(x)
    ensures Filter(s, p) == s
  {
    if s != [] {
      hide Filter;
      var front, last := s[..|s| - 1], s[|s| - 1];
      assert s == front + [last];
      FilterAll(front, p);
      FilterSnoc(front, last, p);
    }
  }

  function Both<T>(p: T -> bool, q: T -> bool): T -> bool {
    x => p(x) && q(x)
  }

  /** Filtering twice filters by the conjunction, so two filters commute. */
  lemma {:induction false} FilterFilter<T(!new)>(s: seq<T>, p: T -> bool, q: T -> bool)
    ensures Filter(Filter(s, p), q) == Filter(s, Both(p, q))
  {
    if s != [] {
      hide Filter;
      var front, last := s[..|s| - 1], s[|s| - 1];
      assert s == front + [last];
      FilterFilter(front, p, q);
      FilterSnoc(front, last, p);
      FilterSnoc(front, last, Both(p, q));
      if p(last) {
        FilterSnoc(Filter(front, p), last, q);
      } else {
        assert Filter(s, p) == Filter(front, p) && Filter(s, Both(p, q)) == Filter(front, Both(p, q));
      }
    }
  }

  lemma FilterCommute<T(!new)>(s: seq<T>, p: T -> bool, q: T -> bool)
    ensures Filter(Filter(s, p), q) == Filter(Filter(s, q), p)
  {
    FilterFilter(s, p, q);
    FilterFilter(s, q, p);
    FilterSame(s, Both(p, q), Both(q, p));
  }

  /** A filter that only one position satisfies keeps that one element. */
  lemma {:induction false} FilterOne<T(!new)>(s: seq<T>, p: T -> bool, i: nat)
    requires i < |s| && p(s[i])
    requires forall j :: 0 <= j < |s| && j != i ==> !p(s[j])
    ensures Filter(s, p) == [s[i]]
  {
    var n := |s| - 1;
    if i == n {
      FilterNone(s[..n], p);
    } else {
      FilterOne(s[..n], p, i);
    }
  }

  lemma {:induction false} FilterMap<T(!new), U(!new)>(s: seq<T>, f: T -> U, p: U -> bool, q: T -> bool)
    requires forall x :: x in s ==> q(x) == p(f(x))
    ensures Filter(Map(s, f), p) == Map(Filter(s, q), f)
  {
    hide Map;
    if s == [] {
      assert Map(s, f) == [] && Map(Filter(s, q), f) == [];
    } else {
      var n := |s| - 1;
      FilterMap(s[..n], f, p, q);
      assert s == s[..n] + [s[n]] && s[n] in s;
      MapConcat(s[..n], [s[n]], f);
      MapOne(s[n], f);
      FilterSnoc(Map(s[..n], f), f(s[n]), p);
      FilterSnoc(s[..n], s[n], q);
      MapConcat(Filter(s[..n], q), if q(s[n]) then [s[n]] else [], f);
      assert q(s[n]) == p(f(s[n]));
      assert Map([], f) == [];
    }
  }

  /** Permuting the input permutes what a filter keeps. */
  lemma {:induction false} FilterPermutation<T(!new)>(a: seq<T>, b: seq<T>, p: T -> bool)
    requires multiset(a) == multiset(b)
    ensures multiset(Filter(a, p)) == multiset(Filter(b, p))
  {
    forall x ensures multiset(Filter(a, p))[x] == multiset(Filter(b, p))[x] {
      FilterCount(a, p, x);
      FilterCount(b, p, x);
    }
  }

  lemma {:induction false} FilterCount<T(!new)>(s: seq<T>, p: T -> bool, x: T)
    ensures multiset(Filter(s, p))[x] == if p(x) then multiset(s)[x] else 0
  {
    if s != [] {
      var n := |s| - 1;
      FilterCount(s[..n], p, x);
      assert s == s[..n] + [s[n]];
    }
  }

  lemma FilterSplitsMultiset<T(!new)>(s: seq<T>, p: T -> bool, q: T -> bool)
    requires forall x :: x in s ==> q(x) == !p(x)
    ensures multiset(Filter(s, p)) + multiset(Filter(s, q)) == multiset(s)
    ensures |Filter(s, p)| + |Filter(s, q)| == |s|
  {
    var both := multiset(Filter(s, p)) + multiset(Filter(s, q));
    forall x ensures both[x] == multiset(s)[x] {
      FilterCount(s, p, x);
      FilterCount(s, q, x);
      assert x in s || multiset(s)[x] == 0;
    }
    assert both == multiset(s);
    assert |both| == |Filter(s, p)| + |Filter(s, q)| && |multiset(s)| == |s|;
  }

  /** Filtering keeps distinctness of whatever identifies the elements. */
  lemma {:induction false} FilterDistinct<T(!new), K>(s: seq<T>, p: T -> bool, id: T -> K)
    requires Distinct(Map(s, id))
    ensures Distinct(Map(Filter(s, p), id))
  {
    if s != [] {
      var n := |s| - 1;
      forall i, j | 0 <= i < j < n ensures Map(s[..n], id)[i] != Map(s[..n], id)[j] {
        assert Map(s, id)[i] != Map(s, id)[j];
      }
      FilterDistinct(s[..n], p, id);
      var r := Filter(s[..n], p);
      FilterIn(s[..n], p);
      forall i | 0 <= i < |r| ensures id(r[i]) != id(s[n]) {
        assert r[i] in s[..n];
        var j :| 0 <= j < n && s[j] == r[i];
        assert Map(s, id)[j] != Map(s, id)[n];
      }
      var m := Map(Filter(s, p), id);
      forall i, j | 0 <= i < j < |m| ensures m[i] != m[j] {
        if j < |r| {
          assert Map(r, id)[i] != Map(r, id)[j];
        }
      }
    }
  }

  /** Distinct sequences over the same set of elements have the same length. */
  lemma DistinctSameLength<T>(a: seq<T>, b: seq<T>)
    requires Distinct(a) && Distinct(b)
    requires forall x :: x in a <==> x in b
    ensures |a| == |b|
  {
    DistinctCardinality(a);
    DistinctCardinality(b);
    assert (set x | x in a) == (set x | x in b);
  }

  lemma {:induction false} DistinctCardinality<T>(s: seq<T>)
    requires Distinct(s)
    ensures |set x | x in s| == |s|
  {
    if s != [] {
      var n := |s| - 1;
      DistinctCardinality(s[..n]);
      assert s[n] !in s[..n];
      assert (set x | x in s) == (set x | x in s[..n]) + {s[n]} by {
        assert s == s[..n] + [s[n]];
      }
    }
  }

  lemma {:induction false} DistinctCounts<T(!new)>(s: seq<T>)
    ensures Distinct(s) <==> forall x :: multiset(s)[x] <= 1
  {
    if s != [] {
      var n := |s| - 1;
      var t := s[..n];
      DistinctCounts(t);
      assert s == t + [s[n]];
      assert forall x :: multiset(s)[x] == multiset(t)[x] + (if x == s[n] then 1 else 0);
      assert s[n] in t <==> multiset(t)[s[n]] >= 1;
      if forall x :: multiset(s)[x] <= 1 {
        assert forall x :: multiset(t)[x] <= multiset(s)[x];
        assert Distinct(t) && multiset(s)[s[n]] <= 1;
      }
      if Distinct(s) {
        assert Distinct(t);
        assert s[n] !in t;
      }
    }
  }

  lemma RemoveAt<T>(s: seq<T>, i: nat)
    requires i < |s|
    ensures multiset(s) == multiset(s[..i] + s[i + 1..]) + multiset{s[i]}
  {
    assert s == s[..i] + [s[i]] + s[i + 1..];
  }

  lemma MapRemoveAt<T, U>(s: seq<T>, i: nat, f: T -> U)
    requires i < |s|
    ensures multiset(Map(s, f)) == multiset(Map(s[..i] + s[i + 1..], f)) + multiset{f(s[i])}
  {
    var m := Map(s, f);
    RemoveAt(m, i);
    assert m[..i] + m[i + 1..] == Map(s[..i] + s[i + 1..], f);
  }

  lemma {:induction false} MapPermutation<T, U>(a: seq<T>, b: seq<T>, f: T -> U)
    requires multiset(a) == multiset(b)
    ensures multiset(Map(a, f)) == multiset(Map(b, f))
  {
    assert |multiset(a)| == |a| && |multiset(b)| == |b|;
    hide Map;
    if a != [] {
      assert a[0] in multiset(b);
      var i :| 0 <= i < |b| && b[i] == a[0];
      PermutationRest(a, b, i);
      MapPermutation(a[1..], b[..i] + b[i + 1..], f);
      MapHead(a, f);
      MapRemoveAt(b, i, f);
    } else {
      assert b == a;
    }
  }

  lemma MapHead<T, U>(a: seq<T>, f: T -> U)
    requires a != []
    ensures multiset(Map(a, f)) == multiset(Map(a[1..], f)) + multiset{f(a[0])}
  {
    MapRemoveAt(a, 0, f);
    assert a[..0] + a[0 + 1..] == a[1..];
  }

  lemma PermutationRest<T>(a: seq<T>, b: seq<T>, i: nat)
    requires multiset(a) == multiset(b) && a != [] && i < |b| && b[i] == a[0]
    ensures multiset(a[1..]) == multiset(b[..i] + b[i + 1..])
  {
    RemoveAt(a, 0);
    assert a[..0] + a[0 + 1..] == a[1..];
    RemoveAt(b, i);
    assert multiset(a[1..]) == multiset(a) - multiset{a[0]};
    assert multiset(b[..i] + b[i + 1..]) == multiset(b) - multiset{a[0]};
  }

  /** A permutation of rows with distinct identities has distinct identities. */
  lemma DistinctPermutation<T(!new), K(!new)>(a: seq<T>, b: seq<T>, id: T -> K)
    requires multiset(a) == multiset(b)
    requires Distinct(Map(a, id))
    ensures Distinct(Map(b, id))
  {
    MapPermutation(a, b, id);
    DistinctCounts(Map(a, id));
    DistinctCounts(Map(b, id));
  }

  lemma DistinctConcat<T>(a: seq<T>, b: seq<T>)
    requires Distinct(a) && Distinct(b)
    requires forall x :: x in a ==> x !in b
    ensures Distinct(a + b)
  {
    var s := a + b;
    forall i, j | 0 <= i < j < |s| ensures s[i] != s[j] {
      if i < |a| <= j {
        assert s[i] in a && s[j] in b;
      }
    }
  }

  /** A filter that can only keep the last element. */
  lemma FilterLast<T(!new)>(front: seq<T>, last: T, p: T -> bool)
    requires forall x :: x in front ==> !p(x)
    ensures Filter(front + [last], p) == if p(last) then [last] else []
  {
    FilterNone(front, p);
    FilterSnoc(front, last, p);
  }

  /** A filter that can only drop the last element. */
  lemma FilterButLast<T(!new)>(front: seq<T>, last: T, p: T -> bool)
    requires forall x :: x in front ==> p(x)
    ensures Filter(front + [last], p) == if p(last) then front + [last] else front
  {
    FilterAll(front, p);
    FilterSnoc(front, last, p);
  }

  /** Two kept positions are two kept elements. */
  lemma FilterTwo<T(!new)>(s: seq<T>, p: T -> bool, i: nat, j: nat)
    requires i < j < |s| && p(s[i]) && p(s[j])
    ensures |Filter(s, p)| >= 2
  {
    FilterConcat(s[..j], s[j..], p);
    assert s == s[..j] + s[j..];
    FilterIn(s[..j], p);
    FilterIn(s[j..], p);
    assert s[..j][i] in Filter(s[..j], p) && s[j..][0] in Filter(s[j..], p);
  }
}
