/** Lexicographic order (Python compares strings and tuples this way) and the stable sort. */
module Ordering {
  import opened Sequences

  ghost predicate TotalPreorder<T(!new)>(le: (T, T) -> bool) {
    && (forall a, b :: le(a, b) || le(b, a))
    && (forall a, b, c :: le(a, b) && le(b, c) ==> le(a, c))
  }

  ghost predicate TotalOrder<T(!new)>(le: (T, T) -> bool) {
    && TotalPreorder(le)
    && (forall a, b :: le(a, b) && le(b, a) ==> a == b)
  }

  predicate LexLe<T(==)>(le: (T, T) -> bool, a: seq<T>, b: seq<T>) {
    if a == [] then true
    else if b == [] then false
    else if a[0] == b[0] then LexLe(le, a[1..], b[1..])
    else le(a[0], b[0])
  }

  lemma {:induction false} LexTotal<T(!new)>(le: (T, T) -> bool, a: seq<T>, b: seq<T>)
    requires TotalOrder(le)
    ensures LexLe(le, a, b) || LexLe(le, b, a)
    ensures LexLe(le, a, b) && LexLe(le, b, a) ==> a == b
  {
    if a != [] && b != [] && a[0] == b[0] {
      LexTotal(le, a[1..], b[1..]);
      assert a == [a[0]] + a[1..] && b == [b[0]] + b[1..];
    }
  }

  lemma {:induction false} LexTransitive<T(!new)>(le: (T, T) -> bool, a: seq<T>, b: seq<T>, c: seq<T>)
    requires TotalOrder(le)
    requires LexLe(le, a, b) && LexLe(le, b, c)
    ensures LexLe(le, a, c)
  {
    if a != [] && b != [] && c != [] && a[0] == b[0] == c[0] {
      LexTransitive(le, a[1..], b[1..], c[1..]);
    }
  }

  lemma LexIsTotalOrder<T(!new)>(le: (T, T) -> bool)
    requires TotalOrder(le)
    ensures TotalOrder((a: seq<T>, b: seq<T>) => LexLe(le, a, b))
  {
    forall a: seq<T>, b: seq<T>
      ensures LexLe(le, a, b) || LexLe(le, b, a)
      ensures LexLe(le, a, b) && LexLe(le, b, a) ==> a == b
    {
      LexTotal(le, a, b);
    }
    forall a: seq<T>, b: seq<T>, c: seq<T> | LexLe(le, a, b) && LexLe(le, b, c)
      ensures LexLe(le, a, c)
    {
      LexTransitive(le, a, b, c);
    }
  }

  /** Equal-length prefixes decide the comparison unless they are equal. */
  lemma {:induction false} LexPrefix<T>(le: (T, T) -> bool, a: seq<T>, b: seq<T>, c: seq<T>, d: seq<T>)
    requires |a| == |b|
    ensures LexLe(le, a + c, b + d) == if a == b then LexLe(le, c, d) else LexLe(le, a, b)
  {
    if a == [] {
      assert a + c == c && b + d == d;
    } else {
      LexPrefix(le, a[1..], b[1..], c, d);
      assert (a + c)[1..] == a[1..] + c && (b + d)[1..] == b[1..] + d;
      assert a == [a[0]] + a[1..] && b == [b[0]] + b[1..];
    }
  }

  /** Stable insertion sort: an element goes before the ones it ties with. */
  function Insert<T>(le: (T, T) -> bool, x: T, s: seq<T>): (r: seq<T>)
    ensures multiset(r) == multiset{x} + multiset(s)
    ensures |r| == |s| + 1
  {
    if s == [] then [x]
    else if le(x, s[0]) then [x] + s
    else
      assert s == [s[0]] + s[1..];
      [s[0]] + Insert(le, x, s[1..])
  }

  function Sort<T>(le: (T, T) -> bool, s: seq<T>): (r: seq<T>)
    ensures multiset(r) == multiset(s)
    ensures |r| == |s|
  {
    if s == [] then []
    else
      assert s == [s[0]] + s[1..];
      Insert(le, s[0], Sort(le, s[1..]))
  }

  ghost predicate SortedBy<T>(le: (T, T) -> bool, s: seq<T>) {
    forall i, j :: 0 <= i < j < |s| ==> le(s[i], s[j])
  }

  lemma {:induction false} InsertSorted<T(!new)>(le: (T, T) -> bool, x: T, s: seq<T>)
    requires TotalPreorder(le) && SortedBy(le, s)
    ensures SortedBy(le, Insert(le, x, s))
  {
    if s != [] {
      if le(x, s[0]) {
        var r := [x] + s;
        forall i, j | 0 <= i < j < |r| ensures le(r[i], r[j]) {
          if i == 0 && j > 1 {
            assert le(s[0], s[j - 1]);
          }
        }
      } else {
        var t := Insert(le, x, s[1..]);
        InsertSorted(le, x, s[1..]);
        forall j | 0 <= j < |t| ensures le(s[0], t[j]) {
          assert t[j] in multiset(t);
          assert t[j] == x || t[j] in s[1..];
        }
        var r := [s[0]] + t;
        forall i, j | 0 <= i < j < |r| ensures le(r[i], r[j]) {
          if i > 0 {
            assert le(t[i - 1], t[j - 1]);
          }
        }
      }
    }
  }

  lemma {:induction false} SortSorts<T(!new)>(le: (T, T) -> bool, s: seq<T>)
    requires TotalPreorder(le)
    ensures SortedBy(le, Sort(le, s))
  {
    if s != [] {
      SortSorts(le, s[1..]);
      InsertSorted(le, s[0], Sort(le, s[1..]));
    }
  }

  lemma {:induction false} InsertMaps<T(!new), U(!new)>(
      le: (T, T) -> bool, le': (U, U) -> bool, x: T, s: seq<T>, f: T -> U)
    requires forall a :: a in s ==> le'(f(x), f(a)) == le(x, a)
    ensures Insert(le', f(x), Map(s, f)) == Map(Insert(le, x, s), f)
  {
    hide Map;
    if s == [] {
      assert Map(s, f) == [];
      MapCons([x], f);
    } else {
      assert s[0] in s;
      MapCons(s, f);
      InsertMaps(le, le', x, s[1..], f);
      MapCons(Insert(le, x, s), f);
      if le(x, s[0]) {
        assert ([x] + s)[1..] == s;
      } else {
        var rest := Insert(le, x, s[1..]);
        assert ([s[0]] + rest)[1..] == rest;
      }
    }
  }

  /** Sorting commutes with a map that preserves the order of the elements. */
  lemma {:induction false} SortMaps<T(!new), U(!new)>(
      le: (T, T) -> bool, le': (U, U) -> bool, s: seq<T>, f: T -> U)
    requires forall a, b :: a in s && b in s ==> le'(f(a), f(b)) == le(a, b)
    ensures Sort(le', Map(s, f)) == Map(Sort(le, s), f)
  {
    hide Map;
    if s == [] {
      assert Map(s, f) == [] && Map(Sort(le, s), f) == [];
    } else {
      MapCons(s, f);
      SortMaps(le, le', s[1..], f);
      forall a | a in Sort(le, s[1..]) ensures a in s {
        assert a in multiset(Sort(le, s[1..]));
        assert a in s[1..];
      }
      InsertMaps(le, le', s[0], Sort(le, s[1..]), f);
    }
  }

  ghost predicate TiesIdentical<T(!new)>(le: (T, T) -> bool, s: seq<T>) {
    forall x, y :: x in s && y in s && le(x, y) && le(y, x) ==> x == y
  }

  lemma SortedHeadsAgree<T(!new)>(le: (T, T) -> bool, a: seq<T>, b: seq<T>)
    requires a != [] && b != []
    requires SortedBy(le, a) && SortedBy(le, b)
    requires multiset(a) == multiset(b) && TiesIdentical(le, a)
    ensures a[0] == b[0]
  {
    assert a[0] in multiset(b) && b[0] in multiset(a);
    var i :| 0 <= i < |b| && b[i] == a[0];
    var j :| 0 <= j < |a| && a[j] == b[0];
  }

  /** Two sorted arrangements of one multiset are equal when ties are identical. */
  lemma {:induction false} SortedUnique<T(!new)>(le: (T, T) -> bool, a: seq<T>, b: seq<T>)
    requires SortedBy(le, a) && SortedBy(le, b)
    requires multiset(a) == multiset(b) && TiesIdentical(le, a)
    ensures a == b
  {
    hide SortedBy, TiesIdentical;
    assert |multiset(a)| == |a| && |multiset(b)| == |b|;
    if a != [] {
      SortedHeadsAgree(le, a, b);
      SortedTail(le, a);
      SortedTail(le, b);
      TiesOfTail(le, a);
      SortedUnique(le, a[1..], b[1..]);
      SameHeadAndTail(a, b);
    } else {
      assert b == [];
    }
  }

  lemma SameHeadAndTail<T>(a: seq<T>, b: seq<T>)
    requires a != [] && b != [] && a[0] == b[0] && a[1..] == b[1..]
    ensures a == b
  {
    assert a == [a[0]] + a[1..] && b == [b[0]] + b[1..];
  }

  lemma TiesOfTail<T(!new)>(le: (T, T) -> bool, s: seq<T>)
    requires TiesIdentical(le, s) && s != []
    ensures TiesIdentical(le, s[1..])
  {
  }

  lemma SortedTail<T>(le: (T, T) -> bool, s: seq<T>)
    requires SortedBy(le, s) && s != []
    ensures SortedBy(le, s[1..])
    ensures multiset(s[1..]) == multiset(s) - multiset{s[0]}
  {
    assert s == [s[0]] + s[1..];
  }

  /** Sorting forgets the input order when ties are identical. */
  lemma SortPermutation<T(!new)>(le: (T, T) -> bool, a: seq<T>, b: seq<T>)
    requires TotalPreorder(le)
    requires multiset(a) == multiset(b)
    requires forall x, y :: x in a && y in a && le(x, y) && le(y, x) ==> x == y
    ensures Sort(le, a) == Sort(le, b)
  {
    SortSorts(le, a);
    SortSorts(le, b);
    forall x | x in Sort(le, a) ensures x in a {
      assert x in multiset(Sort(le, a));
    }
    SortedUnique(le, Sort(le, a), Sort(le, b));
  }
}
