/** Laws of one merge: row accounting, insensitivity to row order, idempotence, and PII tokenisation. */
module Scd2Laws {
  import opened Wrappers
  import opened Sequences
  import opened Ordering
  import opened Frames
  import opened Scd2
  import opened Scd2History
  import opened Scd2Runs

  // ----- Row accounting -----

  /** Lost: a current version whose key the batch does not mention. */
  function Absent(spec: MergeSpec, rows: seq<Row>): Version -> bool {
    (v: Version) => v.current && Incoming(spec, rows, KeyOf(spec, v.row)).None?
  }

  lemma CurrentFound(spec: MergeSpec, dim: seq<Version>, v: Version)
    requires Distinct(Map(Current(dim), VersionKeyOf(spec)))
    requires v in Current(dim)
    ensures CurrentFor(spec, dim, KeyOf(spec, v.row)) == Some(v)
  {
    hide Filter, FindVersion;
    var current := Current(dim);
    var i :| 0 <= i < |current| && current[i] == v;
    var j := FindVersion(spec, current, KeyOf(spec, v.row));
    var keys := Map(current, VersionKeyOf(spec));
    assert keys[i] == keys[j];
  }

  lemma CurrentForFound(spec: MergeSpec, dim: seq<Version>, k: seq<Value>)
    ensures
      var v := CurrentFor(spec, dim, k);
      v.Some? ==> v.value in Current(dim) && KeyOf(spec, v.value.row) == k
  {
    hide FindVersion, Current;
  }

  ghost predicate HasRow(spec: MergeSpec, rows: seq<Row>, k: seq<Value>) {
    exists r :: r in rows && KeyOf(spec, r) == k
  }

  ghost predicate HasVersion(spec: MergeSpec, vs: seq<Version>, k: seq<Value>) {
    exists v :: v in vs && KeyOf(spec, v.row) == k
  }

  /** Versions and rows that are keyed alike, each key once, are equally many. */
  lemma MatchedByKey(spec: MergeSpec, vs: seq<Version>, rows: seq<Row>)
    requires Distinct(Map(vs, VersionKeyOf(spec))) && KeyUnique(spec.naturalKey, rows)
    requires forall v :: v in vs ==> HasRow(spec, rows, KeyOf(spec, v.row))
    requires forall r :: r in rows ==> HasVersion(spec, vs, KeyOf(spec, r))
    ensures |vs| == |rows|
  {
    var a, b := Map(vs, VersionKeyOf(spec)), Map(rows, ProjectOf(spec.naturalKey));
    hide Distinct;
    forall k | k in a ensures k in b {
      var i :| 0 <= i < |a| && a[i] == k;
      assert vs[i] in vs;
      var r :| r in rows && KeyOf(spec, r) == k;
      var j :| 0 <= j < |rows| && rows[j] == r;
      assert b[j] == k;
    }
    forall k | k in b ensures k in a {
      var j :| 0 <= j < |b| && b[j] == k;
      assert rows[j] in rows;
      var v :| v in vs && KeyOf(spec, v.row) == k;
      var i :| 0 <= i < |vs| && vs[i] == v;
      assert a[i] == k;
    }
    DistinctSameLength(a, b);
  }

  /** Superseded versions and revising rows are paired one to one by their key. */
  lemma SupersededMatchesRevising(spec: MergeSpec, dim: seq<Version>, rows: seq<Row>)
    requires WellKeyed(spec, dim, rows)
    ensures |Filter(dim, Superseded(spec, rows))| == |Filter(rows, Revises(spec, dim))|
  {
    hide Filter, FindVersion, FindRow, HashOf, KeyOf, Current, Distinct, CurrentFor, Incoming;
    var versions, matching := Filter(dim, Superseded(spec, rows)), Filter(rows, Revises(spec, dim));
    SupersededAmongCurrent(spec, dim, rows);
    FilterDistinct(Current(dim), Superseded(spec, rows), VersionKeyOf(spec));
    FilterDistinct(rows, Revises(spec, dim), ProjectOf(spec.naturalKey));
    FilterIn(dim, Superseded(spec, rows));
    FilterIn(rows, Revises(spec, dim));
    CurrentMembers(dim);
    forall v | v in versions ensures HasRow(spec, matching, KeyOf(spec, v.row)) {
      CurrentFound(spec, dim, v);
      IncomingFound(spec, rows, KeyOf(spec, v.row));
      var r := Incoming(spec, rows, KeyOf(spec, v.row)).value;
      assert r in matching;
    }
    forall r | r in matching ensures HasVersion(spec, versions, KeyOf(spec, r)) {
      SameKeySameRow(spec, rows, r);
      CurrentForFound(spec, dim, KeyOf(spec, r));
      var v := CurrentFor(spec, dim, KeyOf(spec, r)).value;
      assert v in versions;
    }
    MatchedByKey(spec, versions, matching);
  }

  lemma CurrentMembers(dim: seq<Version>)
    ensures forall v :: v in Current(dim) <==> v in dim && v.current
  {
    FilterIn(dim, IsCurrent());
  }

  lemma SupersededAmongCurrent(spec: MergeSpec, dim: seq<Version>, rows: seq<Row>)
    ensures Filter(Current(dim), Superseded(spec, rows)) == Filter(dim, Superseded(spec, rows))
    ensures Filter(Current(dim), Kept(spec, rows)) == Filter(dim, Kept(spec, rows))
  {
    hide Filter, FindRow, HashOf;
    FilterFilter(dim, IsCurrent(), Superseded(spec, rows));
    FilterSame(dim, Both(IsCurrent(), Superseded(spec, rows)), Superseded(spec, rows));
    FilterFilter(dim, IsCurrent(), Kept(spec, rows));
    FilterSame(dim, Both(IsCurrent(), Kept(spec, rows)), Kept(spec, rows));
  }

  /** Kept versions and repeating rows are paired one to one by their key. */
  lemma KeptMatchesRepeating(spec: MergeSpec, dim: seq<Version>, rows: seq<Row>)
    requires WellKeyed(spec, dim, rows)
    ensures |Filter(dim, Kept(spec, rows))| == |Filter(rows, Repeats(spec, dim))|
  {
    hide Filter, FindVersion, FindRow, HashOf, KeyOf, Current, Distinct, CurrentFor, Incoming;
    var versions, matching := Filter(dim, Kept(spec, rows)), Filter(rows, Repeats(spec, dim));
    SupersededAmongCurrent(spec, dim, rows);
    FilterDistinct(Current(dim), Kept(spec, rows), VersionKeyOf(spec));
    FilterDistinct(rows, Repeats(spec, dim), ProjectOf(spec.naturalKey));
    FilterIn(dim, Kept(spec, rows));
    FilterIn(rows, Repeats(spec, dim));
    CurrentMembers(dim);
    forall v | v in versions ensures HasRow(spec, matching, KeyOf(spec, v.row)) {
      CurrentFound(spec, dim, v);
      IncomingFound(spec, rows, KeyOf(spec, v.row));
      var r := Incoming(spec, rows, KeyOf(spec, v.row)).value;
      assert r in matching;
    }
    forall r | r in matching ensures HasVersion(spec, versions, KeyOf(spec, r)) {
      SameKeySameRow(spec, rows, r);
      CurrentForFound(spec, dim, KeyOf(spec, r));
      var v := CurrentFor(spec, dim, KeyOf(spec, r)).value;
      assert v in versions;
    }
    MatchedByKey(spec, versions, matching);
  }

  /** Every incoming row is new, changed or unchanged, and the statistics count them. */
  lemma IncomingAccounting(spec: MergeSpec, dim: seq<Version>, rows: seq<Row>, ts: Day)
    requires WellKeyed(spec, dim, rows)
    ensures
      var stats := MergeStats(spec, dim, rows, ts);
      stats.added + stats.changed + stats.same == |rows|
  {
    hide Filter, FindVersion, FindRow, HashOf, Merge, NextSk, ChangedPairs, UnchangedPairs, NewRows, Historical;
    ChangedRowsByKey(spec, dim, rows);
    UnchangedRowsByKey(spec, dim, rows);
    NewRowsByKey(spec, dim, rows);
    SplitIncoming(spec, dim, rows);
  }

  lemma SplitIncoming(spec: MergeSpec, dim: seq<Version>, rows: seq<Row>)
    ensures |Filter(rows, Introduces(spec, dim))| + |Filter(rows, Revises(spec, dim))|
      + |Filter(rows, Repeats(spec, dim))| == |rows|
  {
    hide Filter, FindVersion, HashOf;
    var known := (r: Row) => !Introduces(spec, dim)(r);
    var inBatch := Filter(rows, known);
    FilterSplitsMultiset(rows, Introduces(spec, dim), known);
    FilterIn(rows, known);
    FilterSplitsMultiset(inBatch, Revises(spec, dim), Repeats(spec, dim));
    FilterFilter(rows, known, Revises(spec, dim));
    FilterFilter(rows, known, Repeats(spec, dim));
    FilterSame(rows, Both(known, Revises(spec, dim)), Revises(spec, dim));
    FilterSame(rows, Both(known, Repeats(spec, dim)), Repeats(spec, dim));
  }

  /** Every existing row is historical, kept, superseded or absent. */
  lemma ExistingAccounting(spec: MergeSpec, dim: seq<Version>, rows: seq<Row>)
    ensures multiset(Filter(dim, IsHistorical())) + multiset(Filter(dim, Kept(spec, rows)))
      + multiset(Filter(dim, Superseded(spec, rows))) + multiset(Filter(dim, Absent(spec, rows))) == multiset(dim)
  {
    hide Filter, FindRow, HashOf;
    var mentioned := (v: Version) => v.current && !Absent(spec, rows)(v);
    var m := Filter(dim, mentioned);
    var current := Current(dim);
    FilterSplitsMultiset(dim, IsHistorical(), IsCurrent());
    CurrentMembers(dim);
    FilterSplitsMultiset(current, mentioned, Absent(spec, rows));
    FilterFilter(dim, IsCurrent(), mentioned);
    FilterSame(dim, Both(IsCurrent(), mentioned), mentioned);
    FilterFilter(dim, IsCurrent(), Absent(spec, rows));
    FilterSame(dim, Both(IsCurrent(), Absent(spec, rows)), Absent(spec, rows));
    SplitMentioned(spec, dim, rows, mentioned);
  }

  lemma SplitMentioned(spec: MergeSpec, dim: seq<Version>, rows: seq<Row>, mentioned: Version -> bool)
    requires forall v :: mentioned(v) <==> v.current && !Absent(spec, rows)(v)
    ensures multiset(Filter(dim, Kept(spec, rows))) + multiset(Filter(dim, Superseded(spec, rows)))
      == multiset(Filter(dim, mentioned))
  {
    hide Filter, FindRow, HashOf;
    FilterIn(dim, mentioned);
    FilterSplitsMultiset(Filter(dim, mentioned), Kept(spec, rows), Superseded(spec, rows));
    FilterFilter(dim, mentioned, Kept(spec, rows));
    FilterSame(dim, Both(mentioned, Kept(spec, rows)), Kept(spec, rows));
    FilterFilter(dim, mentioned, Superseded(spec, rows));
    FilterSame(dim, Both(mentioned, Superseded(spec, rows)), Superseded(spec, rows));
  }

  /**
   * Row accounting of the output: historical and kept versions as they were, superseded ones closed,
   * then the new versions; changed keys appear twice. The only old rows missing are the absent ones.
   */
  lemma OutputAccounting(spec: MergeSpec, dim: seq<Version>, rows: seq<Row>, ts: Day)
    requires WellKeyed(spec, dim, rows)
    requires !NoOutput(dim, rows)
    ensures
      var parts := JoinParts(spec, dim, rows, ts);
      var stats := MergeStats(spec, dim, rows, ts);
      var superseded := Filter(dim, Superseded(spec, rows));
      && Merge(spec, dim, rows, ts) == parts.All()
      && stats.total == stats.historical + stats.same + 2 * stats.changed + stats.added
      && parts.closed == Map(superseded, CloseAt(ts))
      && multiset(parts.historical) + multiset(parts.kept) + multiset(superseded)
        + multiset(Filter(dim, Absent(spec, rows))) == multiset(dim)
  {
    hide Filter, FindVersion, FindRow, HashOf, Merge, NextSk, ChangedPairs, UnchangedPairs, NewRows, Historical;
    JoinsImplementCategories(spec, dim, rows, ts);
    OutputEmptyIff(spec, dim, rows, ts);
    SupersededMatchesRevising(spec, dim, rows);
    KeptMatchesRepeating(spec, dim, rows);
    ChangedRowsByKey(spec, dim, rows);
    UnchangedRowsByKey(spec, dim, rows);
    NewRowsByKey(spec, dim, rows);
    HistoricalIsNotCurrent(dim);
    ExistingAccounting(spec, dim, rows);
  }

  ghost predicate HasHistory(dim: seq<Version>) {
    exists v :: v in dim && !v.current
  }

  ghost predicate SomeRevises(spec: MergeSpec, dim: seq<Version>, rows: seq<Row>) {
    exists r :: r in rows && Revises(spec, dim)(r)
  }

  lemma EmptyFilterIff<T(!new)>(s: seq<T>, p: T -> bool)
    ensures Filter(s, p) != [] <==> exists x :: x in s && p(x)
  {
    FilterIn(s, p);
    if Filter(s, p) != [] {
      assert Filter(s, p)[0] in Filter(s, p);
    }
  }

  /**
   * The size of the output, decided before the merge: it has another number of versions than the batch has
   * rows exactly when there is history, or a row revises a version, or an empty batch meets a dimension.
   */
  lemma OutputSizeIff(spec: MergeSpec, dim: seq<Version>, rows: seq<Row>, ts: Day)
    requires WellKeyed(spec, dim, rows)
    ensures |Merge(spec, dim, rows, ts)| != |rows| <==>
      HasHistory(dim) || SomeRevises(spec, dim, rows) || (rows == [] && dim != [])
  {
    hide Filter, Merge, Revises, ChangedPairs, UnchangedPairs, NewRows, Historical, JoinParts;
    EmptyFilterIff(dim, IsHistorical());
    EmptyFilterIff(rows, Revises(spec, dim));
    HistoricalIsNotCurrent(dim);
    ChangedRowsByKey(spec, dim, rows);
    IncomingAccounting(spec, dim, rows, ts);
    if NoOutput(dim, rows) {
      NoOutputKeeps(spec, dim, rows, ts);
    } else {
      OutputAccounting(spec, dim, rows, ts);
    }
  }

  // ----- Row order -----

  lemma IncomingPermutation(spec: MergeSpec, a: seq<Row>, b: seq<Row>, k: seq<Value>)
    requires multiset(a) == multiset(b)
    requires KeyUnique(spec.naturalKey, a) && KeyUnique(spec.naturalKey, b)
    ensures Incoming(spec, a, k) == Incoming(spec, b, k)
  {
    hide FindRow;
    var x, y := Incoming(spec, a, k), Incoming(spec, b, k);
    if x.Some? {
      assert x.value in multiset(b);
      SameKeySameRow(spec, b, x.value);
    } else if y.Some? {
      assert y.value in multiset(a);
      SameKeySameRow(spec, a, y.value);
    }
  }

  lemma NewVersionsPermutation(spec: MergeSpec, a: seq<Row>, b: seq<Row>, ts: Day, start: int)
    requires multiset(a) == multiset(b)
    requires KeyUnique(spec.naturalKey, a)
    ensures NewVersions(spec, a, ts, start) == NewVersions(spec, b, ts, start)
  {
    hide Sort, KeyLe;
    var le := RowLe(spec.naturalKey);
    RowLeIsTotalPreorder(spec.naturalKey);
    KeyLeIsTotalOrder();
    forall x, y | x in a && y in a && le(x, y) && le(y, x) ensures x == y {
      assert KeyLe(KeyOf(spec, x), KeyOf(spec, y)) && KeyLe(KeyOf(spec, y), KeyOf(spec, x));
      SameKeySameRow(spec, a, x);
      SameKeySameRow(spec, a, y);
    }
    SortPermutation(le, a, b);
  }

  /** The order of the incoming rows is irrelevant: same versions, same surrogate keys, same row order. */
  lemma MergeIgnoresRowOrder(spec: MergeSpec, dim: seq<Version>, a: seq<Row>, b: seq<Row>, ts: Day)
    requires WellKeyed(spec, dim, a)
    requires multiset(a) == multiset(b)
    ensures Merge(spec, dim, a, ts) == Merge(spec, dim, b, ts)
    ensures MergeStats(spec, dim, a, ts) == MergeStats(spec, dim, b, ts)
  {
    hide Filter, FindVersion, FindRow, HashOf, Merge, NextSk, NewVersions, Revises, Introduces, Current,
      ChangedPairs, UnchangedPairs, NewRows, Historical, JoinParts;
    DistinctPermutation(a, b, ProjectOf(spec.naturalKey));
    JoinsImplementCategories(spec, dim, a, ts);
    JoinsImplementCategories(spec, dim, b, ts);
    OldPartsPermutation(spec, dim, a, b);
    NewPartsPermutation(spec, dim, a, b, ts, NextSk(dim), NextSk(dim) + |Filter(a, Revises(spec, dim))|);
    StatsPermutation(spec, dim, a, b);
  }

  lemma OldPartsPermutation(spec: MergeSpec, dim: seq<Version>, a: seq<Row>, b: seq<Row>)
    requires multiset(a) == multiset(b)
    requires KeyUnique(spec.naturalKey, a) && KeyUnique(spec.naturalKey, b)
    ensures Filter(dim, Kept(spec, a)) == Filter(dim, Kept(spec, b))
    ensures Filter(dim, Superseded(spec, a)) == Filter(dim, Superseded(spec, b))
  {
    hide Filter, FindRow, HashOf;
    forall v | v in dim
      ensures Kept(spec, a)(v) == Kept(spec, b)(v) && Superseded(spec, a)(v) == Superseded(spec, b)(v)
    {
      IncomingPermutation(spec, a, b, KeyOf(spec, v.row));
    }
    FilterSame(dim, Kept(spec, a), Kept(spec, b));
    FilterSame(dim, Superseded(spec, a), Superseded(spec, b));
  }

  lemma NewPartsPermutation(
      spec: MergeSpec, dim: seq<Version>, a: seq<Row>, b: seq<Row>, ts: Day, first: int, second: int)
    requires multiset(a) == multiset(b)
    requires KeyUnique(spec.naturalKey, a)
    ensures |Filter(a, Revises(spec, dim))| == |Filter(b, Revises(spec, dim))|
    ensures NewVersions(spec, Filter(a, Revises(spec, dim)), ts, first)
      == NewVersions(spec, Filter(b, Revises(spec, dim)), ts, first)
    ensures NewVersions(spec, Filter(a, Introduces(spec, dim)), ts, second)
      == NewVersions(spec, Filter(b, Introduces(spec, dim)), ts, second)
  {
    hide Filter, Revises, Introduces, NewVersions;
    FilterPermutation(a, b, Revises(spec, dim));
    FilterPermutation(a, b, Introduces(spec, dim));
    SameMultisetSameLength(Filter(a, Revises(spec, dim)), Filter(b, Revises(spec, dim)));
    FilterDistinct(a, Revises(spec, dim), ProjectOf(spec.naturalKey));
    FilterDistinct(a, Introduces(spec, dim), ProjectOf(spec.naturalKey));
    NewVersionsPermutation(spec, Filter(a, Revises(spec, dim)), Filter(b, Revises(spec, dim)), ts, first);
    NewVersionsPermutation(spec, Filter(a, Introduces(spec, dim)), Filter(b, Introduces(spec, dim)), ts, second);
  }

  lemma SameMultisetSameLength<T>(a: seq<T>, b: seq<T>)
    requires multiset(a) == multiset(b)
    ensures |a| == |b|
  {
    assert |multiset(a)| == |a| && |multiset(b)| == |b|;
  }

  lemma StatsPermutation(spec: MergeSpec, dim: seq<Version>, a: seq<Row>, b: seq<Row>)
    requires WellKeyed(spec, dim, a) && WellKeyed(spec, dim, b)
    requires multiset(a) == multiset(b)
    ensures |NewRows(spec, dim, a)| == |NewRows(spec, dim, b)|
    ensures |ChangedPairs(spec, dim, a)| == |ChangedPairs(spec, dim, b)|
    ensures |UnchangedPairs(spec, dim, a)| == |UnchangedPairs(spec, dim, b)|
  {
    hide Filter, Revises, Introduces, Repeats, NewRows, ChangedPairs, UnchangedPairs, Current;
    ChangedRowsByKey(spec, dim, a);
    ChangedRowsByKey(spec, dim, b);
    UnchangedRowsByKey(spec, dim, a);
    UnchangedRowsByKey(spec, dim, b);
    NewRowsByKey(spec, dim, a);
    NewRowsByKey(spec, dim, b);
    FilterPermutation(a, b, Revises(spec, dim));
    FilterPermutation(a, b, Introduces(spec, dim));
    FilterPermutation(a, b, Repeats(spec, dim));
    SameMultisetSameLength(Filter(a, Revises(spec, dim)), Filter(b, Revises(spec, dim)));
    SameMultisetSameLength(Filter(a, Introduces(spec, dim)), Filter(b, Introduces(spec, dim)));
    SameMultisetSameLength(Filter(a, Repeats(spec, dim)), Filter(b, Repeats(spec, dim)));
  }

  // ----- Idempotence -----

  /** After a merge, each incoming row has a current version with the same hash. */
  lemma MergedRowIsCurrent(spec: MergeSpec, dim: seq<Version>, rows: seq<Row>, clock: Day, ts: Day, r: Row)
    requires Valid(spec, dim, clock)
    requires KeyUnique(spec.naturalKey, rows)
    requires clock <= ts < FAR_FUTURE
    requires r in rows
    ensures Repeats(spec, Merge(spec, dim, rows, ts))(r)
  {
    hide Filter, FindRow, FindVersion, Merge, NextSk, HashOf, Ordered, CurrentFor;
    var once, k := Merge(spec, dim, rows, ts), KeyOf(spec, r);
    SameKeySameRow(spec, rows, r);
    MergeKeepsValid(spec, dim, rows, clock, ts);
    MergeOnKey(spec, dim, rows, clock, ts, k);
    CurrentForKey(spec, once, ts, k);
  }

  /** After a merge with some output, each current version's key is among the incoming rows, unchanged. */
  lemma MergedCurrentIsIncoming(
      spec: MergeSpec, dim: seq<Version>, rows: seq<Row>, clock: Day, ts: Day, v: Version)
    requires Valid(spec, dim, clock)
    requires KeyUnique(spec.naturalKey, rows)
    requires clock <= ts < FAR_FUTURE
    requires !NoOutput(dim, rows)
    requires v in Merge(spec, dim, rows, ts) && v.current
    ensures Kept(spec, rows)(v)
  {
    hide Filter, FindRow, FindVersion, Merge, NextSk, HashOf;
    var once, k := Merge(spec, dim, rows, ts), KeyOf(spec, v.row);
    MergeKeepsValid(spec, dim, rows, clock, ts);
    MergeOnKey(spec, dim, rows, clock, ts, k);
    FilterIn(once, HasKey(spec, k));
    var vs, after := Versions(spec, dim, k), Versions(spec, once, k);
    CurrentIsLast(after, ts, v);
    if Open(vs) {
      SplitLast(vs, clock);
    }
  }

  /** Merging the same rows again, at any later time, changes nothing: same versions, all rows unchanged. */
  lemma MergeIsIdempotent(spec: MergeSpec, dim: seq<Version>, rows: seq<Row>, clock: Day, ts: Day, again: Day)
    requires Valid(spec, dim, clock)
    requires KeyUnique(spec.naturalKey, rows)
    requires clock <= ts < FAR_FUTURE
    ensures
      var once := Merge(spec, dim, rows, ts);
      var stats := MergeStats(spec, once, rows, again);
      && multiset(Merge(spec, once, rows, again)) == multiset(once)
      && stats.added == 0 && stats.changed == 0 && stats.same == |rows|
  {
    hide Filter, FindVersion, FindRow, HashOf, Merge, NextSk, NewVersions, Revises, Introduces, Repeats, Kept,
      Superseded, Current, ChangedPairs, UnchangedPairs, NewRows, Historical, JoinParts, Valid;
    var once := Merge(spec, dim, rows, ts);
    MergeKeepsValid(spec, dim, rows, clock, ts);
    ValidIsWellKeyed(spec, once, ts, rows);
    JoinsImplementCategories(spec, once, rows, again);
    SecondMergeParts(spec, dim, rows, clock, ts);
    ChangedRowsByKey(spec, once, rows);
    UnchangedRowsByKey(spec, once, rows);
    NewRowsByKey(spec, once, rows);
    OutputEmptyIff(spec, once, rows, again);
    if !NoOutput(once, rows) {
      var parts := Categorise(spec, once, rows, again);
      assert parts.closed == [] && parts.revised == [] && parts.added == [];
      assert parts.All() == parts.historical + parts.kept;
    }
  }

  lemma SecondMergeParts(spec: MergeSpec, dim: seq<Version>, rows: seq<Row>, clock: Day, ts: Day)
    requires Valid(spec, dim, clock)
    requires KeyUnique(spec.naturalKey, rows)
    requires clock <= ts < FAR_FUTURE
    ensures
      var once := Merge(spec, dim, rows, ts);
      && Filter(rows, Revises(spec, once)) == []
      && Filter(rows, Introduces(spec, once)) == []
      && Filter(rows, Repeats(spec, once)) == rows
      && (!NoOutput(once, rows) ==>
        multiset(Filter(once, IsHistorical())) + multiset(Filter(once, Kept(spec, rows))) == multiset(once)
        && Filter(once, Superseded(spec, rows)) == [])
  {
    hide Filter, FindVersion, FindRow, HashOf, Merge, NextSk, Valid, CurrentFor;
    var once := Merge(spec, dim, rows, ts);
    forall r | r in rows ensures Repeats(spec, once)(r) {
      MergedRowIsCurrent(spec, dim, rows, clock, ts, r);
    }
    FilterAll(rows, Repeats(spec, once));
    FilterNone(rows, Revises(spec, once));
    FilterNone(rows, Introduces(spec, once));
    if !NoOutput(once, rows) {
      ValidIsWellKeyed(spec, dim, clock, rows);
      NoOutputKeeps(spec, dim, rows, ts);
      forall v | v in once ensures Kept(spec, rows)(v) == v.current && !Superseded(spec, rows)(v) {
        if v.current {
          MergedCurrentIsIncoming(spec, dim, rows, clock, ts, v);
        }
      }
      FilterSplitsMultiset(once, IsHistorical(), Kept(spec, rows));
      FilterNone(once, Superseded(spec, rows));
    }
  }

  lemma NoOutputKeeps(spec: MergeSpec, dim: seq<Version>, rows: seq<Row>, ts: Day)
    requires KeyUnique(spec.naturalKey, rows)
    ensures NoOutput(dim, rows) && WellKeyed(spec, dim, rows) ==> Merge(spec, dim, rows, ts) == dim
  {
    hide Filter, FindRow, HashOf, NextSk, NewVersions;
    OutputEmptyIff(spec, dim, rows, ts);
    if WellKeyed(spec, dim, rows) {
      JoinsImplementCategories(spec, dim, rows, ts);
    }
  }
}
