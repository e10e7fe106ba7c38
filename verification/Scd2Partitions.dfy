/**
 * The dimension as the runner reads it: every batch writes its merge as one more partition, and the next
 * batch reads all partitions, one after the other. From the third batch on that is several snapshots of the
 * same versions; this module says exactly when it still meets the merge's contract.
 */
module Scd2Partitions {
  import opened Sequences
  import opened Ordering
  import opened Frames
  import opened Scd2
  import opened Scd2History
  import opened Scd2Runs

  /** What a batch writes, given what it read. */
  function Partition(spec: MergeSpec, read: seq<Version>, b: Batch): seq<Version> {
    Merge(spec, read, b.rows, EffectiveDay(read, b.day))
  }

  /** All partitions on disk after the batches; an empty one is not written. */
  function Stored(spec: MergeSpec, batches: seq<Batch>): seq<Version> {
    if batches == [] then []
    else
      var n := |batches| - 1;
      var read := Stored(spec, batches[..n]);
      read + Partition(spec, read, batches[n])
  }

  // ----- Two snapshots read as one -----

  lemma DistinctParts<T>(a: seq<T>, b: seq<T>)
    requires Distinct(a + b)
    ensures Distinct(a) && Distinct(b) && forall x :: x in a ==> x !in b
  {
    var s := a + b;
    assert forall i :: 0 <= i < |a| ==> s[i] == a[i];
    assert forall i :: 0 <= i < |b| ==> s[|a| + i] == b[i];
    forall i, j | 0 <= i < |a| && 0 <= j < |b| ensures a[i] != b[j] {
      assert s[i] != s[|a| + j];
    }
  }

  lemma SharedImage<T, K>(a: seq<T>, b: seq<T>, f: T -> K)
    ensures (forall u :: u in Map(a, f) ==> u !in Map(b, f)) <==> forall x, y :: x in a && y in b ==> f(x) != f(y)
  {
    var fa, fb := Map(a, f), Map(b, f);
    forall x | x in a ensures f(x) in fa {
      var i :| 0 <= i < |a| && a[i] == x;
      assert fa[i] == f(x);
    }
    forall y | y in b ensures f(y) in fb {
      var i :| 0 <= i < |b| && b[i] == y;
      assert fb[i] == f(y);
    }
    forall u | u in fa && u in fb ensures exists x, y :: x in a && y in b && f(x) == f(y) {
      var i :| 0 <= i < |a| && fa[i] == u;
      var j :| 0 <= j < |b| && fb[j] == u;
      assert a[i] in a && b[j] in b;
    }
  }

  lemma DistinctMapConcatIff<T, K>(a: seq<T>, b: seq<T>, f: T -> K)
    ensures Distinct(Map(a + b, f)) <==>
      Distinct(Map(a, f)) && Distinct(Map(b, f)) && forall x, y :: x in a && y in b ==> f(x) != f(y)
  {
    var fa, fb := Map(a, f), Map(b, f);
    assert Map(a + b, f) == fa + fb;
    hide Distinct, Map;
    SharedImage(a, b, f);
    if Distinct(fa + fb) {
      DistinctParts(fa, fb);
    }
    if Distinct(fa) && Distinct(fb) && forall x, y :: x in a && y in b ==> f(x) != f(y) {
      DistinctConcat(fa, fb);
    }
  }

  predicate SharesSk(a: seq<Version>, b: seq<Version>) {
    exists v, w :: v in a && w in b && v.sk == w.sk
  }

  predicate SharesCurrentKey(spec: MergeSpec, a: seq<Version>, b: seq<Version>) {
    exists v, w :: v in a && w in b && v.current && w.current && KeyOf(spec, v.row) == KeyOf(spec, w.row)
  }

  /** Reading two partitions meets the merge's contract iff each does and they share no key of either kind. */
  lemma ConcatKeyedIff(spec: MergeSpec, a: seq<Version>, b: seq<Version>, rows: seq<Row>)
    ensures WellKeyed(spec, a + b, rows) <==>
      && WellKeyed(spec, a, rows) && WellKeyed(spec, b, rows)
      && !SharesSk(a, b) && !SharesCurrentKey(spec, a, b)
  {
    hide Filter, KeyUnique, KeyOf;
    FilterConcat(a, b, IsCurrent());
    FilterIn(a, IsCurrent());
    FilterIn(b, IsCurrent());
    DistinctMapConcatIff(a, b, SkOf());
    DistinctMapConcatIff(Current(a), Current(b), VersionKeyOf(spec));
  }

  // ----- Reading a merge together with what it was merged into -----

  /** The batch drops every version there is. */
  predicate DropsAll(spec: MergeSpec, dim: seq<Version>, rows: seq<Row>) {
    forall v :: v in dim ==> Dropped(spec, dim, rows, v)
  }

  lemma DroppedKeyIsGone(
      spec: MergeSpec, dim: seq<Version>, rows: seq<Row>, clock: Day, ts: Day, v: Version, w: Version)
    requires Valid(spec, dim, clock) && KeyUnique(spec.naturalKey, rows) && DropsAll(spec, dim, rows)
    requires v in dim && w in Merge(spec, dim, rows, ts)
    ensures KeyOf(spec, v.row) != KeyOf(spec, w.row)
  {
    hide Merge, Filter, NextSk, HashOf, FindRow, Ordered;
    var merged, k := Merge(spec, dim, rows, ts), KeyOf(spec, v.row);
    if KeyOf(spec, w.row) == k {
      FilterIn(dim, HasKey(spec, k));
      FilterIn(merged, HasKey(spec, k));
      SourcesOfKey(spec, dim, rows, clock, ts, k);
      assert Dropped(spec, dim, rows, v);
      assert w in Versions(spec, merged, k);
      var u :| u in Versions(spec, dim, k) && u.sk == w.sk;
      VersionSurvivesIff(spec, dim, rows, clock, ts, u);
      assert false;
    }
  }

  lemma SharesSkIff(spec: MergeSpec, dim: seq<Version>, rows: seq<Row>, clock: Day, ts: Day)
    requires Valid(spec, dim, clock) && KeyUnique(spec.naturalKey, rows)
    ensures SharesSk(dim, Merge(spec, dim, rows, ts)) <==> !DropsAll(spec, dim, rows)
  {
    hide Merge, Valid, Dropped;
    var merged := Merge(spec, dim, rows, ts);
    forall v | v in dim ensures Numbered(merged, v.sk) <==> !Dropped(spec, dim, rows, v) {
      VersionSurvivesIff(spec, dim, rows, clock, ts, v);
    }
    if !DropsAll(spec, dim, rows) {
      var v :| v in dim && !Dropped(spec, dim, rows, v);
      var w :| w in merged && w.sk == v.sk;
    }
  }

  /** The next read meets the merge's contract exactly when the batch dropped every version it had read. */
  lemma NextReadIsKeyedIff(spec: MergeSpec, dim: seq<Version>, rows: seq<Row>, clock: Day, ts: Day)
    requires Valid(spec, dim, clock) && KeyUnique(spec.naturalKey, rows) && clock <= ts < FAR_FUTURE
    ensures WellKeyed(spec, dim + Merge(spec, dim, rows, ts), []) <==> DropsAll(spec, dim, rows)
  {
    hide Merge, Valid, Dropped, DropsAll;
    var merged := Merge(spec, dim, rows, ts);
    NoRows(spec);
    ValidIsWellKeyed(spec, dim, clock, []);
    MergeKeepsValid(spec, dim, rows, clock, ts);
    ValidIsWellKeyed(spec, merged, ts, []);
    ConcatKeyedIff(spec, dim, merged, []);
    SharesSkIff(spec, dim, rows, clock, ts);
    if DropsAll(spec, dim, rows) {
      forall v, w | v in dim && w in merged ensures KeyOf(spec, v.row) != KeyOf(spec, w.row) {
        DroppedKeyIsGone(spec, dim, rows, clock, ts, v, w);
      }
    }
  }

  lemma NoRows(spec: MergeSpec)
    ensures KeyUnique(spec.naturalKey, [])
  {
  }

  /** Then it is even valid. */
  lemma NextReadIsValid(spec: MergeSpec, dim: seq<Version>, rows: seq<Row>, clock: Day, ts: Day)
    requires Valid(spec, dim, clock) && KeyUnique(spec.naturalKey, rows) && clock <= ts < FAR_FUTURE
    requires DropsAll(spec, dim, rows)
    ensures Valid(spec, dim + Merge(spec, dim, rows, ts), ts)
  {
    hide Merge, Ordered, Dropped, DropsAll, KeyOf;
    var merged := Merge(spec, dim, rows, ts);
    MergeKeepsValid(spec, dim, rows, clock, ts);
    NextReadIsKeyedIff(spec, dim, rows, clock, ts);
    forall k ensures Ordered(Versions(spec, dim + merged, k), ts) {
      VersionsConcat(spec, dim, merged, k);
      OrderedLater(Versions(spec, dim, k), clock, ts);
      FilterIn(dim, HasKey(spec, k));
      FilterIn(merged, HasKey(spec, k));
      var vs, ws := Versions(spec, dim, k), Versions(spec, merged, k);
      if vs != [] && ws != [] {
        assert vs[0] in vs && ws[0] in ws;
        DroppedKeyIsGone(spec, dim, rows, clock, ts, vs[0], ws[0]);
      }
      assert vs + ws == if vs == [] then ws else vs;
    }
  }

  lemma VersionsConcat(spec: MergeSpec, a: seq<Version>, b: seq<Version>, k: seq<Value>)
    ensures Versions(spec, a + b, k) == Versions(spec, a, k) + Versions(spec, b, k)
  {
    FilterConcat(a, b, HasKey(spec, k));
  }

  // ----- Whole runs -----

  lemma StoredSnoc(spec: MergeSpec, batches: seq<Batch>, i: nat)
    requires i < |batches|
    ensures
      var read := Stored(spec, batches[..i]);
      Stored(spec, batches[..i + 1]) ==
        read + Partition(spec, read, batches[i])
  {
    hide Merge;
    assert batches[..i + 1][..i] == batches[..i];
  }

  /** As long as every batch drops all it read, what is stored is valid. */
  lemma {:induction false} StoredIsValid(spec: MergeSpec, batches: seq<Batch>, i: nat)
    requires InOrder(spec, batches) && i <= |batches|
    requires forall j :: 0 <= j < i ==> DropsAll(spec, Stored(spec, batches[..j]), batches[j].rows)
    ensures Valid(spec, Stored(spec, batches[..i]), Clock(batches[..i]))
  {
    hide Merge, Valid, Stored, DropsAll, KeyUnique;
    if i == 0 {
      assert batches[..0] == [];
      StoredNothing(spec);
      EveryRunIsValid(spec, []);
    } else {
      StoredIsValid(spec, batches, i - 1);
      PrefixInOrder(spec, batches, i - 1);
      StoredSnoc(spec, batches, i - 1);
      var read, rows := Stored(spec, batches[..i - 1]), batches[i - 1].rows;
      var day := batches[i - 1].day;
      assert Clock(batches[..i]) == day;
      assert DropsAll(spec, read, rows);
      if read == [] {
        EveryRunIsValid(spec, []);
        NextReadIsValid(spec, read, rows, FAR_PAST, FAR_PAST);
        ValidLater(spec, Stored(spec, batches[..i]), FAR_PAST, day);
      } else {
        NextReadIsValid(spec, read, rows, Clock(batches[..i - 1]), day);
      }
    }
  }

  lemma StoredNothing(spec: MergeSpec)
    ensures Stored(spec, []) == [] && Run(spec, []) == []
  {
  }

  /**
   * Over whole runs: every read meets the merge's contract exactly when every batch drops all versions read
   * before it. Two batches with a player in common are enough to break it.
   */
  lemma StoredIsKeyedIff(spec: MergeSpec, batches: seq<Batch>)
    requires InOrder(spec, batches)
    ensures (forall i :: 0 <= i <= |batches| ==> WellKeyed(spec, Stored(spec, batches[..i]), [])) <==>
      forall i :: 0 <= i < |batches| ==> DropsAll(spec, Stored(spec, batches[..i]), batches[i].rows)
  {
    hide Merge, Valid, Stored, DropsAll, KeyUnique, WellKeyed;
    NoRows(spec);
    if forall i :: 0 <= i < |batches| ==> DropsAll(spec, Stored(spec, batches[..i]), batches[i].rows) {
      forall i | 0 <= i <= |batches| ensures WellKeyed(spec, Stored(spec, batches[..i]), []) {
        StoredIsValid(spec, batches, i);
        ValidIsWellKeyed(spec, Stored(spec, batches[..i]), Clock(batches[..i]), []);
      }
    }
    if forall i :: 0 <= i <= |batches| ==> WellKeyed(spec, Stored(spec, batches[..i]), []) {
      KeyedDropsAll(spec, batches, |batches|);
    }
  }

  lemma {:induction false} KeyedDropsAll(spec: MergeSpec, batches: seq<Batch>, i: nat)
    requires InOrder(spec, batches) && i <= |batches|
    requires forall j :: 0 <= j <= i ==> WellKeyed(spec, Stored(spec, batches[..j]), [])
    ensures forall j :: 0 <= j < i ==> DropsAll(spec, Stored(spec, batches[..j]), batches[j].rows)
  {
    hide Merge, Valid, Stored, DropsAll, KeyUnique, WellKeyed;
    if i > 0 {
      KeyedDropsAll(spec, batches, i - 1);
      StoredIsValid(spec, batches, i - 1);
      PrefixInOrder(spec, batches, i - 1);
      StoredSnoc(spec, batches, i - 1);
      var read, rows := Stored(spec, batches[..i - 1]), batches[i - 1].rows;
      if read == [] {
        NothingToDrop(spec, rows);
      } else {
        NextReadIsKeyedIff(spec, read, rows, Clock(batches[..i - 1]), batches[i - 1].day);
      }
    }
  }

  lemma NothingToDrop(spec: MergeSpec, rows: seq<Row>)
    ensures DropsAll(spec, [], rows)
  {
  }

  // ----- Equal snapshots -----

  function Pow2(n: nat): nat {
    if n == 0 then 1 else 2 * Pow2(n - 1)
  }

  /** The dimension holds copies of one current version, and nothing else. */
  predicate Copies(dim: seq<Version>, v: Version) {
    dim != [] && v.current && forall w :: w in dim ==> w == v
  }

  /** Merging the same row again keeps all copies, each of them current. */
  lemma CopiesStay(spec: MergeSpec, dim: seq<Version>, v: Version, r: Row, ts: Day)
    requires Copies(dim, v) && KeyOf(spec, r) == KeyOf(spec, v.row) && HashOf(spec, r) == HashOf(spec, v.row)
    ensures Merge(spec, dim, [r], ts) == dim
  {
    hide KeyOf, HashOf, InnerJoin, Filter, NewVersions, NextSk, Map;
    FilterAll(dim, IsCurrent());
    var pairs := Map(dim, PairWith(r));
    JoinOfCopies(spec, dim, v, r);
    PairsOfCopies(spec, dim, v, r, pairs);
    CopiesRemain(spec, dim, v, r, pairs);
    EmptyParts(spec, dim, [r], ts);
    assert JoinParts(spec, dim, [r], ts) == Parts([], dim, [], [], []) by { NothingNew(spec, ts); }
  }

  lemma NothingNew(spec: MergeSpec, ts: Day)
    ensures forall start :: NewVersions(spec, [], ts, start) == []
    ensures Map([], Left()) == []
  {
  }

  lemma JoinOfCopies(spec: MergeSpec, dim: seq<Version>, v: Version, r: Row)
    requires Copies(dim, v) && KeyOf(spec, r) == KeyOf(spec, v.row)
    ensures InnerJoin(spec, [r], dim) == Map(dim, PairWith(r))
  {
    hide KeyOf;
    FilterAll(dim, HasKey(spec, KeyOf(spec, r)));
    assert [r][..0] == [] && InnerJoin(spec, [], dim) == [];
    assert [] + Map(dim, PairWith(r)) == Map(dim, PairWith(r));
  }

  lemma CopiesRemain(spec: MergeSpec, dim: seq<Version>, v: Version, r: Row, pairs: seq<(Row, Version)>)
    requires Copies(dim, v) && KeyOf(spec, r) == KeyOf(spec, v.row) && pairs == Map(dim, PairWith(r))
    ensures Filter(dim, SkNotIn(Map(dim, SkOf()))) == []
    ensures Filter(dim, SkIn(Map(pairs, RightSk()))) == dim
    ensures Filter([r], KeyNotIn(spec, Map(dim, VersionKeyOf(spec)))) == []
  {
    hide KeyOf, Filter;
    assert dim[0] in dim;
    assert Map(dim, SkOf())[0] == v.sk;
    FilterNone(dim, SkNotIn(Map(dim, SkOf())));
    assert Map(pairs, RightSk())[0] == v.sk;
    FilterAll(dim, SkIn(Map(pairs, RightSk())));
    assert Map(dim, VersionKeyOf(spec))[0] == KeyOf(spec, v.row);
    FilterNone([r], KeyNotIn(spec, Map(dim, VersionKeyOf(spec))));
  }

  lemma PairsOfCopies(spec: MergeSpec, dim: seq<Version>, v: Version, r: Row, pairs: seq<(Row, Version)>)
    requires Copies(dim, v) && HashOf(spec, r) == HashOf(spec, v.row) && pairs == Map(dim, PairWith(r))
    ensures Filter(pairs, HashesDiffer(spec)) == [] && Filter(pairs, HashesEqual(spec)) == pairs
  {
    hide HashOf;
    forall p | p in pairs ensures p == (r, v) {
      var i :| 0 <= i < |pairs| && pairs[i] == p;
      assert dim[i] in dim;
    }
    FilterNone(pairs, HashesDiffer(spec));
    FilterAll(pairs, HashesEqual(spec));
  }

  /**
   * Equal snapshots of one player: each read doubles. From the third batch on the partition written has
   * several current versions of the player, all under one surrogate key: it is all that was read.
   */
  lemma {:induction false} SnapshotsDouble(spec: MergeSpec, r: Row, batches: seq<Batch>)
    requires batches != [] && forall b :: b in batches ==> b.rows == [r]
    ensures
      var v := Fresh(1, r, FAR_PAST);
      && Copies(Stored(spec, batches), v) && |Stored(spec, batches)| == Pow2(|batches| - 1)
      && (|batches| > 1 ==>
        var read := Stored(spec, batches[..|batches| - 1]);
        Partition(spec, read, batches[|batches| - 1]) == read)
  {
    hide Merge, KeyOf, HashOf;
    var n, v := |batches| - 1, Fresh(1, r, FAR_PAST);
    assert batches[n] in batches;
    if n == 0 {
      assert batches[..0] == [];
      OneLoaded(spec, r);
      assert [] + [v] == [v];
    } else {
      forall b | b in batches[..n] ensures b in batches {}
      SnapshotsDouble(spec, r, batches[..n]);
      var read := Stored(spec, batches[..n]);
      CopiesStay(spec, read, v, r, EffectiveDay(read, batches[n].day));
    }
  }

  lemma OneLoaded(spec: MergeSpec, r: Row)
    ensures Merge(spec, [], [r], FAR_PAST) == [Fresh(1, r, FAR_PAST)]
  {
    hide Merge, MergeStats;
    InitialLoadIsMerge(spec, [r], FAR_PAST);
    assert [r][1..] == [];
    assert Sort(RowLe(spec.naturalKey), [r]) == [r];
  }
}
