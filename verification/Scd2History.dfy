/**
 * What the merge does to the versions of one natural key, and what every run of merges keeps:
 * the versions of a key form a chain of intervals, and surrogate keys are never reused.
 */
module Scd2History {
  import opened Sequences
  import opened Ordering
  import opened Wrappers
  import opened Frames
  import opened Scd2

  const FAR_PAST: Day := 19000101

  /** The versions of one natural key, in the order the dimension lists them. */
  function Versions(spec: MergeSpec, dim: seq<Version>, k: seq<Value>): seq<Version> {
    Filter(dim, HasKey(spec, k))
  }

  predicate Open(vs: seq<Version>) {
    vs != [] && vs[|vs| - 1].current
  }

  /** Surrogate keys increase, intervals do not overlap, and only the last version may be current. */
  ghost predicate Ordered(vs: seq<Version>, clock: Day) {
    && (forall i :: 0 <= i < |vs| ==> Settled(vs[i], clock) || (i == |vs| - 1 && Live(vs[i], clock)))
    && (forall i, j :: 0 <= i < j < |vs| && j == i + 1 ==> vs[i].end <= vs[j].eff && vs[i].sk < vs[j].sk)
  }

  predicate Settled(v: Version, clock: Day) {
    !v.current && v.eff <= v.end <= clock
  }

  predicate Live(v: Version, clock: Day) {
    v.current && v.eff <= clock && v.end == FAR_FUTURE
  }

  /** A complete history: each version ends where the next begins, and the last one is current. */
  ghost predicate Chain(vs: seq<Version>, clock: Day) {
    && Ordered(vs, clock)
    && Open(vs)
    && (forall i, j :: 0 <= i < j < |vs| && j == i + 1 ==> vs[i].end == vs[j].eff)
  }

  /** The invariant every merge keeps, whatever rows it is given. */
  ghost predicate Valid(spec: MergeSpec, dim: seq<Version>, clock: Day) {
    && Distinct(Map(dim, SkOf()))
    && (forall v :: v in dim ==> v.sk >= 1)
    && (forall k :: Ordered(Versions(spec, dim, k), clock))
  }

  /** The stronger invariant that full snapshots keep. */
  ghost predicate Complete(spec: MergeSpec, dim: seq<Version>, clock: Day) {
    && Valid(spec, dim, clock)
    && (forall k :: Versions(spec, dim, k) == [] || Chain(Versions(spec, dim, k), clock))
  }

  /** The batch mentions every key that has a current version. */
  ghost predicate Covers(spec: MergeSpec, dim: seq<Version>, rows: seq<Row>) {
    forall v :: v in dim && v.current ==> Incoming(spec, rows, KeyOf(spec, v.row)).Some?
  }

  // ----- One key through one merge -----

  /** One new version for this key, taken from `r` and numbered at `next` or above. */
  predicate Appends(before: seq<Version>, after: seq<Version>, r: Row, ts: Day, next: int) {
    && |after| == |before| + 1
    && after[..|before|] == before
    && after[|before|] == Fresh(after[|before|].sk, r, ts)
    && after[|before|].sk >= next
  }

  /** The code's edge case: nothing historical and nothing incoming, so no output part at all. */
  predicate NoOutput(dim: seq<Version>, rows: seq<Row>) {
    rows == [] && forall v :: v in dim ==> v.current
  }

  /**
   * The effect of one merge on the versions of one key; `r` is the incoming row for that key.
   * An absent key loses its current version, unless the merge has no output part (`nothing`).
   */
  predicate KeyStep(
      spec: MergeSpec, vs: seq<Version>, r: Option<Row>, ts: Day, next: int, nothing: bool, after: seq<Version>)
  {
    if !Open(vs) then
      if r.None? then after == vs else Appends(vs, after, r.value, ts, next)
    else
      var n := |vs| - 1;
      if r.None? then after == if nothing then vs else vs[..n]
      else if HashOf(spec, r.value) == HashOf(spec, vs[n].row) then after == vs
      else Appends(vs[..n] + [CloseAt(ts)(vs[n])], after, r.value, ts, next)
  }

  /** Under `Ordered` a non-empty list of versions is its settled front plus one last version. */
  lemma SplitLast(vs: seq<Version>, clock: Day)
    requires Ordered(vs, clock) && vs != []
    ensures vs == vs[..|vs| - 1] + [vs[|vs| - 1]]
    ensures forall v :: v in vs[..|vs| - 1] ==> !v.current
  {
  }

  /** Keeping only current versions of a key keeps at most the last one. */
  lemma CurrentOfKey(vs: seq<Version>, clock: Day, p: Version -> bool)
    requires Ordered(vs, clock)
    requires forall v :: p(v) ==> v.current
    ensures Filter(vs, p) == if Open(vs) && p(vs[|vs| - 1]) then [vs[|vs| - 1]] else []
  {
    if vs != [] {
      hide Filter;
      SplitLast(vs, clock);
      FilterLast(vs[..|vs| - 1], vs[|vs| - 1], p);
    }
  }

  lemma HistoricalOfKey(vs: seq<Version>, clock: Day)
    requires Ordered(vs, clock)
    ensures Filter(vs, IsHistorical()) == if Open(vs) then vs[..|vs| - 1] else vs
  {
    if vs != [] {
      hide Filter;
      SplitLast(vs, clock);
      FilterButLast(vs[..|vs| - 1], vs[|vs| - 1], IsHistorical());
    }
  }

  /** A valid dimension has one current version a key at most, so the merge's contract holds. */
  lemma ValidIsWellKeyed(spec: MergeSpec, dim: seq<Version>, clock: Day, rows: seq<Row>)
    requires Valid(spec, dim, clock)
    requires KeyUnique(spec.naturalKey, rows)
    ensures WellKeyed(spec, dim, rows)
  {
    var current := Current(dim);
    var keys := Map(current, VersionKeyOf(spec));
    forall i, j | 0 <= i < j < |keys| ensures keys[i] != keys[j] {
      if keys[i] == keys[j] {
        var k := keys[i];
        FilterTwo(current, HasKey(spec, k), i, j);
        FilterCommute(dim, IsCurrent(), HasKey(spec, k));
        CurrentOfKey(Versions(spec, dim, k), clock, IsCurrent());
        assert false;
      }
    }
  }

  /** The sorted rows are the rows, with distinct keys. */
  lemma SortedRows(spec: MergeSpec, rows: seq<Row>)
    requires KeyUnique(spec.naturalKey, rows)
    ensures
      var sorted := Sort(RowLe(spec.naturalKey), rows);
      KeyUnique(spec.naturalKey, sorted) && (forall r :: r in sorted <==> r in rows)
  {
    hide Sort, KeyLe;
    var sorted := Sort(RowLe(spec.naturalKey), rows);
    DistinctPermutation(rows, sorted, ProjectOf(spec.naturalKey));
    forall r ensures r in sorted <==> r in rows {
      assert r in sorted <==> r in multiset(sorted);
      assert r in rows <==> r in multiset(rows);
    }
  }

  lemma NewVersionAt(spec: MergeSpec, rows: seq<Row>, ts: Day, start: int)
    ensures
      var sorted, vs := Sort(RowLe(spec.naturalKey), rows), NewVersions(spec, rows, ts, start);
      |vs| == |sorted| && forall j :: 0 <= j < |vs| ==> vs[j] == Fresh(start + j, sorted[j], ts)
  {
    hide Sort;
  }

  /** A key's row among new versions: one fresh version if the key is there, none otherwise. */
  lemma NewVersionsOfKey(spec: MergeSpec, rows: seq<Row>, ts: Day, start: int, k: seq<Value>)
    requires KeyUnique(spec.naturalKey, rows)
    ensures
      var vs := Filter(NewVersions(spec, rows, ts, start), HasKey(spec, k));
      var r := Incoming(spec, rows, k);
      if r.None? then vs == [] else |vs| == 1 && vs[0] == Fresh(vs[0].sk, r.value, ts) && vs[0].sk >= start
  {
    hide Filter, Sort, FindRow, KeyLe, KeyOf, KeyUnique, NewVersions;
    SortedRows(spec, rows);
    NewVersionAt(spec, rows, ts, start);
    var sorted := Sort(RowLe(spec.naturalKey), rows);
    var versions := NewVersions(spec, rows, ts, start);
    var r := Incoming(spec, rows, k);
    IncomingFound(spec, rows, k);
    if r.None? {
      forall v | v in versions ensures !HasKey(spec, k)(v) {
        var i :| 0 <= i < |versions| && versions[i] == v;
        assert sorted[i] in rows;
      }
      FilterNone(versions, HasKey(spec, k));
    } else {
      assert r.value in sorted;
      var i :| 0 <= i < |sorted| && sorted[i] == r.value;
      PositionOfKey(spec, sorted, i);
      FilterOne(versions, HasKey(spec, k), i);
    }
  }

  lemma IncomingFound(spec: MergeSpec, rows: seq<Row>, k: seq<Value>)
    ensures
      var r := Incoming(spec, rows, k);
      if r.None? then forall x :: x in rows ==> KeyOf(spec, x) != k
      else r.value in rows && KeyOf(spec, r.value) == k
  {
    hide FindRow;
  }

  lemma PositionOfKey(spec: MergeSpec, rows: seq<Row>, i: nat)
    requires KeyUnique(spec.naturalKey, rows) && i < |rows|
    ensures forall j :: 0 <= j < |rows| && j != i ==> KeyOf(spec, rows[j]) != KeyOf(spec, rows[i])
  {
    var keys := Map(rows, ProjectOf(spec.naturalKey));
    forall j | 0 <= j < |rows| && j != i ensures KeyOf(spec, rows[j]) != KeyOf(spec, rows[i]) {
      assert keys[j] != keys[i];
    }
  }

  /** Selecting incoming rows by a per-row test keeps keys unique and keeps or drops a key's row. */
  lemma SelectedRow(spec: MergeSpec, rows: seq<Row>, p: Row -> bool, k: seq<Value>)
    requires KeyUnique(spec.naturalKey, rows)
    ensures KeyUnique(spec.naturalKey, Filter(rows, p))
    ensures
      var r := Incoming(spec, rows, k);
      Incoming(spec, Filter(rows, p), k) == if r.Some? && p(r.value) then r else None
  {
    FilterDistinct(rows, p, ProjectOf(spec.naturalKey));
    FilterIn(rows, p);
    hide Filter, FindRow;
    var kept := Filter(rows, p);
    var r, s := Incoming(spec, rows, k), Incoming(spec, kept, k);
    if s.Some? {
      assert s.value in kept;
      SameKeySameRow(spec, rows, s.value);
    }
    if r.Some? && p(r.value) {
      assert r.value in kept;
      SameKeySameRow(spec, kept, r.value);
    }
  }

  /** The current version of a key is the last of its versions. */
  lemma FoundAmong(spec: MergeSpec, versions: seq<Version>, k: seq<Value>)
    ensures
      var i, only := FindVersion(spec, versions, k), Filter(versions, HasKey(spec, k));
      if i < 0 then only == [] else versions[i] in only
  {
    hide Filter;
    FilterIn(versions, HasKey(spec, k));
    var i := FindVersion(spec, versions, k);
    if i < 0 {
      FilterNone(versions, HasKey(spec, k));
    } else {
      assert versions[i] in versions;
    }
  }

  lemma CurrentForKey(spec: MergeSpec, dim: seq<Version>, clock: Day, k: seq<Value>)
    requires Valid(spec, dim, clock)
    ensures
      var vs := Versions(spec, dim, k);
      CurrentFor(spec, dim, k) == if Open(vs) then Some(vs[|vs| - 1]) else None
  {
    hide Filter, FindVersion, Ordered, KeyOf;
    var vs := Versions(spec, dim, k);
    FilterCommute(dim, IsCurrent(), HasKey(spec, k));
    CurrentOfKey(vs, clock, IsCurrent());
    FoundAmong(spec, Current(dim), k);
  }

  /** The versions of a key in the output are its versions in the five parts, in order. */
  lemma VersionsOfParts(spec: MergeSpec, parts: Parts, k: seq<Value>)
    ensures Versions(spec, parts.All(), k) ==
      Versions(spec, parts.historical, k) + Versions(spec, parts.kept, k) + Versions(spec, parts.closed, k)
      + Versions(spec, parts.revised, k) + Versions(spec, parts.added, k)
  {
    var p := HasKey(spec, k);
    FilterConcat(parts.historical, parts.kept, p);
    FilterConcat(parts.historical + parts.kept, parts.closed, p);
    FilterConcat(parts.historical + parts.kept + parts.closed, parts.revised, p);
    FilterConcat(parts.historical + parts.kept + parts.closed + parts.revised, parts.added, p);
  }

  lemma KeptOfKey(spec: MergeSpec, dim: seq<Version>, rows: seq<Row>, clock: Day, k: seq<Value>)
    requires Valid(spec, dim, clock)
    ensures
      var vs, r := Versions(spec, dim, k), Incoming(spec, rows, k);
      Versions(spec, Filter(dim, Kept(spec, rows)), k) ==
        if Open(vs) && r.Some? && HashOf(spec, r.value) == HashOf(spec, vs[|vs| - 1].row) then [vs[|vs| - 1]] else []
  {
    hide Filter, FindRow, HashOf;
    var vs := Versions(spec, dim, k);
    FilterIn(dim, HasKey(spec, k));
    FilterCommute(dim, Kept(spec, rows), HasKey(spec, k));
    CurrentOfKey(vs, clock, Kept(spec, rows));
    if Open(vs) {
      assert vs[|vs| - 1] in vs;
    }
  }

  lemma ClosedOfKey(spec: MergeSpec, dim: seq<Version>, rows: seq<Row>, clock: Day, ts: Day, k: seq<Value>)
    requires Valid(spec, dim, clock)
    ensures
      var vs, r := Versions(spec, dim, k), Incoming(spec, rows, k);
      Versions(spec, Map(Filter(dim, Superseded(spec, rows)), CloseAt(ts)), k) ==
        if Open(vs) && r.Some? && HashOf(spec, r.value) != HashOf(spec, vs[|vs| - 1].row)
        then [CloseAt(ts)(vs[|vs| - 1])] else []
  {
    hide Filter, FindRow, HashOf;
    var vs, p := Versions(spec, dim, k), HasKey(spec, k);
    var superseded := Filter(dim, Superseded(spec, rows));
    FilterIn(dim, p);
    FilterCommute(dim, Superseded(spec, rows), p);
    CurrentOfKey(vs, clock, Superseded(spec, rows));
    FilterMap(superseded, CloseAt(ts), p, p);
    if Open(vs) {
      assert vs[|vs| - 1] in vs;
    }
  }

  lemma RevisedOfKey(spec: MergeSpec, dim: seq<Version>, rows: seq<Row>, clock: Day, ts: Day, k: seq<Value>)
    requires Valid(spec, dim, clock)
    requires KeyUnique(spec.naturalKey, rows)
    ensures
      var vs, r := Versions(spec, dim, k), Incoming(spec, rows, k);
      var revised := Versions(spec, NewVersions(spec, Filter(rows, Revises(spec, dim)), ts, NextSk(dim)), k);
      if Open(vs) && r.Some? && HashOf(spec, r.value) != HashOf(spec, vs[|vs| - 1].row)
      then Appends([], revised, r.value, ts, NextSk(dim)) else revised == []
  {
    hide Filter, FindRow, FindVersion, NextSk, NewVersions, CurrentFor, Valid, HashOf;
    SelectedRow(spec, rows, Revises(spec, dim), k);
    CurrentForKey(spec, dim, clock, k);
    NewVersionsOfKey(spec, Filter(rows, Revises(spec, dim)), ts, NextSk(dim), k);
  }

  lemma AddedOfKey(
      spec: MergeSpec, dim: seq<Version>, rows: seq<Row>, clock: Day, ts: Day, start: int, k: seq<Value>)
    requires Valid(spec, dim, clock)
    requires KeyUnique(spec.naturalKey, rows)
    ensures
      var vs, r := Versions(spec, dim, k), Incoming(spec, rows, k);
      var added := Versions(spec, NewVersions(spec, Filter(rows, Introduces(spec, dim)), ts, start), k);
      if !Open(vs) && r.Some? then Appends([], added, r.value, ts, start) else added == []
  {
    hide Filter, FindRow, FindVersion, NextSk, NewVersions, CurrentFor, Valid;
    SelectedRow(spec, rows, Introduces(spec, dim), k);
    CurrentForKey(spec, dim, clock, k);
    NewVersionsOfKey(spec, Filter(rows, Introduces(spec, dim)), ts, start, k);
  }

  /** The output is empty exactly when there is nothing historical and nothing incoming. */
  lemma OutputEmptyIff(spec: MergeSpec, dim: seq<Version>, rows: seq<Row>, ts: Day)
    requires KeyUnique(spec.naturalKey, rows)
    ensures Categorise(spec, dim, rows, ts).All() == [] <==> NoOutput(dim, rows)
  {
    hide Filter, FindRow, FindVersion, NextSk, Sort;
    var parts := Categorise(spec, dim, rows, ts);
    FilterIn(dim, IsHistorical());
    FilterIn(dim, Kept(spec, rows));
    FilterIn(dim, Superseded(spec, rows));
    FilterIn(dim, IsCurrent());
    FilterIn(rows, Revises(spec, dim));
    FilterIn(rows, Introduces(spec, dim));
    if NoOutput(dim, rows) {
      FilterNone(dim, IsHistorical());
      FilterNone(dim, Kept(spec, rows));
      FilterNone(dim, Superseded(spec, rows));
      assert Filter(rows, Revises(spec, dim)) == [] && Filter(rows, Introduces(spec, dim)) == [];
    } else if rows == [] {
      var v :| v in dim && !v.current;
      assert v in parts.historical;
    } else {
      var r := rows[0];
      SameKeySameRow(spec, rows, r);
      var v := CurrentFor(spec, dim, KeyOf(spec, r));
      if v.None? {
        assert r in Filter(rows, Introduces(spec, dim));
      } else if HashOf(spec, r) != HashOf(spec, v.value.row) {
        assert r in Filter(rows, Revises(spec, dim));
      } else {
        assert v.value in parts.kept;
      }
    }
  }

  /** The exact effect of a merge on one natural key. */
  lemma MergeOnKey(spec: MergeSpec, dim: seq<Version>, rows: seq<Row>, clock: Day, ts: Day, k: seq<Value>)
    requires Valid(spec, dim, clock)
    requires KeyUnique(spec.naturalKey, rows)
    ensures KeyStep(spec, Versions(spec, dim, k), Incoming(spec, rows, k), ts, NextSk(dim),
      NoOutput(dim, rows), Versions(spec, Merge(spec, dim, rows, ts), k))
  {
    hide Filter, FindRow, FindVersion, NextSk, NewVersions, Merge, HashOf, KeyOf, KeyUnique, WellKeyed, JoinParts,
      Revises, Introduces, Superseded, Kept, HasKey, CloseAt, Ordered;
    ValidIsWellKeyed(spec, dim, clock, rows);
    JoinsImplementCategories(spec, dim, rows, ts);
    OutputEmptyIff(spec, dim, rows, ts);
    var parts := Categorise(spec, dim, rows, ts);
    VersionsOfParts(spec, parts, k);
    FilterCommute(dim, IsHistorical(), HasKey(spec, k));
    HistoricalOfKey(Versions(spec, dim, k), clock);
    KeptOfKey(spec, dim, rows, clock, k);
    ClosedOfKey(spec, dim, rows, clock, ts, k);
    RevisedOfKey(spec, dim, rows, clock, ts, k);
    AddedOfKey(spec, dim, rows, clock, ts, NextSk(dim) + |Filter(rows, Revises(spec, dim))|, k);
    if NoOutput(dim, rows) {
      assert Merge(spec, dim, rows, ts) == dim;
    } else {
      assert Merge(spec, dim, rows, ts) == parts.All();
      CombineParts(spec, dim, rows, ts, k, parts);
    }
  }

  /** Putting the five parts of one key together. */
  lemma CombineParts(spec: MergeSpec, dim: seq<Version>, rows: seq<Row>, ts: Day, k: seq<Value>, parts: Parts)
    requires
      var vs := Versions(spec, dim, k);
      var r := Incoming(spec, rows, k);
      var n := |vs| - 1;
      var same := Open(vs) && r.Some? && HashOf(spec, r.value) == HashOf(spec, vs[n].row);
      var changed := Open(vs) && r.Some? && !same;
      var revised, added := Versions(spec, parts.revised, k), Versions(spec, parts.added, k);
      && Versions(spec, parts.All(), k) ==
        Versions(spec, parts.historical, k) + Versions(spec, parts.kept, k) + Versions(spec, parts.closed, k)
        + revised + added
      && Versions(spec, parts.historical, k) == (if Open(vs) then vs[..n] else vs)
      && Versions(spec, parts.kept, k) == (if same then [vs[n]] else [])
      && Versions(spec, parts.closed, k) == (if changed then [CloseAt(ts)(vs[n])] else [])
      && (if changed then Appends([], revised, r.value, ts, NextSk(dim)) else revised == [])
      && (if !Open(vs) && r.Some? then Appends([], added, r.value, ts, NextSk(dim)) else added == [])
    ensures KeyStep(spec, Versions(spec, dim, k), Incoming(spec, rows, k), ts, NextSk(dim),
      false, Versions(spec, parts.All(), k))
  {
    hide Versions, Incoming, NextSk, HashOf;
    var vs := Versions(spec, dim, k);
    if Open(vs) {
      assert vs == vs[..|vs| - 1] + [vs[|vs| - 1]];
    }
  }
}
