/** Invariants of the dimension over every run of merges, and the theorems about whole runs. */
module Scd2Runs {
  import opened Wrappers
  import opened Sequences
  import opened Ordering
  import opened Frames
  import opened Scd2
  import opened Scd2History

  // ----- One merge keeps the invariants -----

  lemma OrderedLater(vs: seq<Version>, clock: Day, ts: Day)
    requires Ordered(vs, clock) && clock <= ts
    ensures Ordered(vs, ts)
  {
  }

  lemma AppendOrdered(before: seq<Version>, after: seq<Version>, r: Row, ts: Day, next: int)
    requires Appends(before, after, r, ts, next)
    requires Ordered(before, ts) && !Open(before)
    requires forall v :: v in before ==> v.sk < next
    ensures Ordered(after, ts)
  {
    assert after == before + [after[|before|]];
    forall i | 0 <= i < |before| ensures after[i] == before[i] && before[i].sk < next && Settled(before[i], ts) {
      assert before[i] in before;
    }
    assert Live(after[|before|], ts);
  }

  lemma CloseOrdered(vs: seq<Version>, clock: Day, ts: Day)
    requires Ordered(vs, clock) && Open(vs) && clock <= ts < FAR_FUTURE
    ensures
      var closed := vs[..|vs| - 1] + [CloseAt(ts)(vs[|vs| - 1])];
      Ordered(closed, ts) && !Open(closed)
  {
  }

  lemma KeyStepOrdered(
      spec: MergeSpec, vs: seq<Version>, r: Option<Row>, clock: Day, ts: Day, next: int, nothing: bool,
      after: seq<Version>)
    requires KeyStep(spec, vs, r, ts, next, nothing, after)
    requires Ordered(vs, clock) && clock <= ts < FAR_FUTURE
    requires forall v :: v in vs ==> v.sk < next
    ensures Ordered(after, ts)
  {
    OrderedLater(vs, clock, ts);
    if !Open(vs) {
      if r.Some? {
        AppendOrdered(vs, after, r.value, ts, next);
      }
    } else if r.Some? && HashOf(spec, r.value) != HashOf(spec, vs[|vs| - 1].row) {
      CloseOrdered(vs, clock, ts);
      var closed := vs[..|vs| - 1] + [CloseAt(ts)(vs[|vs| - 1])];
      forall v | v in closed ensures v.sk < next {
        assert v in vs || v.sk == vs[|vs| - 1].sk;
      }
      AppendOrdered(closed, after, r.value, ts, next);
    }
  }

  /** When the key is mentioned or not open, a complete history stays complete. */
  lemma KeyStepChain(
      spec: MergeSpec, vs: seq<Version>, r: Option<Row>, clock: Day, ts: Day, next: int, nothing: bool,
      after: seq<Version>)
    requires KeyStep(spec, vs, r, ts, next, nothing, after)
    requires vs == [] || Chain(vs, clock)
    requires Open(vs) ==> r.Some?
    requires clock <= ts < FAR_FUTURE
    requires Ordered(after, ts)
    ensures after == [] || Chain(after, ts)
  {
  }

  lemma SkMember(s: seq<Version>, sk: int)
    requires sk in Map(s, SkOf())
    ensures exists v :: v in s && v.sk == sk
  {
    var i :| 0 <= i < |s| && Map(s, SkOf())[i] == sk;
    assert s[i] in s;
  }

  lemma SkConcat(a: seq<Version>, b: seq<Version>)
    requires Distinct(Map(a, SkOf())) && Distinct(Map(b, SkOf()))
    requires forall v, w :: v in a && w in b ==> v.sk != w.sk
    ensures Distinct(Map(a + b, SkOf()))
  {
    var sa, sb := Map(a, SkOf()), Map(b, SkOf());
    forall x | x in sa ensures x !in sb {
      SkMember(a, x);
      if x in sb {
        SkMember(b, x);
      }
    }
    DistinctConcat(sa, sb);
    assert Map(a + b, SkOf()) == sa + sb;
  }

  /** The three parts made of old versions: what they hold and that their surrogate keys stay distinct. */
  lemma OldPartsDistinct(spec: MergeSpec, dim: seq<Version>, rows: seq<Row>, ts: Day)
    requires Distinct(Map(dim, SkOf()))
    ensures
      var parts := Categorise(spec, dim, rows, ts);
      var old_ := parts.historical + parts.kept + parts.closed;
      && Distinct(Map(old_, SkOf()))
      && (forall v :: v in old_ ==> exists w :: w in dim && w.sk == v.sk)
  {
    hide Filter, FindRow, FindVersion, NextSk, NewVersions, HashOf;
    var superseded := Filter(dim, Superseded(spec, rows));
    var historical, kept := Filter(dim, IsHistorical()), Filter(dim, Kept(spec, rows));
    var closed := Map(superseded, CloseAt(ts));
    FilterDistinct(dim, IsHistorical(), SkOf());
    FilterDistinct(dim, Kept(spec, rows), SkOf());
    FilterDistinct(dim, Superseded(spec, rows), SkOf());
    FilterIn(dim, IsHistorical());
    FilterIn(dim, Kept(spec, rows));
    FilterIn(dim, Superseded(spec, rows));
    assert Map(closed, SkOf()) == Map(superseded, SkOf());
    forall v | v in closed ensures exists w :: w in superseded && w.sk == v.sk {
      var i :| 0 <= i < |closed| && closed[i] == v;
      assert superseded[i] in superseded;
    }
    forall v, w | v in historical && w in kept ensures v.sk != w.sk {
      if v.sk == w.sk { SameSkSameVersion(dim, v, w); }
    }
    SkConcat(historical, kept);
    forall v, w | v in historical + kept && w in closed ensures v.sk != w.sk {
      var u :| u in superseded && u.sk == w.sk;
      if v.sk == u.sk { SameSkSameVersion(dim, v, u); }
    }
    SkConcat(historical + kept, closed);
  }

  lemma NewVersionsDistinct(spec: MergeSpec, rows: seq<Row>, ts: Day, start: int)
    ensures
      var vs := NewVersions(spec, rows, ts, start);
      Distinct(Map(vs, SkOf())) && forall v :: v in vs ==> start <= v.sk < start + |rows|
  {
    hide Sort;
    var vs := NewVersions(spec, rows, ts, start);
    assert forall i :: 0 <= i < |vs| ==> vs[i].sk == start + i;
  }

  /** Surrogate keys stay distinct, and every version that was not there before is numbered past the old ones. */
  lemma SurrogateKeysStayDistinct(spec: MergeSpec, dim: seq<Version>, rows: seq<Row>, clock: Day, ts: Day)
    requires Valid(spec, dim, clock)
    requires KeyUnique(spec.naturalKey, rows)
    ensures
      var merged := Merge(spec, dim, rows, ts);
      && Distinct(Map(merged, SkOf()))
      && (forall v :: v in merged ==> v.sk >= 1)
      && (forall v :: v in merged ==> v.sk >= NextSk(dim) || exists w :: w in dim && w.sk == v.sk)
  {
    hide Filter, FindRow, FindVersion, NextSk, NewVersions, HashOf, Merge;
    ValidIsWellKeyed(spec, dim, clock, rows);
    JoinsImplementCategories(spec, dim, rows, ts);
    var parts := Categorise(spec, dim, rows, ts);
    var next, revising := NextSk(dim), Filter(rows, Revises(spec, dim));
    OldPartsDistinct(spec, dim, rows, ts);
    NewVersionsDistinct(spec, revising, ts, next);
    NewVersionsDistinct(spec, Filter(rows, Introduces(spec, dim)), ts, next + |revising|);
    hide Categorise;
    var old_ := parts.historical + parts.kept + parts.closed;
    SkConcat(old_, parts.revised);
    SkConcat(old_ + parts.revised, parts.added);
  }

  /** Every merge of key-unique rows keeps the dimension valid: no overlap, at most one current version a key. */
  lemma MergeKeepsValid(spec: MergeSpec, dim: seq<Version>, rows: seq<Row>, clock: Day, ts: Day)
    requires Valid(spec, dim, clock)
    requires KeyUnique(spec.naturalKey, rows)
    requires clock <= ts < FAR_FUTURE
    ensures Valid(spec, Merge(spec, dim, rows, ts), ts)
  {
    hide Filter, FindRow, Merge, NextSk, HashOf;
    SurrogateKeysStayDistinct(spec, dim, rows, clock, ts);
    forall k ensures Ordered(Versions(spec, Merge(spec, dim, rows, ts), k), ts) {
      MergeOnKey(spec, dim, rows, clock, ts, k);
      FilterIn(dim, HasKey(spec, k));
      KeyStepOrdered(spec, Versions(spec, dim, k), Incoming(spec, rows, k), clock, ts, NextSk(dim),
        NoOutput(dim, rows), Versions(spec, Merge(spec, dim, rows, ts), k));
    }
  }

  /** Full snapshots keep every history complete: an unbroken chain ending in the one current version. */
  lemma MergeKeepsComplete(spec: MergeSpec, dim: seq<Version>, rows: seq<Row>, clock: Day, ts: Day)
    requires Complete(spec, dim, clock)
    requires KeyUnique(spec.naturalKey, rows)
    requires Covers(spec, dim, rows)
    requires clock <= ts < FAR_FUTURE
    ensures Complete(spec, Merge(spec, dim, rows, ts), ts)
  {
    hide Filter, FindRow, Merge, NextSk, HashOf;
    MergeKeepsValid(spec, dim, rows, clock, ts);
    forall k ensures
      var after := Versions(spec, Merge(spec, dim, rows, ts), k); after == [] || Chain(after, ts)
    {
      var vs := Versions(spec, dim, k);
      MergeOnKey(spec, dim, rows, clock, ts, k);
      FilterIn(dim, HasKey(spec, k));
      if Open(vs) {
        assert vs[|vs| - 1] in vs;
      }
      KeyStepChain(spec, vs, Incoming(spec, rows, k), clock, ts, NextSk(dim),
        NoOutput(dim, rows), Versions(spec, Merge(spec, dim, rows, ts), k));
    }
  }

  // ----- History is never rewritten -----

  /** Same surrogate key, same attributes, same start: only `end` and `current` may have changed. */
  predicate SameIdentity(v: Version, w: Version) {
    v.sk == w.sk && v.row == w.row && v.eff == w.eff
  }

  /** Every old version is still there, and every other version is numbered past all old ones. */
  ghost predicate Extends(dim: seq<Version>, later: seq<Version>) {
    && (forall v :: v in dim ==> Retained(v, later))
    && (forall w :: w in later ==> w.sk >= NextSk(dim) || Inherited(w, dim))
  }

  lemma {:induction false} NextSkIsTight(dim: seq<Version>)
    requires dim != [] && forall v :: v in dim ==> v.sk >= 1
    ensures exists v :: v in dim && v.sk == NextSk(dim) - 1
  {
    var n := |dim| - 1;
    assert dim[n] in dim;
    if n > 0 && dim[n].sk < NextSk(dim[..n]) {
      forall v | v in dim[..n] ensures v in dim {}
      NextSkIsTight(dim[..n]);
    }
  }

  lemma NextSkGrows(dim: seq<Version>, later: seq<Version>)
    requires forall v :: v in dim ==> Retained(v, later)
    requires forall v :: v in dim ==> v.sk >= 1
    ensures NextSk(later) >= NextSk(dim)
  {
    hide NextSk;
    if dim != [] {
      NextSkIsTight(dim);
      var v :| v in dim && v.sk == NextSk(dim) - 1;
      var w :| w in later && SameIdentity(v, w);
    } else {
      assert NextSk([]) == 1 by { EmptyNextSk(); }
    }
  }

  lemma EmptyNextSk()
    ensures NextSk([]) == 1
  {
  }

  ghost predicate Retained(v: Version, later: seq<Version>) {
    exists w :: w in later && SameIdentity(v, w)
  }

  ghost predicate Inherited(w: Version, earlier: seq<Version>) {
    exists v :: v in earlier && SameIdentity(v, w)
  }

  lemma ExtendsTransitive(a: seq<Version>, b: seq<Version>, c: seq<Version>)
    requires Extends(a, b) && Extends(b, c)
    requires forall v :: v in a ==> v.sk >= 1
    ensures Extends(a, c)
  {
    NextSkGrows(a, b);
    hide NextSk;
    forall v | v in a ensures Retained(v, c) {
      var w :| w in b && SameIdentity(v, w);
      var x :| x in c && SameIdentity(w, x);
      assert SameIdentity(v, x);
    }
    forall x | x in c && x.sk < NextSk(a) ensures Inherited(x, a) {
      assert Inherited(x, b);
      var w :| w in b && SameIdentity(w, x);
      assert Inherited(w, a);
      var v :| v in a && SameIdentity(v, w);
      assert SameIdentity(v, x);
    }
  }

  /** A key's step loses no version when the key is mentioned or has no current version. */
  lemma KeyStepExtends(
      spec: MergeSpec, vs: seq<Version>, r: Option<Row>, ts: Day, next: int, nothing: bool, after: seq<Version>)
    requires KeyStep(spec, vs, r, ts, next, nothing, after)
    requires Open(vs) ==> r.Some?
    ensures forall v :: v in vs ==> Retained(v, after)
    ensures forall w :: w in after ==> w.sk >= next || Inherited(w, vs)
  {
    hide HashOf;
    var n := |vs|;
    forall i | 0 <= i < n ensures |after| >= n && SameIdentity(vs[i], after[i]) {
    }
    forall v | v in vs ensures Retained(v, after) {
      var i :| 0 <= i < n && vs[i] == v;
      assert after[i] in after;
    }
    forall w | w in after ensures w.sk >= next || Inherited(w, vs) {
      var i :| 0 <= i < |after| && after[i] == w;
      if i < n {
        assert vs[i] in vs;
      }
    }
  }

  /** A full-snapshot merge never drops, renumbers or edits a version; it can only end one. */
  lemma MergeExtends(spec: MergeSpec, dim: seq<Version>, rows: seq<Row>, clock: Day, ts: Day)
    requires Valid(spec, dim, clock)
    requires KeyUnique(spec.naturalKey, rows)
    requires Covers(spec, dim, rows)
    ensures Extends(dim, Merge(spec, dim, rows, ts))
  {
    hide Filter, FindRow, Merge, NextSk, HashOf, KeyStep, Ordered;
    var merged := Merge(spec, dim, rows, ts);
    forall v | v in dim || v in merged
      ensures v in dim ==> Retained(v, merged)
      ensures v in merged ==> v.sk >= NextSk(dim) || Inherited(v, dim)
    {
      var k := KeyOf(spec, v.row);
      var vs, after := Versions(spec, dim, k), Versions(spec, merged, k);
      FilterIn(dim, HasKey(spec, k));
      FilterIn(merged, HasKey(spec, k));
      if Open(vs) {
        assert vs[|vs| - 1] in vs;
      }
      MergeOnKey(spec, dim, rows, clock, ts, k);
      KeyStepExtends(spec, vs, Incoming(spec, rows, k), ts, NextSk(dim), NoOutput(dim, rows), after);
      assert v in dim ==> v in vs;
      assert v in merged ==> v in after;
    }
  }

  // ----- Where versions come from -----

  /** A version numbered from the next key on is opened by the batch: one of its rows, from its day, current. */
  lemma OpenedFromBatch(spec: MergeSpec, dim: seq<Version>, rows: seq<Row>, ts: Day, v: Version)
    requires v in Merge(spec, dim, rows, ts) && v.sk >= NextSk(dim)
    ensures v.row in rows && v.eff == ts && v.end == 99991231 && v.current
  {
    hide Historical, Unchanged, ClosedOut, NewRows, ChangedPairs, NewVersions, NextSk;
    var parts, next := JoinParts(spec, dim, rows, ts), NextSk(dim);
    OldPartsFrom(spec, dim, rows, ts);
    assert v in parts.revised || v in parts.added;
    if v in parts.revised {
      NewFromRows(spec, Map(ChangedPairs(spec, dim, rows), Left()), ts, next, v);
      ChangedAmongRows(spec, dim, rows);
    } else {
      NewFromRows(spec, NewRows(spec, dim, rows), ts, next + |ChangedPairs(spec, dim, rows)|, v);
      NewAmongRows(spec, dim, rows);
    }
  }

  /** Any other version was there before, with the same row, key and start. */
  lemma KeptFromBefore(spec: MergeSpec, dim: seq<Version>, rows: seq<Row>, ts: Day, v: Version)
    requires v in Merge(spec, dim, rows, ts) && v.sk < NextSk(dim)
    ensures exists w :: w in dim && w.row == v.row && w.sk == v.sk && w.eff == v.eff
  {
    hide Historical, Unchanged, ClosedOut, NewRows, ChangedPairs, NewVersions, NextSk;
    var parts := JoinParts(spec, dim, rows, ts);
    OldPartsFrom(spec, dim, rows, ts);
    NewNumbered(spec, Map(ChangedPairs(spec, dim, rows), Left()), ts, NextSk(dim));
    NewNumbered(spec, NewRows(spec, dim, rows), ts, NextSk(dim) + |ChangedPairs(spec, dim, rows)|);
  }

  lemma OldPartsFrom(spec: MergeSpec, dim: seq<Version>, rows: seq<Row>, ts: Day)
    ensures
      var parts := JoinParts(spec, dim, rows, ts);
      forall v :: v in parts.historical + parts.kept + parts.closed ==>
        exists w :: w in dim && w.row == v.row && w.sk == v.sk && w.eff == v.eff
  {
    hide ChangedPairs, UnchangedPairs, NewVersions, NextSk, NewRows;
    FilterIn(dim, IsCurrent());
    FilterIn(dim, SkNotIn(Map(Current(dim), SkOf())));
    var same, changed := Map(UnchangedPairs(spec, dim, rows), RightSk()), Map(ChangedPairs(spec, dim, rows), RightSk());
    FilterIn(Current(dim), SkIn(same));
    FilterIn(Current(dim), SkIn(changed));
    hide Filter;
    var superseded := Filter(Current(dim), SkIn(changed));
    var closed := Map(superseded, CloseAt(ts));
    forall v | v in closed ensures exists w :: w in dim && w.row == v.row && w.sk == v.sk && w.eff == v.eff {
      var i :| 0 <= i < |closed| && closed[i] == v;
      assert superseded[i] in superseded;
    }
  }

  lemma NewNumbered(spec: MergeSpec, rows: seq<Row>, ts: Day, start: int)
    ensures forall v :: v in NewVersions(spec, rows, ts, start) ==> v.sk >= start
  {
  }

  lemma NewFromRows(spec: MergeSpec, rows: seq<Row>, ts: Day, start: int, v: Version)
    requires v in NewVersions(spec, rows, ts, start)
    ensures v.row in rows && v.eff == ts && v.end == 99991231 && v.current
  {
    hide Sort;
    var sorted, vs := Sort(RowLe(spec.naturalKey), rows), NewVersions(spec, rows, ts, start);
    var i :| 0 <= i < |vs| && vs[i] == v;
    assert sorted[i] in multiset(sorted);
    assert sorted[i] in multiset(rows);
  }

  lemma ChangedAmongRows(spec: MergeSpec, dim: seq<Version>, rows: seq<Row>)
    ensures forall r :: r in Map(ChangedPairs(spec, dim, rows), Left()) ==> r in rows
  {
    JoinMembers(spec, rows, Current(dim));
    FilterIn(InnerJoin(spec, rows, Current(dim)), HashesDiffer(spec));
    hide Filter, InnerJoin;
    var pairs := ChangedPairs(spec, dim, rows);
    forall r | r in Map(pairs, Left()) ensures r in rows {
      var i :| 0 <= i < |pairs| && Map(pairs, Left())[i] == r;
      assert pairs[i] in pairs;
    }
  }

  lemma NewAmongRows(spec: MergeSpec, dim: seq<Version>, rows: seq<Row>)
    ensures forall r :: r in NewRows(spec, dim, rows) ==> r in rows
  {
    FilterIn(rows, KeyNotIn(spec, Map(Current(dim), VersionKeyOf(spec))));
  }

  lemma RowLeMeans(spec: MergeSpec, a: Row, b: Row)
    ensures RowLe(spec.naturalKey)(a, b) <==> KeyLe(KeyOf(spec, a), KeyOf(spec, b))
  {
  }

  /** New versions are numbered in the order of their natural keys. */
  lemma NewInKeyOrder(spec: MergeSpec, rows: seq<Row>, ts: Day, start: int, v: Version, w: Version)
    requires v in NewVersions(spec, rows, ts, start) && w in NewVersions(spec, rows, ts, start)
    ensures start <= v.sk < start + |rows|
    ensures v.sk < w.sk ==> KeyLe(KeyOf(spec, v.row), KeyOf(spec, w.row))
  {
    hide Sort, KeyLe, KeyOf, NewVersions;
    RowLeIsTotalPreorder(spec.naturalKey);
    SortSorts(RowLe(spec.naturalKey), rows);
    NewVersionAt(spec, rows, ts, start);
    var sorted, vs := Sort(RowLe(spec.naturalKey), rows), NewVersions(spec, rows, ts, start);
    var i :| 0 <= i < |vs| && vs[i] == v;
    var j :| 0 <= j < |vs| && vs[j] == w;
    if v.sk < w.sk {
      assert RowLe(spec.naturalKey)(sorted[i], sorted[j]);
      RowLeMeans(spec, sorted[i], sorted[j]);
    }
  }

  /** The key had a current version before the merge. */
  predicate WasCurrent(spec: MergeSpec, dim: seq<Version>, r: Row) {
    CurrentFor(spec, dim, KeyOf(spec, r)).Some?
  }

  /** The numbers a merge gives: all changed keys come before all new ones. */
  lemma ChangedBeforeNew(spec: MergeSpec, dim: seq<Version>, rows: seq<Row>, ts: Day, v: Version, w: Version)
    requires WellKeyed(spec, dim, rows)
    requires v in Merge(spec, dim, rows, ts) && w in Merge(spec, dim, rows, ts)
    requires v.sk >= NextSk(dim) && w.sk >= NextSk(dim)
    requires WasCurrent(spec, dim, v.row) && !WasCurrent(spec, dim, w.row)
    ensures v.sk < w.sk
  {
    hide WellKeyed, Merge, CurrentFor, KeyLe, NextSk, Filter, NewVersions, KeyOf;
    OpenedPart(spec, dim, rows, ts, v);
    OpenedPart(spec, dim, rows, ts, w);
    var revising := Filter(rows, Revises(spec, dim));
    NewInKeyOrder(spec, revising, ts, NextSk(dim), v, v);
    NewInKeyOrder(spec, Filter(rows, Introduces(spec, dim)), ts, NextSk(dim) + |revising|, w, w);
  }

  /** And within each of the two they follow the natural keys. */
  lemma NumberedByKey(spec: MergeSpec, dim: seq<Version>, rows: seq<Row>, ts: Day, v: Version, w: Version)
    requires WellKeyed(spec, dim, rows)
    requires v in Merge(spec, dim, rows, ts) && w in Merge(spec, dim, rows, ts)
    requires NextSk(dim) <= v.sk < w.sk
    requires WasCurrent(spec, dim, v.row) <==> WasCurrent(spec, dim, w.row)
    ensures KeyLe(KeyOf(spec, v.row), KeyOf(spec, w.row))
  {
    hide WellKeyed, Merge, CurrentFor, KeyLe, NextSk, Filter, NewVersions, KeyOf;
    OpenedPart(spec, dim, rows, ts, v);
    OpenedPart(spec, dim, rows, ts, w);
    var revising := Filter(rows, Revises(spec, dim));
    if WasCurrent(spec, dim, v.row) {
      NewInKeyOrder(spec, revising, ts, NextSk(dim), v, w);
    } else {
      NewInKeyOrder(spec, Filter(rows, Introduces(spec, dim)), ts, NextSk(dim) + |revising|, v, w);
    }
  }

  /** An opened version is among the revised ones if its key was current, and among the added ones otherwise. */
  lemma OpenedPart(spec: MergeSpec, dim: seq<Version>, rows: seq<Row>, ts: Day, v: Version)
    requires WellKeyed(spec, dim, rows) && v in Merge(spec, dim, rows, ts) && v.sk >= NextSk(dim)
    ensures
      var revising, adding := Filter(rows, Revises(spec, dim)), Filter(rows, Introduces(spec, dim));
      if CurrentFor(spec, dim, KeyOf(spec, v.row)).Some? then v in NewVersions(spec, revising, ts, NextSk(dim))
      else v in NewVersions(spec, adding, ts, NextSk(dim) + |revising|)
  {
    hide Filter, CurrentFor, HashOf, KeyOf, NewVersions, NextSk, FindRow, WellKeyed;
    var revising, adding := Filter(rows, Revises(spec, dim)), Filter(rows, Introduces(spec, dim));
    JoinsImplementCategories(spec, dim, rows, ts);
    OldPartsFrom(spec, dim, rows, ts);
    FilterIn(rows, Revises(spec, dim));
    FilterIn(rows, Introduces(spec, dim));
    hide JoinParts;
    var next := NextSk(dim);
    assert v in NewVersions(spec, revising, ts, next) || v in NewVersions(spec, adding, ts, next + |revising|);
    if v in NewVersions(spec, revising, ts, next) {
      NewFromRows(spec, revising, ts, NextSk(dim), v);
    } else {
      NewFromRows(spec, adding, ts, NextSk(dim) + |revising|, v);
    }
  }

  // ----- Whole runs -----

  /** One Silver run's input to the player dimension. */
  datatype Batch = Batch(rows: seq<Row>, day: Day)

  /** `build_dim_players`: the first load is dated "known since forever", later ones by their batch. */
  function EffectiveDay(dim: seq<Version>, day: Day): Day {
    if dim == [] then FAR_PAST else day
  }

  /** The dimension after a sequence of batches, each merged into the previous output. */
  function Run(spec: MergeSpec, batches: seq<Batch>): seq<Version> {
    if batches == [] then []
    else
      var n := |batches| - 1;
      var dim := Run(spec, batches[..n]);
      Merge(spec, dim, batches[n].rows, EffectiveDay(dim, batches[n].day))
  }

  /** Key-unique batches with non-decreasing days between the two sentinels. */
  ghost predicate InOrder(spec: MergeSpec, batches: seq<Batch>) {
    && (forall i :: 0 <= i < |batches| ==>
      FAR_PAST <= batches[i].day < FAR_FUTURE && KeyUnique(spec.naturalKey, batches[i].rows))
    && (forall i, j :: 0 <= i < j < |batches| ==> batches[i].day <= batches[j].day)
  }

  /** Every batch is a full snapshot of the keys that are current when it arrives. */
  ghost predicate Snapshots(spec: MergeSpec, batches: seq<Batch>) {
    forall i :: 0 <= i < |batches| ==> Covers(spec, Run(spec, batches[..i]), batches[i].rows)
  }

  function Clock(batches: seq<Batch>): Day {
    if batches == [] then FAR_PAST else batches[|batches| - 1].day
  }

  lemma ValidLater(spec: MergeSpec, dim: seq<Version>, clock: Day, later: Day)
    requires Valid(spec, dim, clock) && clock <= later
    ensures Valid(spec, dim, later)
  {
    hide Ordered, Versions;
    forall k ensures Ordered(Versions(spec, dim, k), later) {
      OrderedLater(Versions(spec, dim, k), clock, later);
    }
  }

  lemma PrefixInOrder(spec: MergeSpec, batches: seq<Batch>, i: nat)
    requires InOrder(spec, batches) && i <= |batches|
    ensures InOrder(spec, batches[..i])
    ensures Snapshots(spec, batches) ==> Snapshots(spec, batches[..i])
    ensures i < |batches| ==>
      FAR_PAST <= Clock(batches[..i]) <= batches[i].day < FAR_FUTURE && KeyUnique(spec.naturalKey, batches[i].rows)
    ensures i < |batches| && Snapshots(spec, batches) ==> Covers(spec, Run(spec, batches[..i]), batches[i].rows)
  {
    hide KeyUnique, Run, Covers;
    if Snapshots(spec, batches) {
      forall j | 0 <= j < i ensures Covers(spec, Run(spec, batches[..i][..j]), batches[..i][j].rows) {
        assert batches[..i][..j] == batches[..j];
      }
    }
  }

  /** Every run is valid: whatever the batches leave out, versions of a key never overlap. */
  lemma {:induction false} EveryRunIsValid(spec: MergeSpec, batches: seq<Batch>)
    requires InOrder(spec, batches)
    ensures Valid(spec, Run(spec, batches), Clock(batches))
  {
    hide Merge, Valid, KeyUnique, InOrder;
    if batches == [] {
      EmptyIsValid(spec, FAR_PAST);
    } else {
      var n := |batches| - 1;
      PrefixInOrder(spec, batches, n);
      EveryRunIsValid(spec, batches[..n]);
      var dim := Run(spec, batches[..n]);
      if dim == [] {
        EmptyIsValid(spec, FAR_PAST);
        MergeKeepsValid(spec, dim, batches[n].rows, FAR_PAST, FAR_PAST);
        ValidLater(spec, Run(spec, batches), FAR_PAST, batches[n].day);
      } else {
        MergeKeepsValid(spec, dim, batches[n].rows, Clock(batches[..n]), batches[n].day);
      }
    }
  }

  lemma EmptyIsValid(spec: MergeSpec, clock: Day)
    ensures Valid(spec, [], clock)
  {
    hide Versions, Ordered;
    forall q ensures Ordered(Versions(spec, [], q), clock) {
      EmptyVersions(spec, q);
      EmptyOrdered(clock);
    }
  }

  lemma EmptyOrdered(clock: Day)
    ensures Ordered([], clock)
  {
  }

  lemma EmptyIsComplete(spec: MergeSpec, clock: Day)
    ensures Complete(spec, [], clock)
  {
    hide Versions, Valid;
    EmptyIsValid(spec, clock);
    forall q ensures Versions(spec, [], q) == [] {
      EmptyVersions(spec, q);
    }
  }

  lemma EmptyVersions(spec: MergeSpec, k: seq<Value>)
    ensures Versions(spec, [], k) == []
    ensures Ordered(Versions(spec, [], k), FAR_PAST)
  {
  }

  /** A run of full snapshots keeps, for every key, an unbroken chain that ends in its one current version. */
  lemma {:induction false} SnapshotRunIsComplete(spec: MergeSpec, batches: seq<Batch>)
    requires InOrder(spec, batches) && Snapshots(spec, batches)
    ensures Complete(spec, Run(spec, batches), Clock(batches))
  {
    hide Merge, Complete, Covers, KeyUnique, InOrder, Snapshots;
    if batches == [] {
      EmptyIsComplete(spec, FAR_PAST);
    } else {
      var n := |batches| - 1;
      PrefixInOrder(spec, batches, n);
      SnapshotRunIsComplete(spec, batches[..n]);
      var dim := Run(spec, batches[..n]);
      if dim == [] {
        EmptyIsComplete(spec, FAR_PAST);
        MergeKeepsComplete(spec, dim, batches[n].rows, FAR_PAST, FAR_PAST);
        CompleteLater(spec, Run(spec, batches), FAR_PAST, batches[n].day);
      } else {
        MergeKeepsComplete(spec, dim, batches[n].rows, Clock(batches[..n]), batches[n].day);
      }
    }
  }

  lemma CompleteLater(spec: MergeSpec, dim: seq<Version>, clock: Day, later: Day)
    requires Complete(spec, dim, clock) && clock <= later
    ensures Complete(spec, dim, later)
  {
    hide Ordered, Versions;
    ValidLater(spec, dim, clock, later);
  }

  /** Along a run of full snapshots every earlier version survives and no surrogate key is reused. */
  lemma {:induction false} RunNeverRewritesHistory(spec: MergeSpec, batches: seq<Batch>, i: nat)
    requires InOrder(spec, batches) && Snapshots(spec, batches)
    requires i <= |batches|
    ensures Extends(Run(spec, batches[..i]), Run(spec, batches))
  {
    hide Merge, Valid, NextSk, Extends, InOrder, Snapshots, KeyUnique, Covers;
    var n := |batches|;
    if i == n {
      assert batches[..i] == batches;
      ExtendsReflexive(Run(spec, batches));
    } else {
      PrefixInOrder(spec, batches, n - 1);
      EveryRunIsValid(spec, batches[..n - 1]);
      RunNeverRewritesHistory(spec, batches[..n - 1], i);
      assert batches[..n - 1][..i] == batches[..i];
      var dim := Run(spec, batches[..n - 1]);
      MergeExtends(spec, dim, batches[n - 1].rows, Clock(batches[..n - 1]), EffectiveDay(dim, batches[n - 1].day));
      PrefixInOrder(spec, batches, i);
      EveryRunIsValid(spec, batches[..i]);
      PositiveSks(spec, Run(spec, batches[..i]), Clock(batches[..i]));
      ExtendsTransitive(Run(spec, batches[..i]), dim, Run(spec, batches));
    }
  }

  lemma PositiveSks(spec: MergeSpec, dim: seq<Version>, clock: Day)
    requires Valid(spec, dim, clock)
    ensures forall v :: v in dim ==> v.sk >= 1
  {
  }

  lemma ExtendsReflexive(dim: seq<Version>)
    ensures Extends(dim, dim)
  {
    forall v | v in dim ensures Retained(v, dim) && Inherited(v, dim) {
      assert SameIdentity(v, v);
    }
  }

  ghost predicate Numbered(dim: seq<Version>, sk: int) {
    exists v :: v in dim && v.sk == sk
  }

  ghost predicate NumberedFrom(dim: seq<Version>, next: int) {
    exists v :: v in dim && v.sk >= next
  }

  /** A version is dropped exactly when it is current, its key is absent, and the merge has some output. */
  predicate Dropped(spec: MergeSpec, dim: seq<Version>, rows: seq<Row>, v: Version) {
    v.current && Incoming(spec, rows, KeyOf(spec, v.row)).None? && !NoOutput(dim, rows)
  }

  /** Where the versions of a key after a merge come from, and which ones a merge opens. */
  lemma KeyStepSources(
      spec: MergeSpec, vs: seq<Version>, r: Option<Row>, clock: Day, ts: Day, next: int, nothing: bool,
      after: seq<Version>)
    requires KeyStep(spec, vs, r, ts, next, nothing, after)
    requires Ordered(vs, clock)
    requires forall v :: v in vs ==> v.sk < next
    ensures forall w :: w in after && w.sk < next ==> Numbered(vs, w.sk)
    ensures NumberedFrom(after, next) <==>
      r.Some? && (!Open(vs) || HashOf(spec, r.value) != HashOf(spec, vs[|vs| - 1].row))
  {
    hide HashOf, Ordered;
    var n := |vs|;
    assert forall i :: 0 <= i < |after| && after[i].sk < next ==> i < n && vs[i].sk == after[i].sk;
    forall w | w in after && w.sk < next ensures Numbered(vs, w.sk) {
      var i :| 0 <= i < |after| && after[i] == w;
      assert vs[i] in vs && vs[i].sk == w.sk;
    }
    if r.Some? && (!Open(vs) || HashOf(spec, r.value) != HashOf(spec, vs[n - 1].row)) {
      assert after[|after| - 1] in after && after[|after| - 1].sk >= next;
    }
  }

  /** Which versions of a key survive a merge. */
  lemma KeyStepSurvivors(
      spec: MergeSpec, vs: seq<Version>, r: Option<Row>, clock: Day, ts: Day, next: int, nothing: bool,
      after: seq<Version>)
    requires KeyStep(spec, vs, r, ts, next, nothing, after)
    requires Ordered(vs, clock)
    requires forall v :: v in vs ==> v.sk < next
    ensures forall v :: v in vs ==> Numbered(after, v.sk) || (v == vs[|vs| - 1] && v.current && r.None? && !nothing)
    ensures Open(vs) && r.None? && !nothing ==> !Numbered(after, vs[|vs| - 1].sk)
  {
    hide HashOf;
    var n := |vs|;
    forall v | v in vs && !(v == vs[n - 1] && v.current && r.None? && !nothing) ensures Numbered(after, v.sk) {
      var i :| 0 <= i < n && vs[i] == v;
      assert after[i] in after && after[i].sk == v.sk;
    }
    if Open(vs) && r.None? && !nothing {
      SksIncrease(vs, clock);
      forall w | w in after ensures w.sk != vs[n - 1].sk {
        var i :| 0 <= i < n - 1 && vs[i] == w;
      }
    }
  }

  lemma {:induction false} SksIncrease(vs: seq<Version>, clock: Day)
    requires Ordered(vs, clock)
    ensures forall i, j :: 0 <= i < j < |vs| ==> vs[i].sk < vs[j].sk
  {
    if |vs| > 1 {
      var n := |vs| - 1;
      assert Ordered(vs[..n], clock) by {
        assert forall i :: 0 <= i < n ==> vs[..n][i] == vs[i];
      }
      SksIncrease(vs[..n], clock);
      forall i, j | 0 <= i < j < |vs| ensures vs[i].sk < vs[j].sk {
        if j < n {
          assert vs[..n][i].sk < vs[..n][j].sk;
        } else if i < n - 1 {
          assert vs[..n][i].sk < vs[..n][n - 1].sk;
        }
      }
    }
  }

  lemma SourcesOfKey(spec: MergeSpec, dim: seq<Version>, rows: seq<Row>, clock: Day, ts: Day, k: seq<Value>)
    requires Valid(spec, dim, clock)
    requires KeyUnique(spec.naturalKey, rows)
    ensures
      var vs, r := Versions(spec, dim, k), Incoming(spec, rows, k);
      var after := Versions(spec, Merge(spec, dim, rows, ts), k);
      && Ordered(vs, clock)
      && (forall w :: w in after && w.sk < NextSk(dim) ==> Numbered(vs, w.sk))
      && (forall v :: v in vs ==>
        Numbered(after, v.sk) || (v == vs[|vs| - 1] && v.current && r.None? && !NoOutput(dim, rows)))
      && (Open(vs) && r.None? && !NoOutput(dim, rows) ==> !Numbered(after, vs[|vs| - 1].sk))
      && (NumberedFrom(after, NextSk(dim)) <==>
        r.Some? && (!Open(vs) || HashOf(spec, r.value) != HashOf(spec, vs[|vs| - 1].row)))
  {
    hide Filter, FindRow, Merge, NextSk, HashOf, KeyStep;
    FilterIn(dim, HasKey(spec, k));
    MergeOnKey(spec, dim, rows, clock, ts, k);
    KeyStepSources(spec, Versions(spec, dim, k), Incoming(spec, rows, k), clock, ts, NextSk(dim),
      NoOutput(dim, rows), Versions(spec, Merge(spec, dim, rows, ts), k));
    KeyStepSurvivors(spec, Versions(spec, dim, k), Incoming(spec, rows, k), clock, ts, NextSk(dim),
      NoOutput(dim, rows), Versions(spec, Merge(spec, dim, rows, ts), k));
  }

  lemma VersionSurvivesIff(
      spec: MergeSpec, dim: seq<Version>, rows: seq<Row>, clock: Day, ts: Day, v: Version)
    requires Valid(spec, dim, clock)
    requires KeyUnique(spec.naturalKey, rows)
    requires v in dim
    ensures Numbered(Merge(spec, dim, rows, ts), v.sk) <==> !Dropped(spec, dim, rows, v)
  {
    hide Filter, FindRow, Merge, NextSk, HashOf, Ordered;
    var merged, k := Merge(spec, dim, rows, ts), KeyOf(spec, v.row);
    var vs, after := Versions(spec, dim, k), Versions(spec, merged, k);
    FilterIn(dim, HasKey(spec, k));
    FilterIn(merged, HasKey(spec, k));
    SourcesOfKey(spec, dim, rows, clock, ts, k);
    if Numbered(after, v.sk) {
      var w :| w in after && w.sk == v.sk;
      assert w in merged;
    }
    if Dropped(spec, dim, rows, v) {
      CurrentIsLast(vs, clock, v);
      forall w | w in merged ensures w.sk != v.sk {
        if w.sk == v.sk {
          var j := KeyOf(spec, w.row);
          FilterIn(dim, HasKey(spec, j));
          FilterIn(merged, HasKey(spec, j));
          SourcesOfKey(spec, dim, rows, clock, ts, j);
          assert w in Versions(spec, merged, j);
          assert w.sk < NextSk(dim);
          var u :| u in Versions(spec, dim, j) && u.sk == w.sk;
          SameSkSameVersion(dim, u, v);
        }
      }
    }
  }

  lemma CurrentIsLast(vs: seq<Version>, clock: Day, v: Version)
    requires Ordered(vs, clock) && v in vs && v.current
    ensures Open(vs) && vs[|vs| - 1] == v
  {
  }

  /** A merge opens a version exactly when some incoming row does not repeat a current one. */
  lemma OpensIff(spec: MergeSpec, dim: seq<Version>, rows: seq<Row>, clock: Day, ts: Day)
    requires Valid(spec, dim, clock)
    requires KeyUnique(spec.naturalKey, rows)
    ensures NumberedFrom(Merge(spec, dim, rows, ts), NextSk(dim)) <==> exists r :: r in rows && !Repeats(spec, dim)(r)
  {
    hide Filter, FindRow, FindVersion, Merge, NextSk, HashOf, Ordered, CurrentFor;
    var merged, next := Merge(spec, dim, rows, ts), NextSk(dim);
    forall r | r in rows && !Repeats(spec, dim)(r) ensures NumberedFrom(merged, next) {
      var k := KeyOf(spec, r);
      SameKeySameRow(spec, rows, r);
      CurrentForKey(spec, dim, clock, k);
      SourcesOfKey(spec, dim, rows, clock, ts, k);
      FilterIn(merged, HasKey(spec, k));
      var w :| w in Versions(spec, merged, k) && w.sk >= next;
    }
    if NumberedFrom(merged, next) {
      var w :| w in merged && w.sk >= next;
      var k := KeyOf(spec, w.row);
      FilterIn(merged, HasKey(spec, k));
      assert w in Versions(spec, merged, k);
      SourcesOfKey(spec, dim, rows, clock, ts, k);
      CurrentForKey(spec, dim, clock, k);
      var r := Incoming(spec, rows, k).value;
      assert r in rows && !Repeats(spec, dim)(r);
    }
  }

  /**
   * The next surrogate key falls back exactly when the highest-numbered version is dropped and the batch
   * opens no version. Module Scd2Reuse says which keys are then handed out again.
   */
  lemma NextSkFallsBackIff(spec: MergeSpec, dim: seq<Version>, rows: seq<Row>, clock: Day, ts: Day, top: Version)
    requires Valid(spec, dim, clock)
    requires KeyUnique(spec.naturalKey, rows)
    requires top in dim && top.sk == NextSk(dim) - 1
    ensures NextSk(Merge(spec, dim, rows, ts)) < NextSk(dim) <==>
      Dropped(spec, dim, rows, top) && (forall r :: r in rows ==> Repeats(spec, dim)(r))
  {
    hide Filter, FindRow, Merge, NextSk, Repeats, Dropped;
    var merged := Merge(spec, dim, rows, ts);
    VersionSurvivesIff(spec, dim, rows, clock, ts, top);
    OpensIff(spec, dim, rows, clock, ts);
    SurrogateKeysStayDistinct(spec, dim, rows, clock, ts);
    PositiveSks(spec, dim, clock);
    if merged == [] {
      EmptyNextSk();
    } else {
      NextSkIsTight(merged);
    }
  }
}
