/**
 * As-of lookup of a player version. The newest-first scan with windows closed at both ends is compared
 * with half-open windows, and shown to give the same answer before and after a merge for past dates.
 */
module AsOf {
  import opened Wrappers
  import opened Sequences
  import opened Ordering
  import opened Frames
  import opened Scd2
  import opened Scd2History
  import opened Scd2Runs

  /** `sort(key=effective_date, reverse=True)`: newest first, ties in their original order. */
  function NewestFirst(): (Version, Version) -> bool {
    (a: Version, b: Version) => a.eff >= b.eff
  }

  predicate InWindow(v: Version, t: Day) {
    v.eff <= t <= v.end
  }

  /** The scan: the first version, in list order, whose window contains the date. */
  function FirstInWindow(vs: seq<Version>, t: Day): Option<Version> {
    if vs == [] then None
    else if InWindow(vs[0], t) then Some(vs[0])
    else FirstInWindow(vs[1..], t)
  }

  function SkOption(v: Option<Version>): Option<int> {
    if v.None? then None else Some(v.value.sk)
  }

  /** The surrogate key the facts use for a player's versions and a match date. */
  function LookupSk(vs: seq<Version>, t: Day): Option<int> {
    SkOption(FirstInWindow(Sort(NewestFirst(), vs), t))
  }

  // ----- What the sorted scan finds -----

  /** The containing version with the latest start; among equal starts, the one listed first. */
  function LatestStart(vs: seq<Version>, t: Day): Option<Version> {
    if vs == [] then None
    else
      var rest := LatestStart(vs[1..], t);
      if InWindow(vs[0], t) && (rest.None? || rest.value.eff <= vs[0].eff) then Some(vs[0]) else rest
  }

  lemma {:induction false} FoundInWindow(vs: seq<Version>, t: Day)
    ensures FirstInWindow(vs, t).Some? ==> FirstInWindow(vs, t).value in vs && InWindow(FirstInWindow(vs, t).value, t)
  {
    if vs != [] {
      FoundInWindow(vs[1..], t);
    }
  }

  lemma {:induction false} InsertScan(x: Version, s: seq<Version>, t: Day)
    requires SortedBy(NewestFirst(), s)
    ensures
      var found := FirstInWindow(s, t);
      FirstInWindow(Insert(NewestFirst(), x, s), t) ==
        if InWindow(x, t) && (found.None? || found.value.eff <= x.eff) then Some(x) else found
  {
    FoundInWindow(s, t);
    if s != [] {
      if NewestFirst()(x, s[0]) {
        assert ([x] + s)[1..] == s;
        assert FirstInWindow(s, t).Some? ==> FirstInWindow(s, t).value.eff <= s[0].eff;
      } else {
        InsertScan(x, s[1..], t);
        var r := [s[0]] + Insert(NewestFirst(), x, s[1..]);
        assert r[1..] == Insert(NewestFirst(), x, s[1..]);
      }
    }
  }

  lemma {:induction false} ScanFindsLatestStart(vs: seq<Version>, t: Day)
    ensures FirstInWindow(Sort(NewestFirst(), vs), t) == LatestStart(vs, t)
  {
    if vs != [] {
      ScanFindsLatestStart(vs[1..], t);
      assert TotalPreorder(NewestFirst());
      SortSorts(NewestFirst(), vs[1..]);
      InsertScan(vs[0], Sort(NewestFirst(), vs[1..]), t);
    }
  }

  /** The last version that has started by `t`, as an index; -1 if none has. */
  function LastStarted(vs: seq<Version>, t: Day): (j: int)
    ensures -1 <= j < |vs|
    ensures j >= 0 ==> vs[j].eff <= t
    ensures forall i :: j < i < |vs| ==> vs[i].eff > t
  {
    if vs == [] then -1
    else
      var n := |vs| - 1;
      if vs[n].eff <= t then n else LastStarted(vs[..n], t)
  }

  /** The intended reading: the version whose half-open window [effective, end) contains the date. */
  function HalfOpenSk(vs: seq<Version>, t: Day): Option<int> {
    var j := LastStarted(vs, t);
    if j >= 0 && t < vs[j].end then Some(vs[j].sk) else None
  }

  /** In an ordered history no other half-open window contains the date. */
  lemma HalfOpenIsUnique(vs: seq<Version>, clock: Day, t: Day, i: nat)
    requires Ordered(vs, clock) && i < |vs|
    requires vs[i].eff <= t < vs[i].end
    ensures i == LastStarted(vs, t)
  {
    StartsIncrease(vs, clock);
  }

  lemma {:induction false} StartsIncrease(vs: seq<Version>, clock: Day)
    requires Ordered(vs, clock)
    ensures forall i, j :: 0 <= i <= j < |vs| ==> vs[i].eff <= vs[j].eff
    ensures forall i, j :: 0 <= i < j < |vs| ==> vs[i].end <= vs[j].eff
  {
    if |vs| > 1 {
      var n := |vs| - 1;
      assert Ordered(vs[..n], clock) by {
        assert forall i :: 0 <= i < n ==> vs[..n][i] == vs[i];
      }
      StartsIncrease(vs[..n], clock);
      assert vs[n - 1].eff <= vs[n - 1].end <= vs[n].eff;
      forall i, j | 0 <= i < j < |vs| ensures vs[i].eff <= vs[j].eff && vs[i].end <= vs[j].eff {
        if j < n {
          assert vs[..n][i].eff <= vs[..n][j].eff && vs[..n][i].end <= vs[..n][j].eff;
        } else if i < n - 1 {
          assert vs[..n][i].eff <= vs[..n][n - 1].eff && vs[..n][i].end <= vs[..n][n - 1].eff;
        }
      }
    }
  }

  lemma {:induction false} LatestStartIs(vs: seq<Version>, t: Day, a: nat)
    requires a < |vs| && InWindow(vs[a], t)
    requires forall i :: 0 <= i < a ==> !InWindow(vs[i], t) || vs[i].eff < vs[a].eff
    requires forall i :: a < i < |vs| ==> !InWindow(vs[i], t) || vs[i].eff <= vs[a].eff
    ensures LatestStart(vs, t) == Some(vs[a])
  {
    if a == 0 {
      LatestStartBound(vs[1..], t, vs[0].eff);
    } else {
      assert forall i :: 0 <= i < |vs| - 1 ==> vs[1..][i] == vs[i + 1];
      LatestStartIs(vs[1..], t, a - 1);
    }
  }

  lemma {:induction false} LatestStartBound(vs: seq<Version>, t: Day, bound: Day)
    requires forall i :: 0 <= i < |vs| && InWindow(vs[i], t) ==> vs[i].eff <= bound
    ensures LatestStart(vs, t).Some? ==> LatestStart(vs, t).value.eff <= bound
  {
    if vs != [] {
      assert forall i :: 0 <= i < |vs| - 1 ==> vs[1..][i] == vs[i + 1];
      LatestStartBound(vs[1..], t, bound);
    }
  }

  lemma {:induction false} LatestStartNone(vs: seq<Version>, t: Day)
    requires forall i :: 0 <= i < |vs| ==> !InWindow(vs[i], t)
    ensures LatestStart(vs, t) == None
  {
    if vs != [] {
      assert forall i :: 0 <= i < |vs| - 1 ==> vs[1..][i] == vs[i + 1];
      LatestStartNone(vs[1..], t);
    }
  }

  /** The first version starting on the day the last-started version starts. */
  function FirstTied(vs: seq<Version>, j: int): (a: int)
    requires 0 <= j < |vs|
    ensures 0 <= a <= j && vs[a].eff == vs[j].eff
    ensures forall i :: a <= i <= j ==> vs[i].eff == vs[j].eff
    ensures a > 0 ==> vs[a - 1].eff != vs[j].eff
    decreases j
  {
    if j > 0 && vs[j - 1].eff == vs[j].eff then FirstTied(vs, j - 1) else j
  }

  /** What the lookup returns on an ordered history, for every date. */
  lemma LookupExplained(vs: seq<Version>, clock: Day, t: Day)
    requires Ordered(vs, clock) && clock < FAR_FUTURE
    ensures
      var j := LastStarted(vs, t);
      LookupSk(vs, t) ==
        if j < 0 || t > vs[j].end then None
        else if t == vs[j].eff then Some(vs[FirstTied(vs, j)].sk)
        else Some(vs[j].sk)
  {
    hide Sort, FirstInWindow, LatestStart;
    ScanFindsLatestStart(vs, t);
    StartsIncrease(vs, clock);
    var j := LastStarted(vs, t);
    if j < 0 || t > vs[j].end {
      LatestStartNone(vs, t);
    } else if t == vs[j].eff {
      var a := FirstTied(vs, j);
      if a < j {
        assert vs[a].end == t;
      }
      LatestStartIs(vs, t, a);
    } else {
      LatestStartIs(vs, t, j);
    }
  }

  /** Two versions of the player start on the date. */
  ghost predicate Ambiguous(vs: seq<Version>, t: Day) {
    exists i, k :: 0 <= i < k < |vs| && vs[i].eff == t && vs[k].eff == t
  }

  /** The player's latest version ended on the date and none took over. */
  predicate EndedOn(vs: seq<Version>, t: Day) {
    var j := LastStarted(vs, t);
    j >= 0 && vs[j].end == t
  }

  /**
   * The scan with both ends closed agrees with half-open windows exactly when at most one version starts
   * on the date and the last-started version does not end on it.
   */
  lemma LookupIsHalfOpenIff(vs: seq<Version>, clock: Day, t: Day)
    requires Ordered(vs, clock) && clock < FAR_FUTURE
    ensures LookupSk(vs, t) == HalfOpenSk(vs, t) <==> !Ambiguous(vs, t) && !EndedOn(vs, t)
  {
    hide LookupSk;
    LookupExplained(vs, clock, t);
    StartsIncrease(vs, clock);
    SksIncrease(vs, clock);
    var j := LastStarted(vs, t);
    if j >= 0 && t == vs[j].eff {
      var a := FirstTied(vs, j);
      if a < j {
        assert Ambiguous(vs, t);
      } else {
        forall i, k | 0 <= i < k < |vs| ensures !(vs[i].eff == t && vs[k].eff == t) {
          assert k <= j || vs[k].eff > t;
          if k <= j {
            assert vs[i].eff <= vs[j - 1].eff;
          }
        }
      }
    }
  }

  /** In a complete history nothing ends without a successor, so only equal starts can mislead the scan. */
  lemma ChainLookup(vs: seq<Version>, clock: Day, t: Day)
    requires Chain(vs, clock) && clock < FAR_FUTURE && t < FAR_FUTURE
    ensures LookupSk(vs, t) == HalfOpenSk(vs, t) <==> !Ambiguous(vs, t)
    ensures LookupSk(vs, t) == None <==> t < vs[0].eff
    ensures t >= vs[0].eff ==> HalfOpenSk(vs, t) == Some(vs[LastStarted(vs, t)].sk)
  {
    hide LookupSk;
    LookupIsHalfOpenIff(vs, clock, t);
    LookupExplained(vs, clock, t);
    StartsIncrease(vs, clock);
    var j := LastStarted(vs, t);
    if j >= 0 && j < |vs| - 1 {
      assert vs[j].end == vs[j + 1].eff > t;
    }
  }

  // ----- Strictly increasing batch days leave no ambiguity -----

  ghost predicate StrictStarts(vs: seq<Version>) {
    forall i, j :: 0 <= i < j < |vs| ==> vs[i].eff < vs[j].eff
  }

  lemma KeyStepStrict(
      spec: MergeSpec, vs: seq<Version>, r: Option<Row>, clock: Day, ts: Day, next: int, nothing: bool,
      after: seq<Version>)
    requires KeyStep(spec, vs, r, ts, next, nothing, after)
    requires Ordered(vs, clock) && clock < ts
    requires StrictStarts(vs)
    ensures StrictStarts(after)
  {
    hide HashOf;
    assert forall i :: 0 <= i < |vs| ==> vs[i].eff <= clock;
    assert forall i :: 0 <= i < |after| && i < |vs| ==> after[i].eff == vs[i].eff;
    assert forall i :: |vs| <= i < |after| ==> after[i].eff == ts;
  }

  /** Strictly increasing days, all after the far-past sentinel. */
  ghost predicate StrictDays(batches: seq<Batch>) {
    && (forall i :: 0 <= i < |batches| ==> FAR_PAST < batches[i].day)
    && (forall i, j :: 0 <= i < j < |batches| ==> batches[i].day < batches[j].day)
  }

  lemma PrefixStrict(batches: seq<Batch>, n: nat)
    requires StrictDays(batches) && n < |batches|
    ensures StrictDays(batches[..n]) && FAR_PAST < batches[n].day && Clock(batches[..n]) < batches[n].day
  {
  }

  lemma {:induction false} StrictRunHasStrictStarts(spec: MergeSpec, batches: seq<Batch>, k: seq<Value>)
    requires InOrder(spec, batches) && StrictDays(batches)
    ensures StrictStarts(Versions(spec, Run(spec, batches), k))
  {
    hide Merge, Versions, Valid, StrictStarts, StrictDays, KeyUnique, InOrder, Clock;
    if batches == [] {
      EmptyVersions(spec, k);
      NoStarts();
    } else {
      var n := |batches| - 1;
      PrefixStrict(batches, n);
      PrefixInOrder(spec, batches, n);
      EveryRunIsValid(spec, batches[..n]);
      StrictRunHasStrictStarts(spec, batches[..n], k);
      var dim := Run(spec, batches[..n]);
      if dim == [] {
        EmptyIsValid(spec, FAR_PAST - 1);
        StrictMerge(spec, dim, batches[n].rows, FAR_PAST - 1, FAR_PAST, k);
      } else {
        StrictMerge(spec, dim, batches[n].rows, Clock(batches[..n]), batches[n].day, k);
      }
    }
  }

  lemma NoStarts()
    ensures StrictStarts([])
  {
  }

  lemma StrictMerge(spec: MergeSpec, dim: seq<Version>, rows: seq<Row>, clock: Day, ts: Day, k: seq<Value>)
    requires Valid(spec, dim, clock) && KeyUnique(spec.naturalKey, rows) && clock < ts < FAR_FUTURE
    requires StrictStarts(Versions(spec, dim, k))
    ensures StrictStarts(Versions(spec, Merge(spec, dim, rows, ts), k))
  {
    hide Merge, Versions, Ordered, KeyStep, NextSk, StrictStarts;
    MergeOnKey(spec, dim, rows, clock, ts, k);
    KeyStepStrict(spec, Versions(spec, dim, k), Incoming(spec, rows, k), clock, ts,
      NextSk(dim), NoOutput(dim, rows), Versions(spec, Merge(spec, dim, rows, ts), k));
  }

  /**
   * On every run of full snapshots with strictly increasing days, the lookup is the half-open lookup for
   * every key and date, and it finds nothing exactly for unknown keys and dates before the first version.
   */
  lemma StrictRunLookup(spec: MergeSpec, batches: seq<Batch>, k: seq<Value>, t: Day)
    requires InOrder(spec, batches) && StrictDays(batches) && Snapshots(spec, batches)
    requires t < FAR_FUTURE
    ensures
      var vs := Versions(spec, Run(spec, batches), k);
      && LookupSk(vs, t) == HalfOpenSk(vs, t)
      && (LookupSk(vs, t) == None <==> vs == [] || t < vs[0].eff)
  {
    hide Merge, Versions, LookupSk, Ordered, Snapshots;
    var vs := Versions(spec, Run(spec, batches), k);
    StrictRunHasStrictStarts(spec, batches, k);
    SnapshotRunIsComplete(spec, batches);
    if vs == [] {
      NothingToFind(t);
    } else {
      ChainLookup(vs, Clock(batches), t);
    }
  }

  lemma NothingToFind(t: Day)
    ensures LookupSk([], t) == None && HalfOpenSk([], t) == None
  {
  }

  // ----- The past is stable -----

  lemma {:induction false} LatestStartSnoc(vs: seq<Version>, v: Version, t: Day)
    requires !InWindow(v, t)
    ensures LatestStart(vs + [v], t) == LatestStart(vs, t)
  {
    if vs == [] {
      assert ([] + [v])[1..] == [];
    } else {
      LatestStartSnoc(vs[1..], v, t);
      assert (vs + [v])[1..] == vs[1..] + [v];
    }
  }

  /** Closing a version changes no lookup before the closing day. */
  lemma {:induction false} LatestStartClosed(vs: seq<Version>, v: Version, ts: Day, t: Day)
    requires v.end == FAR_FUTURE && t < ts < FAR_FUTURE
    ensures
      var before, after := LatestStart(vs + [v], t), LatestStart(vs + [CloseAt(ts)(v)], t);
      && SkOption(before) == SkOption(after)
      && (before.Some? ==> before.value.eff == after.value.eff)
  {
    if vs == [] {
      assert ([] + [v])[1..] == [] && ([] + [CloseAt(ts)(v)])[1..] == [];
    } else {
      LatestStartClosed(vs[1..], v, ts, t);
      assert (vs + [v])[1..] == vs[1..] + [v];
      assert (vs + [CloseAt(ts)(v)])[1..] == vs[1..] + [CloseAt(ts)(v)];
    }
  }

  lemma PastAppend(before: seq<Version>, after: seq<Version>, r: Row, ts: Day, next: int, t: Day)
    requires Appends(before, after, r, ts, next) && t < ts
    ensures LookupSk(after, t) == LookupSk(before, t)
  {
    hide Sort, FirstInWindow;
    ScanFindsLatestStart(before, t);
    ScanFindsLatestStart(after, t);
    assert after == before + [after[|before|]];
    LatestStartSnoc(before, after[|before|], t);
  }

  lemma PastClose(front: seq<Version>, v: Version, ts: Day, t: Day)
    requires v.end == FAR_FUTURE && t < ts < FAR_FUTURE
    ensures LookupSk(front + [CloseAt(ts)(v)], t) == LookupSk(front + [v], t)
  {
    hide Sort, FirstInWindow;
    ScanFindsLatestStart(front + [v], t);
    ScanFindsLatestStart(front + [CloseAt(ts)(v)], t);
    LatestStartClosed(front, v, ts, t);
  }

  lemma KeyStepPast(
      spec: MergeSpec, vs: seq<Version>, r: Option<Row>, clock: Day, ts: Day, next: int, nothing: bool,
      after: seq<Version>, t: Day)
    requires KeyStep(spec, vs, r, ts, next, nothing, after)
    requires Ordered(vs, clock) && clock <= ts < FAR_FUTURE
    requires Open(vs) ==> r.Some?
    requires t < ts
    ensures LookupSk(after, t) == LookupSk(vs, t)
  {
    hide HashOf, LookupSk;
    if !Open(vs) {
      if r.Some? {
        PastAppend(vs, after, r.value, ts, next, t);
      }
    } else if HashOf(spec, r.value) != HashOf(spec, vs[|vs| - 1].row) {
      var n := |vs| - 1;
      PastAppend(vs[..n] + [CloseAt(ts)(vs[n])], after, r.value, ts, next, t);
      PastClose(vs[..n], vs[n], ts, t);
      assert vs == vs[..n] + [vs[n]];
    }
  }

  /** A full-snapshot merge changes no lookup of a past date: facts built later agree with facts built before. */
  lemma PastLookupsAreStable(
      spec: MergeSpec, dim: seq<Version>, rows: seq<Row>, clock: Day, ts: Day, k: seq<Value>, t: Day)
    requires Valid(spec, dim, clock)
    requires KeyUnique(spec.naturalKey, rows)
    requires Covers(spec, dim, rows)
    requires clock <= ts < FAR_FUTURE
    requires t < ts
    ensures LookupSk(Versions(spec, Merge(spec, dim, rows, ts), k), t) == LookupSk(Versions(spec, dim, k), t)
  {
    hide Filter, FindRow, Merge, NextSk, KeyStep, LookupSk;
    var vs := Versions(spec, dim, k);
    FilterIn(dim, HasKey(spec, k));
    if Open(vs) {
      assert vs[|vs| - 1] in vs;
    }
    MergeOnKey(spec, dim, rows, clock, ts, k);
    KeyStepPast(spec, vs, Incoming(spec, rows, k), clock, ts, NextSk(dim), NoOutput(dim, rows),
      Versions(spec, Merge(spec, dim, rows, ts), k), t);
  }

  /** Two batches on one day make the lookup on that day return the version that was already over. */
  lemma SameDayLookup(v: Version, w: Version, x: Version)
    requires v.eff < w.eff == v.end == w.end == x.eff
    requires v.sk < w.sk < x.sk && x.end == FAR_FUTURE && x.current && !v.current && !w.current
    requires x.eff < FAR_FUTURE
    ensures LookupSk([v, w, x], x.eff) == Some(w.sk) && HalfOpenSk([v, w, x], x.eff) == Some(x.sk)
  {
    var vs := [v, w, x];
    assert Ordered(vs, x.eff);
    LookupExplained(vs, x.eff, x.eff);
    assert FirstTied(vs, 2) == FirstTied(vs, 1) == 1;
  }

  /** A first load and two batches of one day, each with a changed row of one player. */
  function SameDayBatches(r: Row, s: Row, t: Row, first: Day, day: Day): seq<Batch> {
    [Batch([r], first), Batch([s], day), Batch([t], day)]
  }

  lemma OneRow(spec: MergeSpec, r: Row)
    ensures KeyUnique(spec.naturalKey, [r])
    ensures Incoming(spec, [r], KeyOf(spec, r)) == Some(r)
  {
    assert [r][0] == r;
  }

  /** A batch of one row with a new hash, merged into a valid dimension: the key's versions gain one. */
  lemma ReviseOne(spec: MergeSpec, dim: seq<Version>, r: Row, clock: Day, ts: Day)
    requires Valid(spec, dim, clock) && clock <= ts < FAR_FUTURE
    requires
      var vs := Versions(spec, dim, KeyOf(spec, r));
      Open(vs) && HashOf(spec, r) != HashOf(spec, vs[|vs| - 1].row)
    ensures
      var vs, merged := Versions(spec, dim, KeyOf(spec, r)), Merge(spec, dim, [r], ts);
      var n := |vs| - 1;
      && Valid(spec, merged, ts) && merged != []
      && Appends(vs[..n] + [CloseAt(ts)(vs[n])], Versions(spec, merged, KeyOf(spec, r)), r, ts, NextSk(dim))
  {
    hide Merge, Versions, Valid, HashOf, NextSk;
    OneRow(spec, r);
    MergeOnKey(spec, dim, [r], clock, ts, KeyOf(spec, r));
    MergeKeepsValid(spec, dim, [r], clock, ts);
    var after := Versions(spec, Merge(spec, dim, [r], ts), KeyOf(spec, r));
    assert after != [];
    SomeVersion(spec, Merge(spec, dim, [r], ts), KeyOf(spec, r));
  }

  lemma SomeVersion(spec: MergeSpec, dim: seq<Version>, k: seq<Value>)
    ensures Versions(spec, dim, k) != [] ==> dim != []
  {
  }

  lemma FirstOne(spec: MergeSpec, r: Row)
    ensures
      var merged := Merge(spec, [], [r], FAR_PAST);
      && Valid(spec, merged, FAR_PAST) && merged != []
      && Versions(spec, merged, KeyOf(spec, r)) == [Fresh(1, r, FAR_PAST)]
  {
    OneRow(spec, r);
    EmptyIsValid(spec, FAR_PAST - 1);
    MergeKeepsValid(spec, [], [r], FAR_PAST - 1, FAR_PAST);
    hide Merge, MergeStats, Valid;
    InitialLoadIsMerge(spec, [r], FAR_PAST);
    assert [r][1..] == [];
    assert Sort(RowLe(spec.naturalKey), [r]) == [r];
    var v := Fresh(1, r, FAR_PAST);
    assert NewVersions(spec, [r], FAR_PAST, 1) == [v];
    FilterSingleton(v, HasKey(spec, KeyOf(spec, r)));
  }

  /** After the third batch the player has three versions, the last two with equal starts. */
  lemma SameDayVersions(spec: MergeSpec, r: Row, s: Row, t: Row, first: Day, day: Day)
    requires KeyOf(spec, r) == KeyOf(spec, s) == KeyOf(spec, t)
    requires HashOf(spec, r) != HashOf(spec, s) && HashOf(spec, s) != HashOf(spec, t)
    requires FAR_PAST <= first <= day < FAR_FUTURE && FAR_PAST < day
    ensures
      var dim := Run(spec, SameDayBatches(r, s, t, first, day));
      var vs := Versions(spec, dim, KeyOf(spec, r));
      && Valid(spec, dim, day) && |vs| == 3
      && vs[0] == CloseAt(day)(Fresh(1, r, FAR_PAST)) && vs[1] == CloseAt(day)(Fresh(vs[1].sk, s, day))
      && vs[2] == Fresh(vs[2].sk, t, day)
  {
    hide Merge, Versions, Valid, HashOf, NextSk, KeyOf;
    var batches, k := SameDayBatches(r, s, t, first, day), KeyOf(spec, r);
    assert batches[..1][..0] == [] && batches[..2][..1] == batches[..1] && batches[..3] == batches;
    assert batches[..3][..2] == batches[..2];
    FirstOne(spec, r);
    var one := Merge(spec, [], [r], FAR_PAST);
    assert Run(spec, batches[..1]) == one;
    ReviseOne(spec, one, s, FAR_PAST, day);
    var two := Merge(spec, one, [s], day);
    assert Run(spec, batches[..2]) == two;
    ReviseOne(spec, two, t, day, day);
    assert Run(spec, batches) == Merge(spec, two, [t], day);
  }

  /** The run, and what its lookups on that day return: the version that the day's second batch closed. */
  lemma SameDayRun(spec: MergeSpec, r: Row, s: Row, t: Row, first: Day, day: Day)
    requires KeyOf(spec, r) == KeyOf(spec, s) == KeyOf(spec, t)
    requires HashOf(spec, r) != HashOf(spec, s) && HashOf(spec, s) != HashOf(spec, t)
    requires FAR_PAST <= first <= day < FAR_FUTURE && FAR_PAST < day
    ensures InOrder(spec, SameDayBatches(r, s, t, first, day))
    ensures
      var vs := Versions(spec, Run(spec, SameDayBatches(r, s, t, first, day)), KeyOf(spec, r));
      && |vs| == 3 && vs[1].row == s && vs[2].row == t && vs[1].sk != vs[2].sk
      && LookupSk(vs, day) == Some(vs[1].sk) && HalfOpenSk(vs, day) == Some(vs[2].sk)
  {
    hide Run, Versions, Valid, HashOf, KeyOf, KeyUnique, LookupSk, HalfOpenSk;
    OneRow(spec, r);
    OneRow(spec, s);
    OneRow(spec, t);
    SameDayVersions(spec, r, s, t, first, day);
    var dim := Run(spec, SameDayBatches(r, s, t, first, day));
    var vs := Versions(spec, dim, KeyOf(spec, r));
    VersionsOrdered(spec, dim, day, KeyOf(spec, r));
    assert vs == [vs[0], vs[1], vs[2]];
    SameDayLookup(vs[0], vs[1], vs[2]);
  }

  lemma VersionsOrdered(spec: MergeSpec, dim: seq<Version>, clock: Day, k: seq<Value>)
    requires Valid(spec, dim, clock)
    ensures Ordered(Versions(spec, dim, k), clock)
  {
  }

  /**
   * Known since forever: a player of the first load has a version for every date from 1900 on, whatever
   * snapshots follow.
   */
  lemma FirstLoadIsFound(spec: MergeSpec, batches: seq<Batch>, r: Row, t: Day)
    requires InOrder(spec, batches) && Snapshots(spec, batches) && batches != [] && r in batches[0].rows
    requires 19000101 <= t < 99991231
    ensures LookupSk(Versions(spec, Run(spec, batches), KeyOf(spec, r)), t).Some?
  {
    hide Merge, Versions, LookupSk, Ordered, Snapshots, InOrder, Extends, KeyOf;
    var dim, k := Run(spec, batches), KeyOf(spec, r);
    var vs := Versions(spec, dim, k);
    FirstVersionOf(spec, batches, r);
    RunNeverRewritesHistory(spec, batches, 1);
    var v :| v in Run(spec, batches[..1]) && v.row == r && v.eff == 19000101;
    RetainedStart(Run(spec, batches[..1]), dim, v);
    var w :| w in dim && w.row == r && w.eff == 19000101;
    VersionListed(spec, dim, w);
    SnapshotRunIsComplete(spec, batches);
    CompleteChain(spec, dim, Clock(batches), k);
    ClockBelow(spec, batches);
    ChainLookup(vs, Clock(batches), t);
    FirstStartsFirst(vs, Clock(batches), w);
  }

  lemma FirstVersionOf(spec: MergeSpec, batches: seq<Batch>, r: Row)
    requires batches != [] && r in batches[0].rows
    ensures exists v :: v in Run(spec, batches[..1]) && v.row == r && v.eff == 19000101
  {
    hide Merge, MergeStats, Sort;
    var first := batches[0];
    assert batches[..1][..0] == [] && Run(spec, []) == [];
    InitialLoadIsMerge(spec, first.rows, FAR_PAST);
    var sorted := Sort(RowLe(spec.naturalKey), first.rows);
    assert r in multiset(first.rows);
    assert r in multiset(sorted);
    var i :| 0 <= i < |sorted| && sorted[i] == r;
    assert NewVersions(spec, first.rows, FAR_PAST, 1)[i] in NewVersions(spec, first.rows, FAR_PAST, 1);
  }

  lemma RetainedStart(dim: seq<Version>, later: seq<Version>, v: Version)
    requires Extends(dim, later) && v in dim
    ensures exists w :: w in later && w.row == v.row && w.eff == v.eff
  {
    hide NextSk;
    assert Retained(v, later);
    var w :| w in later && SameIdentity(v, w);
  }

  lemma VersionListed(spec: MergeSpec, dim: seq<Version>, v: Version)
    requires v in dim
    ensures v in Versions(spec, dim, KeyOf(spec, v.row))
  {
    FilterIn(dim, HasKey(spec, KeyOf(spec, v.row)));
  }

  lemma CompleteChain(spec: MergeSpec, dim: seq<Version>, clock: Day, k: seq<Value>)
    requires Complete(spec, dim, clock) && Versions(spec, dim, k) != []
    ensures Chain(Versions(spec, dim, k), clock)
  {
  }

  lemma ClockBelow(spec: MergeSpec, batches: seq<Batch>)
    requires InOrder(spec, batches) && batches != []
    ensures Clock(batches) < FAR_FUTURE
  {
    hide KeyUnique;
  }

  lemma FirstStartsFirst(vs: seq<Version>, clock: Day, w: Version)
    requires Ordered(vs, clock) && w in vs
    ensures vs[0].eff <= w.eff
  {
    StartsIncrease(vs, clock);
  }
}
