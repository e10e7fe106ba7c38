/**
 * Surrogate keys handed out twice. A batch that is not a full snapshot drops current versions, and when the
 * highest-numbered ones go, a later merge starts numbering below keys that were in use.
 */
module Scd2Reuse {
  import opened Sequences
  import opened Ordering
  import opened Wrappers
  import opened Frames
  import opened Scd2
  import opened Scd2History
  import opened Scd2Runs

  /** How many versions a merge opens. */
  function Opened(spec: MergeSpec, dim: seq<Version>, rows: seq<Row>): nat {
    |ChangedPairs(spec, dim, rows)| + |NewRows(spec, dim, rows)|
  }

  lemma NumberedConcat(a: seq<Version>, b: seq<Version>, n: int)
    ensures Numbered(a + b, n) <==> Numbered(a, n) || Numbered(b, n)
  {
    forall v ensures v in a + b <==> v in a || v in b {}
  }

  lemma NumberedNew(spec: MergeSpec, rows: seq<Row>, ts: Day, start: int, n: int)
    ensures Numbered(NewVersions(spec, rows, ts, start), n) <==> start <= n < start + |rows|
  {
    var vs := NewVersions(spec, rows, ts, start);
    if start <= n < start + |rows| {
      assert vs[n - start] in vs;
    }
  }

  /** The parts of the output that hold old versions only hold old keys. */
  lemma NumberedOld(spec: MergeSpec, dim: seq<Version>, rows: seq<Row>, ts: Day, n: int)
    ensures Numbered(Historical(dim) + Unchanged(spec, dim, rows) + ClosedOut(spec, dim, rows, ts), n) ==>
      Numbered(dim, n)
  {
    hide Historical, Unchanged, ClosedOut, NewVersions;
    OldPartsFrom(spec, dim, rows, ts);
  }

  /** The keys of a merge: no old key returns, and new keys run on from the next one without a gap. */
  lemma KeysAfterMerge(spec: MergeSpec, dim: seq<Version>, rows: seq<Row>, ts: Day, n: int)
    ensures
      var merged := Merge(spec, dim, rows, ts);
      && (n < NextSk(dim) && Numbered(merged, n) ==> Numbered(dim, n))
      && (n >= NextSk(dim) ==> (Numbered(merged, n) <==> n < NextSk(dim) + Opened(spec, dim, rows)))
  {
    hide Historical, Unchanged, ClosedOut, NewRows, ChangedPairs, NewVersions, NextSk, Numbered;
    var parts, next := JoinParts(spec, dim, rows, ts), NextSk(dim);
    var old_ := parts.historical + parts.kept + parts.closed;
    NumberedOld(spec, dim, rows, ts, n);
    NumberedConcat(old_ + parts.revised, parts.added, n);
    NumberedConcat(old_, parts.revised, n);
    NumberedNew(spec, Map(ChangedPairs(spec, dim, rows), Left()), ts, next, n);
    NumberedNew(spec, NewRows(spec, dim, rows), ts, next + |ChangedPairs(spec, dim, rows)|, n);
    NumberedBelow(dim, n);
  }

  lemma NumberedBelow(dim: seq<Version>, n: int)
    ensures Numbered(dim, n) ==> n < NextSk(dim)
  {
  }

  /** `n` numbered a version that the first merge lost, and numbers one that the second merge opened. */
  ghost predicate Reused(
      spec: MergeSpec, dim: seq<Version>, rows: seq<Row>, ts: Day, rows': seq<Row>, ts': Day, n: int)
  {
    var merged := Merge(spec, dim, rows, ts);
    Numbered(dim, n) && !Numbered(merged, n) && Numbered(Merge(spec, merged, rows', ts'), n)
  }

  /**
   * A key is handed out again by the next merge exactly when it was in use and lies among the keys that
   * merge numbers its new versions with.
   */
  lemma KeyReusedIff(
      spec: MergeSpec, dim: seq<Version>, rows: seq<Row>, ts: Day, rows': seq<Row>, ts': Day, n: int)
    ensures
      var merged := Merge(spec, dim, rows, ts);
      Reused(spec, dim, rows, ts, rows', ts', n) <==>
        Numbered(dim, n) && NextSk(merged) <= n < NextSk(merged) + Opened(spec, merged, rows')
  {
    hide Merge, Opened, NextSk, Numbered;
    var merged := Merge(spec, dim, rows, ts);
    NumberedBelow(merged, n);
    KeysAfterMerge(spec, merged, rows', ts', n);
  }

  /**
   * The very next merge hands some key out again only after the highest-numbered version was dropped by a
   * batch that opened nothing; then it depends on how many versions it opens.
   */
  lemma NextMergeReusesIff(
      spec: MergeSpec, dim: seq<Version>, rows: seq<Row>, clock: Day, ts: Day, rows': seq<Row>, ts': Day, top: Version)
    requires Valid(spec, dim, clock) && KeyUnique(spec.naturalKey, rows)
    requires top in dim && top.sk == NextSk(dim) - 1
    ensures
      var merged := Merge(spec, dim, rows, ts);
      (exists n :: Reused(spec, dim, rows, ts, rows', ts', n)) <==>
        && Dropped(spec, dim, rows, top) && (forall r :: r in rows ==> Repeats(spec, dim)(r))
        && exists n :: Numbered(dim, n) && NextSk(merged) <= n < NextSk(merged) + Opened(spec, merged, rows')
  {
    hide Merge, Opened, NextSk, Numbered, Reused, Valid, Dropped, Repeats;
    NextSkFallsBackIff(spec, dim, rows, clock, ts, top);
    var merged := Merge(spec, dim, rows, ts);
    forall n
      ensures Reused(spec, dim, rows, ts, rows', ts', n) <==>
        Numbered(dim, n) && NextSk(merged) <= n < NextSk(merged) + Opened(spec, merged, rows')
    {
      KeyReusedIff(spec, dim, rows, ts, rows', ts', n);
    }
    forall n | Numbered(dim, n) ensures n < NextSk(dim) {
      NumberedBelow(dim, n);
    }
  }

  // ----- Over whole runs -----

  /** The dimension before batch `i`. */
  function Before(spec: MergeSpec, batches: seq<Batch>, i: nat): seq<Version>
    requires i <= |batches|
  {
    Run(spec, batches[..i])
  }

  /** The key has numbered a version at some point of the run. */
  ghost predicate EverUsed(spec: MergeSpec, batches: seq<Batch>, n: int) {
    exists i :: 0 <= i <= |batches| && Numbered(Before(spec, batches, i), n)
  }

  /** The largest next key that the run has seen. */
  function HighWater(spec: MergeSpec, batches: seq<Batch>): int {
    var next := NextSk(Run(spec, batches));
    if batches == [] then next
    else
      var earlier := HighWater(spec, batches[..|batches| - 1]);
      if next < earlier then earlier else next
  }

  lemma EverUsedSnoc(spec: MergeSpec, batches: seq<Batch>, n: int)
    requires batches != []
    ensures EverUsed(spec, batches, n) <==>
      EverUsed(spec, batches[..|batches| - 1], n) || Numbered(Run(spec, batches), n)
  {
    hide Run, Numbered;
    var m := |batches| - 1;
    assert batches[..|batches|] == batches;
    forall i | 0 <= i <= m ensures Before(spec, batches, i) == Before(spec, batches[..m], i) {
      assert batches[..m][..i] == batches[..i];
    }
    if Numbered(Run(spec, batches), n) {
      assert Numbered(Before(spec, batches, |batches|), n);
    }
    if EverUsed(spec, batches[..m], n) {
      var i :| 0 <= i <= |batches[..m]| && Numbered(Before(spec, batches[..m], i), n);
      assert Numbered(Before(spec, batches, i), n);
    }
  }

  /** The largest key of a merge is one less than its next key. */
  lemma TopIsNumbered(dim: seq<Version>)
    requires NextSk(dim) > 1
    ensures Numbered(dim, NextSk(dim) - 1)
  {
    if dim != [] {
      var n := |dim| - 1;
      assert dim[n] in dim;
      if dim[n].sk < NextSk(dim[..n]) {
        TopIsNumbered(dim[..n]);
        forall v | v in dim[..n] ensures v in dim {}
      }
    }
  }

  lemma NothingUsed(spec: MergeSpec, n: int)
    ensures !EverUsed(spec, [], n) && HighWater(spec, []) == 1
  {
    assert Run(spec, []) == [];
    forall i | 0 <= i <= 0 ensures Before(spec, [], i) == [] {}
  }

  /** The keys that a run has used so far are those from 1 up to the high-water mark, without a gap. */
  lemma {:induction false} UsedIffBelowMark(spec: MergeSpec, batches: seq<Batch>, n: int)
    ensures EverUsed(spec, batches, n) <==> 1 <= n < HighWater(spec, batches)
    ensures NextSk(Run(spec, batches)) <= HighWater(spec, batches)
  {
    hide Merge, Opened, NextSk, Numbered, EverUsed;
    if batches == [] {
      NothingUsed(spec, n);
    } else {
      var m := |batches| - 1;
      var dim, rows := Run(spec, batches[..m]), batches[m].rows;
      var merged := Run(spec, batches);
      UsedIffBelowMark(spec, batches[..m], n);
      EverUsedSnoc(spec, batches, n);
      KeysAfterMerge(spec, dim, rows, EffectiveDay(dim, batches[m].day), n);
      NumberedBelow(merged, n);
      UsedNow(spec, batches[..m], n);
      if NextSk(merged) > 1 {
        TopIsNumbered(merged);
        KeysAfterMerge(spec, dim, rows, EffectiveDay(dim, batches[m].day), NextSk(merged) - 1);
      }
    }
  }

  lemma UsedNow(spec: MergeSpec, batches: seq<Batch>, n: int)
    ensures Numbered(Run(spec, batches), n) ==> EverUsed(spec, batches, n)
  {
    hide Run, Numbered;
    assert batches[..|batches|] == batches;
    assert Before(spec, batches, |batches|) == Run(spec, batches);
  }

  /** Batch `i` opens a version under a key that an earlier version has carried. */
  ghost predicate HandsOutAgain(spec: MergeSpec, batches: seq<Batch>, i: nat, n: int)
    requires i < |batches|
  {
    && EverUsed(spec, batches[..i], n)
    && !Numbered(Before(spec, batches, i), n) && Numbered(Before(spec, batches, i + 1), n)
  }

  ghost predicate ReusesAKey(spec: MergeSpec, batches: seq<Batch>, i: nat)
    requires i < |batches|
  {
    exists n :: HandsOutAgain(spec, batches, i, n)
  }

  /** Batch `i` opens a version while the next key lies below the mark. */
  predicate OpensBelowMark(spec: MergeSpec, batches: seq<Batch>, i: nat)
    requires i < |batches|
  {
    var dim := Before(spec, batches, i);
    Opened(spec, dim, batches[i].rows) > 0 && NextSk(dim) < HighWater(spec, batches[..i])
  }

  lemma BatchReusesIff(spec: MergeSpec, batches: seq<Batch>, i: nat)
    requires i < |batches|
    ensures ReusesAKey(spec, batches, i) <==> OpensBelowMark(spec, batches, i)
  {
    hide Merge, Opened, NextSk, Numbered, EverUsed, HighWater;
    var dim, rows := Before(spec, batches, i), batches[i].rows;
    var ts := EffectiveDay(dim, batches[i].day);
    assert batches[..i + 1][..i] == batches[..i];
    forall n
      ensures HandsOutAgain(spec, batches, i, n) <==>
        1 <= n < HighWater(spec, batches[..i]) && NextSk(dim) <= n < NextSk(dim) + Opened(spec, dim, rows)
    {
      UsedIffBelowMark(spec, batches[..i], n);
      KeysAfterMerge(spec, dim, rows, ts, n);
      NumberedBelow(dim, n);
    }
    if OpensBelowMark(spec, batches, i) {
      assert HandsOutAgain(spec, batches, i, NextSk(dim));
    }
  }

  /**
   * A run of any batches hands some key out twice exactly when one of its batches opens a version while the
   * next key lies below the mark, however long ago the key was lost.
   */
  lemma RunReusesIff(spec: MergeSpec, batches: seq<Batch>)
    ensures (exists i :: 0 <= i < |batches| && ReusesAKey(spec, batches, i)) <==>
      exists i :: 0 <= i < |batches| && OpensBelowMark(spec, batches, i)
  {
    hide ReusesAKey, OpensBelowMark;
    forall i | 0 <= i < |batches| ensures ReusesAKey(spec, batches, i) <==> OpensBelowMark(spec, batches, i) {
      BatchReusesIff(spec, batches, i);
    }
  }

  /** Whether a batch opens a version is known before the merge: some row repeats no current version. */
  lemma OpenedIff(spec: MergeSpec, dim: seq<Version>, rows: seq<Row>, clock: Day, ts: Day)
    requires Valid(spec, dim, clock) && KeyUnique(spec.naturalKey, rows)
    ensures Opened(spec, dim, rows) > 0 <==> exists r :: r in rows && !Repeats(spec, dim)(r)
  {
    hide Merge, Opened, NextSk, Valid, Repeats;
    var merged, next := Merge(spec, dim, rows, ts), NextSk(dim);
    OpensIff(spec, dim, rows, clock, ts);
    forall n ensures n >= next ==> (Numbered(merged, n) <==> n < next + Opened(spec, dim, rows)) {
      KeysAfterMerge(spec, dim, rows, ts, n);
    }
    if Opened(spec, dim, rows) > 0 {
      assert Numbered(merged, next);
    }
    if NumberedFrom(merged, next) {
      var v :| v in merged && v.sk >= next;
      assert Numbered(merged, v.sk);
    }
  }

  // ----- A run in which two players carry one key -----

  const A: Row := map["player_id" := Num(1.0)]
  const B: Row := map["player_id" := Num(2.0)]
  const C: Row := map["player_id" := Num(3.0)]

  /** Players 1 and 2, then player 1 alone, then players 1 and 3. */
  function ThreeBatches(day: Day): seq<Batch> {
    [Batch([A, B], day), Batch([A], day), Batch([A, C], day)]
  }

  lemma FilterPair<T(!new)>(x: T, y: T, p: T -> bool)
    ensures Filter([x, y], p) == (if p(x) then [x] else []) + (if p(y) then [y] else [])
  {
    FilterSnoc([x], y, p);
    FilterSingleton(x, p);
    assert [x] + [y] == [x, y];
  }

  lemma PlayersOrdered(spec: MergeSpec)
    requires spec.naturalKey == ["player_id"]
    ensures KeyOf(spec, A) == [Num(1.0)] && KeyOf(spec, B) == [Num(2.0)] && KeyOf(spec, C) == [Num(3.0)]
    ensures RowLe(spec.naturalKey)(A, B)
    ensures KeyUnique(spec.naturalKey, [A, B]) && KeyUnique(spec.naturalKey, [A]) && KeyUnique(spec.naturalKey, [A, C])
  {
    assert LexLe(ValueLe, [Num(1.0)], [Num(2.0)]);
    assert KeyOf(spec, A)[0] == Num(1.0) && KeyOf(spec, B)[0] == Num(2.0) && KeyOf(spec, C)[0] == Num(3.0);
    assert KeyOf(spec, A) == [Num(1.0)] && KeyOf(spec, B) == [Num(2.0)] && KeyOf(spec, C) == [Num(3.0)];
    assert Map([A, B], ProjectOf(spec.naturalKey)) == [KeyOf(spec, A), KeyOf(spec, B)];
    assert Map([A, C], ProjectOf(spec.naturalKey)) == [KeyOf(spec, A), KeyOf(spec, C)];
  }

  lemma FirstBatch(spec: MergeSpec)
    requires spec.naturalKey == ["player_id"]
    ensures Merge(spec, [], [A, B], FAR_PAST) == [Fresh(1, A, FAR_PAST), Fresh(2, B, FAR_PAST)]
  {
    hide Merge, MergeStats;
    PlayersOrdered(spec);
    InitialLoadIsMerge(spec, [A, B], FAR_PAST);
    var le := RowLe(spec.naturalKey);
    assert [A, B][1..] == [B] && [B][1..] == [];
    assert Sort(le, [B]) == [B];
    assert Sort(le, [A, B]) == [A, B];
  }

  /** The only current version of a key is the one found for it. */
  lemma OnlyCurrent(spec: MergeSpec, dim: seq<Version>, k: seq<Value>)
    requires forall v :: v in dim ==> v.current
    ensures
      var i := FindVersion(spec, dim, k);
      CurrentFor(spec, dim, k) == if i < 0 then None else Some(dim[i])
  {
    FilterAll(dim, IsCurrent());
  }

  lemma SecondTests(spec: MergeSpec)
    requires spec.naturalKey == ["player_id"]
    ensures
      var va, vb := Fresh(1, A, FAR_PAST), Fresh(2, B, FAR_PAST);
      && Kept(spec, [A])(va) && !Kept(spec, [A])(vb) && !Superseded(spec, [A])(va) && !Superseded(spec, [A])(vb)
      && !Revises(spec, [va, vb])(A) && !Introduces(spec, [va, vb])(A)
  {
    hide HashOf, CurrentFor, FindRow, FindVersion, KeyOf;
    PlayersOrdered(spec);
    var va, vb := Fresh(1, A, FAR_PAST), Fresh(2, B, FAR_PAST);
    SameKeySameRow(spec, [A], A);
    assert Incoming(spec, [A], [Num(2.0)]).None? by { OneIncoming(spec, A, [Num(2.0)]); }
    OnlyCurrent(spec, [va, vb], [Num(1.0)]);
    var i := FindVersion(spec, [va, vb], [Num(1.0)]);
    assert [va, vb][0] == va && [va, vb][1] == vb;
    assert i == 0;
  }

  lemma OneIncoming(spec: MergeSpec, r: Row, k: seq<Value>)
    ensures Incoming(spec, [r], k) == if KeyOf(spec, r) == k then Some(r) else None
  {
    var i := FindRow(spec.naturalKey, [r], k);
    assert [r][0] == r;
  }

  lemma SecondBatch(spec: MergeSpec, clock: Day, ts: Day)
    requires spec.naturalKey == ["player_id"]
    requires Valid(spec, [Fresh(1, A, FAR_PAST), Fresh(2, B, FAR_PAST)], clock)
    ensures Merge(spec, [Fresh(1, A, FAR_PAST), Fresh(2, B, FAR_PAST)], [A], ts) == [Fresh(1, A, FAR_PAST)]
  {
    hide Valid, JoinParts, Merge, MergeByCategory, Kept, Superseded, Revises, Introduces, KeyUnique, KeyOf;
    PlayersOrdered(spec);
    var va, vb := Fresh(1, A, FAR_PAST), Fresh(2, B, FAR_PAST);
    ValidIsWellKeyed(spec, [va, vb], clock, [A]);
    JoinsImplementCategories(spec, [va, vb], [A], ts);
    SecondTests(spec);
    OneKeptOneDropped(spec, va, vb, A, ts);
  }

  lemma OneKeptOneDropped(spec: MergeSpec, v: Version, w: Version, x: Row, ts: Day)
    requires v.current && w.current && Kept(spec, [x])(v) && !Superseded(spec, [x])(v)
    requires !Kept(spec, [x])(w) && !Superseded(spec, [x])(w)
    requires !Revises(spec, [v, w])(x) && !Introduces(spec, [v, w])(x)
    ensures MergeByCategory(spec, [v, w], [x], ts) == [v]
  {
    hide Filter, Kept, Superseded, Revises, Introduces, NextSk;
    FilterPair(v, w, IsHistorical());
    FilterPair(v, w, Kept(spec, [x]));
    FilterPair(v, w, Superseded(spec, [x]));
    FilterSingleton(x, Revises(spec, [v, w]));
    FilterSingleton(x, Introduces(spec, [v, w]));
    assert Categorise(spec, [v, w], [x], ts) == Parts([], [v], [], [], []);
  }

  lemma ThirdTests(spec: MergeSpec)
    requires spec.naturalKey == ["player_id"]
    ensures
      var va := Fresh(1, A, FAR_PAST);
      && Kept(spec, [A, C])(va) && !Superseded(spec, [A, C])(va)
      && !Revises(spec, [va])(A) && !Introduces(spec, [va])(A)
      && !Revises(spec, [va])(C) && Introduces(spec, [va])(C)
  {
    hide HashOf, CurrentFor, FindRow, FindVersion, KeyOf;
    PlayersOrdered(spec);
    var va := Fresh(1, A, FAR_PAST);
    SameKeySameRow(spec, [A, C], A);
    OnlyCurrent(spec, [va], [Num(1.0)]);
    OnlyCurrent(spec, [va], [Num(3.0)]);
    assert [va][0] == va;
    assert FindVersion(spec, [va], [Num(1.0)]) == 0;
    assert FindVersion(spec, [va], [Num(3.0)]) < 0;
  }

  lemma ThirdBatch(spec: MergeSpec, clock: Day, ts: Day)
    requires spec.naturalKey == ["player_id"]
    requires Valid(spec, [Fresh(1, A, FAR_PAST)], clock)
    ensures Merge(spec, [Fresh(1, A, FAR_PAST)], [A, C], ts) == [Fresh(1, A, FAR_PAST), Fresh(2, C, ts)]
  {
    hide Valid, JoinParts, Merge, MergeByCategory, KeyUnique, KeyOf;
    var va := Fresh(1, A, FAR_PAST);
    PlayersOrdered(spec);
    ValidIsWellKeyed(spec, [va], clock, [A, C]);
    JoinsImplementCategories(spec, [va], [A, C], ts);
    ThirdCategories(spec, ts);
  }

  lemma ThirdCategories(spec: MergeSpec, ts: Day)
    requires spec.naturalKey == ["player_id"]
    ensures MergeByCategory(spec, [Fresh(1, A, FAR_PAST)], [A, C], ts) == [Fresh(1, A, FAR_PAST), Fresh(2, C, ts)]
  {
    hide MergeByCategory, Kept, Superseded, Revises, Introduces;
    ThirdTests(spec);
    OneKeptOneAdded(spec, Fresh(1, A, FAR_PAST), A, C, ts);
  }

  lemma OneKeptOneAdded(spec: MergeSpec, v: Version, x: Row, y: Row, ts: Day)
    requires v.current && v.sk >= 1 && Kept(spec, [x, y])(v) && !Superseded(spec, [x, y])(v)
    requires !Revises(spec, [v])(x) && !Introduces(spec, [v])(x) && !Revises(spec, [v])(y) && Introduces(spec, [v])(y)
    ensures MergeByCategory(spec, [v], [x, y], ts) == [v, Fresh(v.sk + 1, y, ts)]
  {
    hide Categorise;
    KeptAndAdded(spec, v, x, y, ts);
  }

  lemma KeptAndAdded(spec: MergeSpec, v: Version, x: Row, y: Row, ts: Day)
    requires v.current && v.sk >= 1 && Kept(spec, [x, y])(v) && !Superseded(spec, [x, y])(v)
    requires !Revises(spec, [v])(x) && !Introduces(spec, [v])(x) && !Revises(spec, [v])(y) && Introduces(spec, [v])(y)
    ensures Categorise(spec, [v], [x, y], ts) == Parts([], [v], [], [], [Fresh(v.sk + 1, y, ts)])
  {
    hide Filter, Kept, Superseded, Revises, Introduces, NextSk, NewVersions, Fresh;
    NextAfterOne(v);
    OneNewVersion(spec, y, ts, v.sk + 1);
    FilterSingleton(v, IsHistorical());
    FilterSingleton(v, Kept(spec, [x, y]));
    FilterSingleton(v, Superseded(spec, [x, y]));
    FilterPair(x, y, Revises(spec, [v]));
    FilterPair(x, y, Introduces(spec, [v]));
    assert Filter([x, y], Revises(spec, [v])) == [] && Filter([x, y], Introduces(spec, [v])) == [y];
  }

  lemma NextAfterOne(v: Version)
    requires v.sk >= 1
    ensures NextSk([v]) == v.sk + 1
  {
    NextSkIsTight([v]);
    assert v in [v];
  }

  lemma OneNewVersion(spec: MergeSpec, r: Row, ts: Day, start: int)
    ensures NewVersions(spec, [r], ts, start) == [Fresh(start, r, ts)]
  {
    assert [r][1..] == [];
    assert Sort(RowLe(spec.naturalKey), [r]) == [r];
  }

  /** One run, one surrogate key, two players: player 2 carries key 2 before, player 3 after. */
  lemma TwoPlayersOneKey(spec: MergeSpec, day: Day)
    requires spec.naturalKey == ["player_id"] && FAR_PAST <= day < FAR_FUTURE
    ensures InOrder(spec, ThreeBatches(day))
    ensures Fresh(2, B, FAR_PAST) in Run(spec, ThreeBatches(day)[..1])
    ensures Fresh(2, C, day) in Run(spec, ThreeBatches(day))
    ensures KeyOf(spec, B) != KeyOf(spec, C)
  {
    hide Merge, Valid;
    var batches := ThreeBatches(day);
    PlayersOrdered(spec);
    FirstBatch(spec);
    assert batches[..1][..0] == [] && batches[..2][..1] == batches[..1] && batches == batches[..3];
    assert batches[..3][..2] == batches[..2];
    var va, vb := Fresh(1, A, FAR_PAST), Fresh(2, B, FAR_PAST);
    assert Run(spec, batches[..1]) == [va, vb];
    PrefixInOrder(spec, batches, 1);
    EveryRunIsValid(spec, batches[..1]);
    SecondBatch(spec, Clock(batches[..1]), day);
    assert Run(spec, batches[..2]) == [va];
    PrefixInOrder(spec, batches, 2);
    EveryRunIsValid(spec, batches[..2]);
    ThirdBatch(spec, Clock(batches[..2]), day);
    assert Run(spec, batches) == [va, Fresh(2, C, day)];
  }
}
