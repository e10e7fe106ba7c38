/**
 * `run_silver` for one batch, step by step: DQ, transforming marks, artifacts, finalisation. What it
 * records in the audit database is `SilverAudit.Record` on the flows of its five sources.
 */
module SilverRun {
  import opened Wrappers
  import opened Sequences
  import opened Frames
  import opened AuditLog
  import opened AuditDao
  import opened BronzeStore
  import opened BronzeWriter
  import opened PipelineRuns
  import opened DqRules
  import opened DqRunner
  import opened DqConfig
  import opened DqReport
  import opened SilverAudit
  import opened SilverInputs
  import opened SilverPlayers
  import opened Scd2
  import opened Scd2Runs
  import opened DimPlayers
  import opened Type1
  import Calendar
  import Facts

  const SOURCES: seq<string> := ["clubs", "competitions", "players", "games", "appearances"]

  const CLUBS := 0
  const COMPETITIONS := 1
  const PLAYERS := 2
  const GAMES := 3
  const APPEARANCES := 4

  /** Configuration and the per-row lookups, with the players dimension before the run and the batch's day. */
  datatype Settings = Settings(
    schema: Schema, spec: MergeSpec, pii: Option<Pii>, normalisers: Normalisers,
    existing: seq<Version>, day: Day)

  /** The artifacts of a run; None where the builder failed. */
  datatype Artifacts = Artifacts(
    clubs: Option<seq<Row>>, competitions: Option<seq<Row>>, players: Option<seq<Version>>,
    games: Option<seq<Row>>, appearances: Option<seq<Row>>)

  // ----- What the run delivers -----

  /** `clean_bronze`: the clean frame of every source that could be read. */
  function CleanFrames(schema: Schema, w: World, batch: string, n: nat): map<string, Frame>
    requires n <= |SOURCES|
  {
    map source | source in SOURCES[..n] && Checked(schema, w, batch, source).Some? ::
      Checked(schema, w, batch, source).value.clean
  }

  /** The DQ results in source order. */
  function Results(schema: Schema, w: World, batch: string, n: nat): seq<DqResult>
    requires n <= |SOURCES|
  {
    if n == 0 then []
    else
      var result := Checked(schema, w, batch, SOURCES[n - 1]);
      Results(schema, w, batch, n - 1) + (if result.Some? then [result.value] else [])
  }

  function RejectedOf(result: Option<DqResult>): nat {
    if result.None? then 0 else |result.value.failing|
  }

  function PlayersArtifact(s: Settings, clean: Frame): Option<seq<Version>> {
    if !HasColumns(clean, PLAYER_INPUTS) || !Salted(s.pii)
      || Validate(s.spec, PlayerFrame(s.normalisers, clean)).Some? then None
    else
      var rows := SilverPlayers.Incoming(s.normalisers, s.pii, clean);
      Some(Merge(s.spec, s.existing, rows, EffectiveDay(s.existing, s.day)))
  }

  function AppearanceFacts(s: Settings, clean: Frame, players: seq<Version>): seq<Row> {
    Map(clean.rows, Facts.AppearanceFact(s.spec.hash.str, Facts.VersionIndex(players)))
  }

  /** Each artifact from its clean frame; appearances also need the players built in this run. */
  function Build(s: Settings, clean: map<string, Frame>): Artifacts {
    var players := if "players" in clean then PlayersArtifact(s, clean["players"]) else None;
    Artifacts(
      if "clubs" in clean then BuildDimClubs(clean["clubs"]) else None,
      if "competitions" in clean then BuildDimCompetitions(clean["competitions"], s.normalisers.country) else None,
      players,
      if "games" in clean && Facts.GamesBuild(clean["games"])
        then Some(Map(clean["games"].rows, Facts.GameFact(s.spec.hash.str))) else None,
      if "appearances" in clean && players.Some? && HasColumns(clean["appearances"], Facts.APPEARANCE_INPUTS)
        then Some(AppearanceFacts(s, clean["appearances"], players.value)) else None)
  }

  function CountRows<T>(rows: Option<seq<T>>): Option<nat> {
    if rows.None? then None else Some(|rows.value|)
  }

  /** The row counts of the artifacts, by source. */
  function Counts(a: Artifacts): seq<Option<nat>> {
    [CountRows(a.clubs), CountRows(a.competitions), CountRows(a.players), CountRows(a.games), CountRows(a.appearances)]
  }

  function FlowFor(result: Option<DqResult>, source: string, count: Option<nat>): Flow {
    Flow(source, RejectedOf(result), count)
  }

  /** What the run records for each source. */
  function Flows(s: Settings, w: World, batch: string): (flows: seq<Flow>)
    ensures |flows| == |SOURCES|
    ensures forall i :: 0 <= i < |SOURCES| ==> flows[i].source == SOURCES[i]
  {
    var counts := Counts(Build(s, CleanFrames(s.schema, w, batch, |SOURCES|)));
    seq(|SOURCES|, i requires 0 <= i < |SOURCES| =>
      FlowFor(Checked(s.schema, w, batch, SOURCES[i]), SOURCES[i], counts[i]))
  }

  function SumRows(counts: seq<Option<nat>>): nat {
    if counts == [] then 0
    else
      var n := |counts| - 1;
      SumRows(counts[..n]) + (if counts[n].Some? then counts[n].value else 0)
  }

  // ----- The steps -----

  /** One source: read it, check it, and record how many rows it rejects, if any. */
  method CheckSource(
      dao: Dao, lake: Lake, schema: Schema, batch: string, source: string, ctx: Context, ghost w: World, now: int)
    returns (result: Option<DqResult>)
    requires Consistent(dao.Value()) && ctx == ContextOf(schema, w, batch)
    requires FrameOf(schema, World(dao.Value(), lake.parts), batch, source) == FrameOf(schema, w, batch, source)
    modifies dao
    ensures result == Checked(schema, w, batch, source)
    ensures dao.Value() == Quarantine(old(dao.Value()), batch, FlowFor(result, source, None), now)
    ensures Consistent(dao.Value())
  {
    hide Consistent, FrameOf, ContextOf, DqSpec, Exec, RulesFor, Grows;
    var frame := FrameOf(schema, World(dao.Value(), lake.parts), batch, source);
    if frame.None? {
      return None;
    }
    var checked := RunDqForSource(source, RulesFor(source), frame.value, ctx);
    result := Some(checked);
    DoGrows(QuarantinePhase, dao.Value(), batch, FlowFor(result, source, None), now);
    if |checked.failing| > 0 {
      var _ := dao.RecordQuarantineCount(batch, source, |checked.failing|, now);
    }
  }

  /** The flows name the sources and how many rows each rejects. */
  ghost predicate FlowsReject(schema: Schema, w: World, batch: string, flows: seq<Flow>) {
    |flows| == |SOURCES| && forall i :: 0 <= i < |SOURCES| ==>
      flows[i].source == SOURCES[i] && flows[i].rejected == RejectedOf(Checked(schema, w, batch, SOURCES[i]))
  }

  /** The DQ pass over all sources. */
  method CheckSources(
      dao: Dao, lake: Lake, schema: Schema, batch: string, ctx: Context, ghost flows: seq<Flow>, now: int)
    returns (clean: map<string, Frame>, results: seq<DqResult>)
    requires Consistent(dao.Value())
    requires ctx == ContextOf(schema, World(dao.Value(), lake.parts), batch)
    requires FlowsReject(schema, World(dao.Value(), lake.parts), batch, flows)
    modifies dao
    ensures
      var w := old(World(dao.Value(), lake.parts));
      clean == CleanFrames(schema, w, batch, |SOURCES|) && results == Results(schema, w, batch, |SOURCES|)
    ensures dao.Value() == RunPhase(QuarantinePhase, old(dao.Value()), batch, flows, now)
    ensures Consistent(dao.Value())
  {
    hide Consistent, Checked, ContextOf, CleanFrames, Results, RunPhase, Quarantine, FrameOf;
    ghost var w := World(dao.Value(), lake.parts);
    clean, results := map[], [];
    NoCleanFrames(schema, w, batch);
    NoPhase(QuarantinePhase, w.db, batch, now);
    for i := 0 to |SOURCES|
      invariant clean == CleanFrames(schema, w, batch, i) && results == Results(schema, w, batch, i)
      invariant dao.Value() == RunPhase(QuarantinePhase, w.db, batch, flows[..i], now)
      invariant Consistent(dao.Value())
    {
      var source := SOURCES[i];
      PhaseStep(QuarantinePhase, w.db, batch, flows, i, now);
      QuarantineUnseen(schema, w, batch, flows[..i], now, source);
      CleanFramesStep(schema, w, batch, i);
      var result := CheckSource(dao, lake, schema, batch, source, ctx, w, now);
      SameQuarantine(
        RunPhase(QuarantinePhase, w.db, batch, flows[..i], now), batch, FlowFor(result, source, None), flows[i], now);
      if result.Some? {
        results := results + [result.value];
        clean := clean[source := result.value.clean];
      }
    }
    assert flows[..|SOURCES|] == flows;
  }

  lemma NoCleanFrames(schema: Schema, w: World, batch: string)
    ensures CleanFrames(schema, w, batch, 0) == map[] && Results(schema, w, batch, 0) == []
  {
  }

  lemma CleanFramesStep(schema: Schema, w: World, batch: string, i: nat)
    requires i < |SOURCES|
    ensures
      var result := Checked(schema, w, batch, SOURCES[i]);
      CleanFrames(schema, w, batch, i + 1) ==
        if result.Some? then CleanFrames(schema, w, batch, i)[SOURCES[i] := result.value.clean]
        else CleanFrames(schema, w, batch, i)
    ensures
      var result := Checked(schema, w, batch, SOURCES[i]);
      Results(schema, w, batch, i + 1) == Results(schema, w, batch, i) + (if result.Some? then [result.value] else [])
  {
    hide Checked;
    assert SOURCES[..i + 1] == SOURCES[..i] + [SOURCES[i]];
  }

  /** Every source is marked, whatever the marks of the others do. */
  method MarkSources(dao: Dao, batch: string, ghost flows: seq<Flow>, now: int)
    requires Consistent(dao.Value())
    requires |flows| == |SOURCES| && forall i :: 0 <= i < |SOURCES| ==> flows[i].source == SOURCES[i]
    modifies dao
    ensures dao.Value() == RunPhase(TransformPhase, old(dao.Value()), batch, flows, now)
    ensures Consistent(dao.Value())
  {
    hide Consistent, Exec, Grows;
    for i := 0 to |SOURCES|
      invariant dao.Value() == RunPhase(TransformPhase, old(dao.Value()), batch, flows[..i], now)
      invariant Consistent(dao.Value())
    {
      assert flows[..i + 1][..i] == flows[..i];
      DoGrows(TransformPhase, dao.Value(), batch, flows[i], now);
      var _ := dao.MarkTransforming(batch, SOURCES[i], now);
    }
    assert flows[..|SOURCES|] == flows;
  }

  /** `_build_dim_players`; None where it raises. */
  method BuildPlayers(s: Settings, clean: Frame) returns (players: Option<seq<Version>>)
    ensures players == PlayersArtifact(s, clean)
  {
    hide Merge, MergeStats, Validate, HasColumns, PlayerFrame;
    if !HasColumns(clean, PLAYER_INPUTS) {
      return None;
    }
    var result := BuildDimPlayers(s.spec, s.pii, PlayerFrame(s.normalisers, clean), s.existing, s.day);
    players := if result.Success? then Some(result.value.0) else None;
  }

  /** The builders in the order of the run. */
  method BuildArtifacts(s: Settings, clean: map<string, Frame>) returns (a: Artifacts)
    ensures a == Build(s, clean)
  {
    hide PlayersArtifact, BuildDimClubs, BuildDimCompetitions, HasColumns, Facts.GameFact, Facts.AppearanceFact,
      Facts.GamesBuild, Facts.VersionIndex;
    var clubs: Option<seq<Row>>, competitions: Option<seq<Row>> := None, None;
    if "clubs" in clean {
      clubs := BuildDimClubs(clean["clubs"]);
    }
    if "competitions" in clean {
      competitions := BuildDimCompetitions(clean["competitions"], s.normalisers.country);
    }
    var players: Option<seq<Version>> := None;
    if "players" in clean {
      players := BuildPlayers(s, clean["players"]);
    }
    var games: Option<seq<Row>> := None;
    if "games" in clean {
      games := Facts.BuildFactGames(s.spec.hash.str, clean["games"]);
    }
    var appearances: Option<seq<Row>> := None;
    if players.Some? && "appearances" in clean {
      appearances := Facts.BuildFactAppearances(s.spec.hash.str, clean["appearances"], players.value);
    }
    a := Artifacts(clubs, competitions, players, games, appearances);
  }

  /** Record a built artifact's count; otherwise fail each of the source's files. */
  method FinaliseSource(dao: Dao, batch: string, f: Flow, now: int)
    requires Consistent(dao.Value())
    modifies dao
    ensures dao.Value() == Finalise(old(dao.Value()), batch, f, now)
    ensures Consistent(dao.Value())
  {
    hide Consistent, Exec, FilesOf, Grows;
    DoGrows(FinalPhase, dao.Value(), batch, f, now);
    if f.silver.Some? {
      var _ := dao.RecordSilverComplete(batch, f.source, f.silver.value, now);
    } else {
      var files := FilesOf(dao.Value(), batch, f.source);
      for i := 0 to |files|
        invariant dao.Value() == FailFiles(old(dao.Value()), batch, files[..i], now)
        invariant Consistent(dao.Value())
      {
        assert files[..i + 1][..i] == files[..i];
        ExecKeepsConsistent(dao.Value(), MarkFailed(batch, files[i], "silver", ""), now);
        ConsistentKeys(dao.Value());
        dao.MarkFailed(batch, files[i], "silver", "", now);
      }
      assert files[..|files|] == files;
    }
  }

  method FinaliseSources(dao: Dao, batch: string, flows: seq<Flow>, now: int)
    requires Consistent(dao.Value())
    modifies dao
    ensures dao.Value() == RunPhase(FinalPhase, old(dao.Value()), batch, flows, now)
    ensures Consistent(dao.Value())
  {
    hide Consistent, Finalise;
    for i := 0 to |flows|
      invariant dao.Value() == RunPhase(FinalPhase, old(dao.Value()), batch, flows[..i], now)
      invariant Consistent(dao.Value())
    {
      assert flows[..i + 1][..i] == flows[..i];
      FinaliseSource(dao, batch, flows[i], now);
    }
    assert flows[..|flows|] == flows;
  }

  // ----- The run -----

  const FIRST_DATE := Calendar.Date(2018, 1, 1)
  const FINAL_DATE := Calendar.Date(2030, 12, 31)

  /** `build_dim_date` over the configured range, which cannot fail. */
  method BuildDates() returns (rows: seq<Calendar.DateRow>)
    ensures Calendar.ListsDates(rows, FIRST_DATE, Calendar.NextDay(FINAL_DATE))
  {
    hide Calendar.ListsDates, Calendar.NextDay;
    var result := Calendar.BuildDimDate(FIRST_DATE, FINAL_DATE);
    rows := result.value;
  }

  function ReportIn(): DqResult -> SourceReport {
    (r: DqResult) => ReportOf(r)
  }

  method SumCounts(counts: seq<Option<nat>>) returns (total: nat)
    ensures total == SumRows(counts)
  {
    total := 0;
    for i := 0 to |counts|
      invariant total == SumRows(counts[..i])
    {
      assert counts[..i + 1][..i] == counts[..i];
      if counts[i].Some? {
        total := total + counts[i].value;
      }
    }
    assert counts[..|counts|] == counts;
  }

  /** What the steps of a run return. */
  datatype Outputs = Outputs(artifacts: Artifacts, dates: seq<Calendar.DateRow>, report: Option<BatchSummary>)

  /** What a run on world `w` delivers. */
  ghost predicate Delivers(s: Settings, w: World, batch: string, out: Outputs) {
    var results := Results(s.schema, w, batch, |SOURCES|);
    && out.artifacts == Build(s, CleanFrames(s.schema, w, batch, |SOURCES|))
    && Calendar.ListsDates(out.dates, FIRST_DATE, Calendar.NextDay(FINAL_DATE))
    && out.report == if results == [] then None else Some(Summary(Map(results, ReportIn())))
  }

  /** The steps between `mark_started` and the verdict. */
  method Process(dao: Dao, lake: Lake, s: Settings, batch: string, now: int) returns (out: Outputs)
    requires Consistent(dao.Value())
    modifies dao
    ensures
      var w := old(World(dao.Value(), lake.parts));
      dao.Value() == Record(w.db, batch, Flows(s, w, batch), now) && Delivers(s, w, batch, out)
    ensures Consistent(dao.Value())
  {
    hide Consistent, FrameOf, ContextOf, Build, CleanFrames, Results, Summary, Lookups, LookupRaises,
      Calendar.ListsDates, Calendar.NextDay, RunPhase;
    ghost var w := World(dao.Value(), lake.parts);
    ghost var flows := Flows(s, w, batch);
    var ctx := ReadContext(dao, lake, s.schema, batch);
    var clean, results := CheckSources(dao, lake, s.schema, batch, ctx, flows, now);
    var report: Option<BatchSummary> := None;
    if |results| > 0 {
      var summary := BuildBatchReport(Map(results, ReportIn()));
      report := Some(summary);
    }
    MarkSources(dao, batch, flows, now);
    var artifacts := BuildArtifacts(s, clean);
    var dates := BuildDates();
    var finals := FinalFlows(artifacts);
    FinalFlowsAgree(dao.Value(), batch, flows, finals, now);
    FinaliseSources(dao, batch, finals, now);
    out := Outputs(artifacts, dates, report);
  }

  /** The row of a finished layer. */
  ghost predicate Verdict(runs: Runs, batch: string, out: Outputs, status: LayerStatus)
    reads runs
  {
    var counts := Counts(out.artifacts);
    && status == (if None in counts then LayerFailed else LayerSuccess)
    && (runs.HasSucceeded(batch, "silver") <==> status == LayerSuccess)
    && (status == LayerSuccess ==> runs.table[(batch, "silver")].rowsOut == Some(SumRows(counts) + |out.dates|))
  }

  method Conclude(runs: Runs, batch: string, out: Outputs, now: int) returns (status: LayerStatus)
    requires (batch, "silver") in runs.table && !runs.HasSucceeded(batch, "silver")
    modifies runs
    ensures Verdict(runs, batch, out, status)
  {
    var counts := Counts(out.artifacts);
    if None in counts {
      runs.MarkFailed(batch, "silver", "", now);
      status := LayerFailed;
    } else {
      var total := SumCounts(counts);
      runs.MarkSuccess(batch, "silver", total + |out.dates|, total + |out.dates|, now);
      status := LayerSuccess;
    }
  }

  /**
   * `run_silver`: a batch that already succeeded is skipped. Otherwise the audit database ends as
   * `Record` says for the flows of the batch, and the layer succeeds iff every artifact was built.
   */
  method RunSilver(dao: Dao, lake: Lake, runs: Runs, s: Settings, batch: string, skipIfSucceeded: bool, now: int)
    returns (status: LayerStatus, out: Option<Outputs>)
    requires Consistent(dao.Value())
    modifies dao, runs
    ensures out.None? <==> skipIfSucceeded && old(runs.HasSucceeded(batch, "silver"))
    ensures out.None? ==> status == LayerSkipped && dao.Value() == old(dao.Value()) && runs.table == old(runs.table)
    ensures out.Some? ==>
      var w := old(World(dao.Value(), lake.parts));
      && dao.Value() == Record(w.db, batch, Flows(s, w, batch), now)
      && Delivers(s, w, batch, out.value)
      && Verdict(runs, batch, out.value, status)
    ensures Consistent(dao.Value())
  {
    hide Consistent, Record, Delivers, Flows;
    if skipIfSucceeded && runs.HasSucceeded(batch, "silver") {
      return LayerSkipped, None;
    }
    runs.MarkStarted(batch, "silver", now);
    var outputs := Process(dao, lake, s, batch, now);
    status := Conclude(runs, batch, outputs, now);
    out := Some(outputs);
  }

  /** `build_fk_lookups`, falling back to no lookups when it raises. */
  method ReadContext(dao: Dao, lake: Lake, schema: Schema, batch: string) returns (ctx: Context)
    ensures ctx == ContextOf(schema, World(dao.Value(), lake.parts), batch)
  {
    hide Lookups, LookupRaises;
    var lookups := BuildFkLookups(dao, lake, schema, batch);
    ctx := Context(if lookups.None? then map[] else lookups.value, schema.parseFloat);
  }

  /** What finalisation looks at: source and count. */
  function FinalFlows(a: Artifacts): (flows: seq<Flow>)
    ensures |flows| == |SOURCES|
  {
    var counts := Counts(a);
    seq(|SOURCES|, i requires 0 <= i < |SOURCES| => Flow(SOURCES[i], 0, counts[i]))
  }

  lemma {:induction false} FinalFlowsAgree(db: Db, batch: string, a: seq<Flow>, b: seq<Flow>, now: int)
    requires |a| == |b|
    requires forall i :: 0 <= i < |a| ==> a[i].source == b[i].source && a[i].silver == b[i].silver
    ensures RunPhase(FinalPhase, db, batch, a, now) == RunPhase(FinalPhase, db, batch, b, now)
  {
    if a != [] {
      FinalFlowsAgree(db, batch, a[..|a| - 1], b[..|b| - 1], now);
    }
  }

  /** The rows of a layer add up over its artifacts. */
  lemma {:induction false} RowsAdd(a: seq<Option<nat>>, b: seq<Option<nat>>)
    ensures SumRows(a + b) == SumRows(a) + SumRows(b)
  {
    if b == [] {
      assert a + b == a;
    } else {
      var n := |b| - 1;
      RowsAdd(a, b[..n]);
      var ab := a + b;
      assert ab[..|ab| - 1] == a + b[..n] && ab[|ab| - 1] == b[n];
    }
  }

  lemma RowsOfOne(n: nat)
    ensures SumRows([]) == 0 && SumRows([Some(n)]) == n && SumRows([None]) == 0
  {
    assert [Some(n)][..0] == [];
    var none: seq<Option<nat>> := [None];
    assert none[..0] == [];
  }

  function CheckedOf(schema: Schema, w: World, batch: string): string -> Option<DqResult> {
    (source: string) => Checked(schema, w, batch, source)
  }

  function HasResult(f: string -> Option<DqResult>): string -> bool {
    (source: string) => f(source).Some?
  }

  /** The results are, in order, those of the sources that have one; `ks` are their positions. */
  ghost predicate Collects(
      sources: seq<string>, f: string -> Option<DqResult>, ks: seq<nat>, results: seq<DqResult>)
  {
    && Lists(sources, HasResult(f), ks) && |results| == |ks|
    && forall m :: 0 <= m < |ks| ==> ks[m] < |sources| && f(sources[ks[m]]) == Some(results[m])
  }

  lemma SameTest(f: string -> Option<DqResult>, source: string)
    ensures HasResult(f)(source) <==> f(source).Some?
  {
  }

  lemma CollectsSnoc(
      sources: seq<string>, last: string, f: string -> Option<DqResult>, ks: seq<nat>, results: seq<DqResult>)
    requires Collects(sources, f, ks, results)
    ensures Collects(
      sources + [last], f, if f(last).Some? then ks + [|sources|] else ks,
      results + (if f(last).Some? then [f(last).value] else []))
  {
    ListsSnoc(sources, last, HasResult(f), ks);
    hide Lists, HasResult;
    var found := f(last).Some?;
    var more := if found then ks + [|sources|] else ks;
    var all := results + (if found then [f(last).value] else []);
    forall m | 0 <= m < |more|
      ensures more[m] < |sources| + 1 && f((sources + [last])[more[m]]) == Some(all[m])
    {
      if m < |ks| {
        assert more[m] == ks[m] && all[m] == results[m];
        assert (sources + [last])[ks[m]] == sources[ks[m]];
      } else {
        assert (sources + [last])[|sources|] == last;
      }
    }
    assert Lists(sources + [last], HasResult(f), more) by { SameTest(f, last); }
  }

  lemma CollectsNothing(f: string -> Option<DqResult>)
    ensures Collects([], f, [], [])
  {
    ListsNothing(HasResult(f));
  }

  lemma ResultsStep(schema: Schema, w: World, batch: string, n: nat)
    requires 0 < n <= |SOURCES|
    ensures
      var result := Checked(schema, w, batch, SOURCES[n - 1]);
      Results(schema, w, batch, n) == Results(schema, w, batch, n - 1) + (if result.Some? then [result.value] else [])
    ensures SOURCES[..n] == SOURCES[..n - 1] + [SOURCES[n - 1]]
  {
    hide Checked;
  }

  /** One DQ result for each source that could be read, in source order. */
  lemma {:induction false} ResultsInOrder(schema: Schema, w: World, batch: string, n: nat) returns (ks: seq<nat>)
    requires n <= |SOURCES|
    ensures Collects(SOURCES[..n], CheckedOf(schema, w, batch), ks, Results(schema, w, batch, n))
  {
    hide Checked, Collects;
    var f := CheckedOf(schema, w, batch);
    if n == 0 {
      ks := [];
      CollectsNothing(f);
      assert SOURCES[..0] == [];
    } else {
      var before := ResultsInOrder(schema, w, batch, n - 1);
      hide Results;
      ResultsStep(schema, w, batch, n);
      CollectsSnoc(SOURCES[..n - 1], SOURCES[n - 1], f, before, Results(schema, w, batch, n - 1));
      ks := if f(SOURCES[n - 1]).Some? then before + [n - 1] else before;
    }
  }
}
