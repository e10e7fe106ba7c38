/**
 * Rows are conserved from Bronze to Silver: on every sound Bronze store, chains of skips included, the
 * counts a Silver run records for clubs, competitions, games and appearances add up, so reconciliation
 * reports no drift for them; for players it does exactly when the stated condition holds.
 */
module SilverTheorems {
  import opened Wrappers
  import opened Sequences
  import opened Ordering
  import opened Frames
  import opened AuditLog
  import opened BronzeStore
  import opened BronzeRuns
  import opened DqRules
  import opened DqRunner
  import opened DqConfig
  import opened SilverAudit
  import opened SilverInputs
  import opened SilverRun
  import opened Type1
  import BronzeTheorems
  import DimPlayers
  import Facts
  import Reconcile
  import Scd2
  import Scd2History
  import Scd2Laws
  import Scd2Runs
  import SilverPlayers

  /** On a sound store a batch has one file for each source. */
  lemma OneFileForSource(files: Files, w: World, clock: int, r: AuditRow)
    requires Tidy(files, w, clock) && r in w.db.rows
    ensures Sole(w.db, r.batch, r.source, r)
  {
    hide Consistent, Backed, HasOrigin, Sequenced, Filter, RowOk;
    ConsistentKeys(w.db);
    var rows, keys := w.db.rows, Map(w.db.rows, AuditLog.KeyOf());
    var i :| 0 <= i < |rows| && rows[i] == r;
    forall j | 0 <= j < |rows| && j != i ensures !OfSource(r.batch, r.source)(rows[j]) {
      assert keys[i] != keys[j];
      if OfSource(r.batch, r.source)(rows[j]) {
        SameBatchSourceSameRow(files, w, clock, rows[j], r);
      }
    }
    FilterOne(rows, OfSource(r.batch, r.source), i);
  }

  /** Silver reads a successfully ingested file back as it was, unless it was empty. */
  lemma FrameOfIngested(files: Files, w: World, clock: int, schema: Schema, r: AuditRow)
    requires Sound(files, w, clock)
    requires r in w.db.rows && Succeeded(r.status)
    ensures FrameOf(schema, w, r.batch, r.source) ==
      if files.content(r.checksum) == [] then None
      else Some(Frame(schema.columns(r.source), files.content(r.checksum)))
  {
    hide Sound, Resolve;
    ResolverIsExact(files, w, clock, r);
  }

  /** The counts an artifact of source `i` is recorded with, against its DQ result. */
  lemma FlowCounts(s: Settings, w: World, batch: string, i: nat)
    requires i < |SOURCES| && Flows(s, w, batch)[i].silver.Some?
    ensures
      var checked := Checked(s.schema, w, batch, SOURCES[i]);
      && checked.Some?
      && Flows(s, w, batch)[i].rejected == |checked.value.failing|
      && (i != PLAYERS ==> Flows(s, w, batch)[i].silver.value == |checked.value.clean.rows|)
      && (i == PLAYERS ==> Flows(s, w, batch)[i].silver.value == |MergedPlayers(s, checked.value.clean)|)
  {
    hide Checked, Build, MergedPlayers, DimClubs, DimCompetitions;
    CleanFramesHold(s.schema, w, batch, i);
    CountsOfBuild(s, CleanFrames(s.schema, w, batch, |SOURCES|), i);
    if i == CLUBS || i == COMPETITIONS {
      ReferencesArrive(s, w, batch);
    }
  }

  /** The size of the artifact of source `i`, where it is built. */
  lemma CountsOfBuild(s: Settings, clean: map<string, Frame>, i: nat)
    requires i < |SOURCES| && Counts(Build(s, clean))[i].Some?
    ensures
      var n := Counts(Build(s, clean))[i].value;
      && SOURCES[i] in clean
      && (i == CLUBS ==> n == |DimClubs(clean["clubs"].rows)|)
      && (i == COMPETITIONS ==> n == |DimCompetitions(clean["competitions"].rows, s.normalisers.country)|)
      && (i == PLAYERS ==> n == |MergedPlayers(s, clean["players"])|)
      && (i == GAMES || i == APPEARANCES ==> n == |clean[SOURCES[i]].rows|)
  {
    hide Scd2.Merge, Scd2.Validate, SilverPlayers.Incoming, SilverPlayers.PlayerFrame, DimClubs, DimCompetitions,
      HasColumns, Facts.GamesBuild, Facts.GameFact, Facts.AppearanceFact;
  }

  function MergedPlayers(s: Settings, clean: Frame): seq<Scd2.Version> {
    Scd2.Merge(s.spec, s.existing, SilverPlayers.Incoming(s.normalisers, s.pii, clean),
      Scd2Runs.EffectiveDay(s.existing, s.day))
  }

  /** Clean clubs and competitions all arrive in their dimensions. */
  lemma ReferencesArrive(s: Settings, w: World, batch: string)
    ensures
      var clubs := Checked(s.schema, w, batch, "clubs");
      clubs.Some? ==> |DimClubs(clubs.value.clean.rows)| == |clubs.value.clean.rows|
    ensures
      var competitions := Checked(s.schema, w, batch, "competitions");
      competitions.Some? ==>
        |DimCompetitions(competitions.value.clean.rows, s.normalisers.country)| == |competitions.value.clean.rows|
  {
    hide FrameOf, ContextOf, DqSpec, DimClubs, DimCompetitions, KeyUnique, RulesFor;
    var ctx := ContextOf(s.schema, w, batch);
    var clubs, competitions := FrameOf(s.schema, w, batch, "clubs"), FrameOf(s.schema, w, batch, "competitions");
    if clubs.Some? {
      CleanReferencesAreKeyed(clubs.value, ctx);
      KeyedClubsArrive(DqSpec("clubs", RulesFor("clubs"), clubs.value, ctx).clean.rows);
    }
    if competitions.Some? {
      CleanReferencesAreKeyed(competitions.value, ctx);
      KeyedCompetitionsArrive(
        DqSpec("competitions", RulesFor("competitions"), competitions.value, ctx).clean.rows, s.normalisers.country);
    }
  }

  /** DQ splits what was ingested: rejected and clean rows add up to the file's rows. */
  lemma CheckedSplits(files: Files, w: World, clock: int, s: Settings, r: AuditRow)
    requires Sound(files, w, clock) && r in w.db.rows && Succeeded(r.status)
    requires Checked(s.schema, w, r.batch, r.source).Some?
    ensures
      var result := Checked(s.schema, w, r.batch, r.source).value;
      |result.clean.rows| + |result.failing| == |files.content(r.checksum)|
  {
    hide Sound, FrameOf, ContextOf, DqSpec, RulesFor;
    FrameOfIngested(files, w, clock, s.schema, r);
    var frame := FrameOf(s.schema, w, r.batch, r.source);
    DqConservesRows(r.source, RulesFor(r.source), frame.value, ContextOf(s.schema, w, r.batch));
  }

  /** Some row of the parent file has the value. */
  ghost predicate IsParent(parents: seq<Row>, column: string, v: Value) {
    exists p :: p in parents && Get(p, column) == v
  }

  /**
   * A configured reference, exactly: a row passes its rule iff the references cannot be checked, because
   * some target's file lacks its column or the parent cannot be read, or its value is missing, or some row
   * of the parent's file has that value.
   */
  lemma ReferencePassesIff(schema: Schema, w: World, batch: string, rule: Rule, frame: Frame, i: nat)
    requires rule in RulesFor(rule.source) && rule.ForeignKey? && i < |frame.rows|
    ensures
      var parent, v := FrameOf(schema, w, batch, rule.refSource), Get(frame.rows[i], rule.column);
      Passes(rule, frame, ContextOf(schema, w, batch), i) <==>
        || LookupRaises(schema, w, batch, FK_TARGETS) || parent.None? || v.Null?
        || IsParent(parent.value.rows, rule.refColumn, v)
  {
    hide FrameOf, LookupRaises, RulesFor, FK_TARGETS;
    TargetsCoverRules(rule.source, rule);
    var target := (rule.refSource, rule.refColumn);
    var parent := FrameOf(schema, w, batch, rule.refSource);
    if parent.Some? {
      ValuesAreParents(parent.value.rows, rule.refColumn, Get(frame.rows[i], rule.column));
    }
  }

  lemma ValuesAreParents(rows: seq<Row>, column: string, v: Value)
    ensures !v.Null? ==> (v in ValuesOf(rows, column) <==> IsParent(rows, column, v))
  {
  }

  /**
   * On a sound store, through any chain of skipped files: a row breaks a configured reference exactly when
   * its value is present and no row of the parent's file has it.
   */
  lemma ReferenceBreaksIff(
      files: Files, w: World, clock: int, schema: Schema, r: AuditRow, parent: AuditRow, rule: Rule, i: nat)
    requires Sound(files, w, clock) && !LookupRaises(schema, w, r.batch, FK_TARGETS)
    requires r in w.db.rows && Succeeded(r.status) && i < |files.content(r.checksum)|
    requires parent in w.db.rows && Succeeded(parent.status) && parent.batch == r.batch
    requires files.content(parent.checksum) != []
    requires rule in RulesFor(r.source) && rule.ForeignKey? && rule.refSource == parent.source
    ensures
      var frame := FrameOf(schema, w, r.batch, r.source);
      && frame.Some? && frame.value.rows == files.content(r.checksum)
      && (var v := Get(files.content(r.checksum)[i], rule.column);
        !Passes(rule, frame.value, ContextOf(schema, w, r.batch), i) <==>
          !v.Null? && !IsParent(files.content(parent.checksum), rule.refColumn, v))
  {
    hide Sound, FrameOf, ContextOf, LookupRaises, RulesFor, FK_TARGETS, Passes, IsParent;
    TargetsCoverRules(r.source, rule);
    FrameOfIngested(files, w, clock, schema, r);
    FrameOfIngested(files, w, clock, schema, parent);
    ReferencePassesIff(schema, w, r.batch, rule, FrameOf(schema, w, r.batch, r.source).value, i);
  }

  /**
   * Referential integrity against Bronze: a clean row's reference is missing or is a value of the parent
   * file ingested in the same batch, whichever batch's partition holds it.
   */
  lemma CleanRowsHaveParents(
      files: Files, w: World, clock: int, schema: Schema, r: AuditRow, parent: AuditRow, rule: Rule, row: Row)
    requires Sound(files, w, clock) && !LookupRaises(schema, w, r.batch, FK_TARGETS)
    requires r in w.db.rows && parent in w.db.rows && Succeeded(parent.status) && parent.batch == r.batch
    requires files.content(parent.checksum) != []
    requires rule in RulesFor(r.source) && rule.ForeignKey? && rule.refSource == parent.source
    requires
      var checked := Checked(schema, w, r.batch, r.source);
      checked.Some? && row in checked.value.clean.rows
    ensures
      var v := Get(row, rule.column);
      v.Null? || IsParent(files.content(parent.checksum), rule.refColumn, v)
  {
    hide Sound, FrameOf, DqSpec, LookupRaises, RulesFor, FK_TARGETS;
    FrameOfIngested(files, w, clock, schema, parent);
    TargetsCoverRules(r.source, rule);
    var target := (rule.refSource, rule.refColumn);
    var ctx := ContextOf(schema, w, r.batch);
    assert target in ctx.lookups;
    var frame := FrameOf(schema, w, r.batch, r.source).value;
    CleanRowsReference(r.source, RulesFor(r.source), frame, ctx, rule.column, target);
  }

  /** The file's counts as a finished Silver run leaves them. */
  function Final(s: Settings, w: World, r: AuditRow, i: nat, now: int): AuditRow
    requires i < |SOURCES|
  {
    Recorded(r, Flows(s, w, r.batch)[i], now)
  }

  /** An ingested file of source `i` that Silver has not seen, and whose artifact this run builds. */
  predicate Processed(s: Settings, w: World, r: AuditRow, i: nat) {
    && r in w.db.rows && r.status.Ingested? && r.rejectedRows.None?
    && i < |SOURCES| && r.source == SOURCES[i] && Flows(s, w, r.batch)[i].silver.Some?
  }

  lemma FinalPlace(s: Settings, w: World, r: AuditRow, i: nat, now: int)
    requires i < |SOURCES|
    ensures Final(s, w, r, i, now).batch == r.batch && Final(s, w, r, i, now).source == r.source
  {
    hide Flows;
  }

  lemma ProcessedRow(s: Settings, w: World, r: AuditRow, i: nat)
    requires Processed(s, w, r, i)
    ensures r in w.db.rows && r.status.Ingested? && r.rejectedRows.None? && i < |SOURCES| && r.source == SOURCES[i]
  {
  }

  /** The columns that the builder of source `i` selects. */
  function Needed(i: nat): seq<string>
    requires i < |SOURCES|
  {
    [["club_id"], ["competition_id"], SilverPlayers.PLAYER_INPUTS, Facts.GAME_INPUTS, Facts.APPEARANCE_INPUTS][i]
  }

  /** What the builder of source `i` needs of its clean frame; appearances also need players. */
  predicate Builds(s: Settings, i: nat, clean: Frame, players: bool)
    requires i < |SOURCES|
  {
    && HasColumns(clean, Needed(i))
    && (i == PLAYERS ==>
      DimPlayers.Salted(s.pii) && Scd2.Validate(s.spec, SilverPlayers.PlayerFrame(s.normalisers, clean)).None?)
    && (i == GAMES ==> Facts.GoalsReadable(clean.rows))
    && (i == APPEARANCES ==> players)
  }

  /** What besides rows an artifact of source `i` needs. */
  predicate Buildable(s: Settings, w: World, batch: string, i: nat, clean: Frame)
    requires i < |SOURCES|
  {
    Builds(s, i, clean, Flows(s, w, batch)[PLAYERS].silver.Some?)
  }

  lemma FlowBuilt(s: Settings, w: World, batch: string, i: nat)
    requires i < |SOURCES|
    ensures
      var checked := Checked(s.schema, w, batch, SOURCES[i]);
      Flows(s, w, batch)[i].silver.Some? <==> checked.Some? && Buildable(s, w, batch, i, checked.value.clean)
  {
    hide Checked, Build, Builds;
    CleanFramesHold(s.schema, w, batch, i);
    CleanFramesHold(s.schema, w, batch, PLAYERS);
    CountBuilt(s, CleanFrames(s.schema, w, batch, |SOURCES|), PLAYERS);
    CountBuilt(s, CleanFrames(s.schema, w, batch, |SOURCES|), i);
  }

  lemma CleanFramesHold(schema: Schema, w: World, batch: string, i: nat)
    requires i < |SOURCES|
    ensures
      var clean, checked := CleanFrames(schema, w, batch, |SOURCES|), Checked(schema, w, batch, SOURCES[i]);
      && (SOURCES[i] in clean <==> checked.Some?)
      && (checked.Some? ==> clean[SOURCES[i]] == checked.value.clean)
  {
    hide Checked;
    assert SOURCES[i] in SOURCES && SOURCES[..|SOURCES|] == SOURCES;
  }

  lemma CountBuilt(s: Settings, clean: map<string, Frame>, i: nat)
    requires i < |SOURCES|
    ensures
      var a := Build(s, clean);
      Counts(a)[i].Some? <==> SOURCES[i] in clean && Builds(s, i, clean[SOURCES[i]], a.players.Some?)
  {
    hide Scd2.Merge, Scd2.Validate, DimClubs, DimCompetitions, Facts.GoalsReadable, Facts.GameFact, AppearanceFacts;
  }

  /**
   * A successfully ingested source gets its artifact exactly when its file has rows and its builder does
   * not raise; in particular an empty file fails its source.
   */
  lemma BuiltIff(files: Files, w: World, clock: int, s: Settings, r: AuditRow, i: nat)
    requires Sound(files, w, clock) && r in w.db.rows && Succeeded(r.status)
    requires i < |SOURCES| && r.source == SOURCES[i]
    ensures
      var checked := Checked(s.schema, w, r.batch, SOURCES[i]);
      && (checked.Some? <==> files.content(r.checksum) != [])
      && (Flows(s, w, r.batch)[i].silver.Some? <==> checked.Some? && Buildable(s, w, r.batch, i, checked.value.clean))
  {
    hide Sound, FrameOf, ContextOf, DqSpec, RulesFor, Flows, Buildable;
    FrameOfIngested(files, w, clock, s.schema, r);
    FlowBuilt(s, w, r.batch, i);
  }

  /** A freshly ingested clubs file with rows and an id column is such a file. */
  lemma FreshClubsAreProcessed(files: Files, s: Settings, batch: string, fp: Fingerprint, rows: seq<Row>)
    requires BronzeTheorems.LoadOk(files, batch, "clubs", Loaded(fp, rows)) && rows != []
    requires "club_id" in s.schema.columns("clubs")
    ensures
      var steps := [BronzeTheorems.Delivery(batch, "clubs", fp, rows, 1)];
      && BronzeTheorems.ValidRun(files, steps)
      && Processed(s, BronzeTheorems.RunSteps(steps), BronzeTheorems.FirstRow(batch, "clubs", fp, |rows|, 1), CLUBS)
  {
    hide Sound, Flows, Checked, BronzeTheorems.RunSteps, BronzeTheorems.ValidRun;
    var steps := [BronzeTheorems.Delivery(batch, "clubs", fp, rows, 1)];
    var r, w := BronzeTheorems.FirstRow(batch, "clubs", fp, |rows|, 1), BronzeTheorems.RunSteps(steps);
    BronzeTheorems.FirstIsValid(files, batch, "clubs", fp, rows);
    BronzeTheorems.EveryRunIsSound(files, steps);
    assert r in w.db.rows;
    BuiltIff(files, w, 1, s, r, CLUBS);
    CleanColumns(s.schema, w, batch, "clubs");
  }

  /** Checking keeps a source's columns. */
  lemma CleanColumns(schema: Schema, w: World, batch: string, source: string)
    ensures
      var checked := Checked(schema, w, batch, source);
      checked.Some? ==> checked.value.clean.columns == schema.columns(source)
  {
    hide Resolve, ContextOf, RulesFor, CleanRows;
  }

  lemma SourcesDistinct(s: Settings, w: World, batch: string)
    ensures Distinct(Map(Flows(s, w, batch), SourceOf()))
  {
    hide Checked, Build, CleanFrames;
    assert "clubs"[1] == 'l' && "competitions"[1] == 'o' && "players"[0] == 'p';
    assert "games"[0] == 'g' && "appearances"[0] == 'a';
    assert Map(Flows(s, w, batch), SourceOf()) == SOURCES;
  }

  /** After the run the file's row is the only one of its source, with the counts of its flow. */
  lemma RunRecords(files: Files, w: World, clock: int, s: Settings, r: AuditRow, i: nat, now: int)
    requires Sound(files, w, clock)
    requires r in w.db.rows && r.status.Ingested? && i < |SOURCES| && r.source == SOURCES[i]
    ensures
      var db := Record(w.db, r.batch, Flows(s, w, r.batch), now);
      Consistent(db) && Sole(db, r.batch, r.source, Final(s, w, r, i, now))
  {
    BronzeTheorems.SoundIsTidy(files, w, clock);
    BronzeTheorems.SoundConsistent(files, w, clock);
    hide Sound, Tidy, Consistent, Flows, Record, Sole;
    OneFileForSource(files, w, clock, r);
    SourcesDistinct(s, w, r.batch);
    RecordedRow(w.db, r.batch, Flows(s, w, r.batch), now, i, r);
  }

  /** Silver rows plus rejected rows equal Bronze rows, for every source but players. */
  lemma SilverConserves(files: Files, w: World, clock: int, s: Settings, r: AuditRow, i: nat, now: int)
    requires Sound(files, w, clock) && Processed(s, w, r, i) && i != PLAYERS
    ensures
      var f := Final(s, w, r, i, now);
      && f.status.Transformed? && f.silverRows.Some? && f.bronzeRows.Some?
      && Count(f.silverRows) + Count(f.rejectedRows) == Count(f.bronzeRows) == |files.content(r.checksum)|
      && !Reconcile.Fires(Reconcile.RowCountDrift, f)
  {
    hide Sound, Flows, Checked;
    BronzeTheorems.SoundRowOk(files, w, clock, r);
    FlowCounts(s, w, r.batch, i);
    CheckedSplits(files, w, clock, s, r);
  }

  /** The rows that Silver merges into the players dimension. */
  function MergeInput(s: Settings, clean: Frame): seq<Row> {
    SilverPlayers.Incoming(s.normalisers, s.pii, clean)
  }

  /** The dimension has history, or a clean player changed, or no player is clean while the dimension has some. */
  ghost predicate DimensionGrows(s: Settings, clean: Frame) {
    || Scd2Laws.HasHistory(s.existing)
    || Scd2Laws.SomeRevises(s.spec, s.existing, MergeInput(s, clean))
    || (clean.rows == [] && s.existing != [])
  }

  /** A row was rejected, and the dimension will not have as many versions as there are clean rows. */
  ghost predicate PlayersDrift(s: Settings, checked: Option<DqResult>) {
    checked.Some? && checked.value.failing != [] && DimensionGrows(s, checked.value.clean)
  }

  /** The dimension before the run meets the merge's contract. */
  ghost predicate ExistingOk(s: Settings) {
    SilverPlayers.PlayersSpec(s.spec, s.pii) && Scd2.WellKeyed(s.spec, s.existing, [])
  }

  /** Every dimension that Silver has produced does. */
  lemma ReachedIsOk(s: Settings, deliveries: seq<SilverPlayers.Delivery>)
    requires SilverPlayers.PlayersSpec(s.spec, s.pii) && SilverPlayers.DaysInOrder(deliveries)
    requires s.existing == SilverPlayers.Dimension(s.spec, s.normalisers, s.pii, deliveries)
    ensures ExistingOk(s)
  {
    hide Scd2Runs.Run, SilverPlayers.Dimension, Scd2History.Valid;
    SilverPlayers.SilverKeepsPlayersValid(s.spec, s.normalisers, s.pii, deliveries);
    SilverPlayers.NoRowsKeyed(s.spec.naturalKey);
    Scd2History.ValidIsWellKeyed(
      s.spec, s.existing, Scd2Runs.Clock(Map(deliveries, SilverPlayers.BatchOf(s.normalisers, s.pii))), []);
  }

  /**
   * Players are counted by the whole dimension, history included, so the drift rule fires on them exactly
   * under that condition, which is known before the merge.
   */
  lemma PlayersDriftIff(files: Files, w: World, clock: int, s: Settings, r: AuditRow, now: int)
    requires Sound(files, w, clock) && Processed(s, w, r, PLAYERS) && ExistingOk(s)
    ensures Reconcile.Fires(Reconcile.RowCountDrift, Final(s, w, r, PLAYERS, now)) <==>
      PlayersDrift(s, Checked(s.schema, w, r.batch, "players"))
  {
    hide Sound, Flows, Checked, MergedPlayers, DimensionGrows, ExistingOk, Reconcile.Fires, Recorded;
    BronzeTheorems.SoundRowOk(files, w, clock, r);
    FlowCounts(s, w, r.batch, PLAYERS);
    CheckedSplits(files, w, clock, s, r);
    var checked := Checked(s.schema, w, r.batch, "players");
    DriftArithmetic(s, r, Flows(s, w, r.batch)[PLAYERS], checked.value, now);
    CheckedPlayersKeyed(s.schema, w, r.batch);
    DimensionSizeIff(s, checked.value.clean);
  }

  lemma DriftArithmetic(s: Settings, r: AuditRow, f: Flow, result: DqResult, now: int)
    requires r.rejectedRows.None? && r.bronzeRows.Some? && f.silver.Some?
    requires f.rejected == |result.failing|
    requires f.silver.value == |MergedPlayers(s, result.clean)|
    requires r.bronzeRows.value == |result.clean.rows| + |result.failing|
    ensures Reconcile.Fires(Reconcile.RowCountDrift, Recorded(r, f, now)) <==>
      |result.failing| > 0 && |MergedPlayers(s, result.clean)| != |result.clean.rows|
  {
    hide MergedPlayers;
  }

  /** Every row has a player id, and no two have the same. */
  predicate Identified(rows: seq<Row>) {
    KeyUnique(["player_id"], rows) && forall p :: p in rows ==> !Get(p, "player_id").Null?
  }

  lemma CheckedPlayersKeyed(schema: Schema, w: World, batch: string)
    ensures
      var checked := Checked(schema, w, batch, "players");
      checked.Some? ==> Identified(checked.value.clean.rows)
  {
    hide FrameOf, ContextOf, DqSpec, KeyUnique, RulesFor;
    var frame := FrameOf(schema, w, batch, "players");
    if frame.Some? {
      CleanPlayersAreKeyed(frame.value, ContextOf(schema, w, batch));
    }
  }

  /** The merged dimension has another number of versions than there are clean rows iff it grew. */
  lemma DimensionSizeIff(s: Settings, clean: Frame)
    requires ExistingOk(s) && Identified(clean.rows)
    ensures |MergedPlayers(s, clean)| != |clean.rows| <==> DimensionGrows(s, clean)
  {
    hide KeyUnique, Scd2.Merge, Scd2Laws.HasHistory, Scd2Laws.SomeRevises;
    SilverPlayers.IncomingIsKeyed(s.normalisers, s.pii, clean);
    SilverPlayers.IncomingLength(s.normalisers, s.pii, clean);
    hide SilverPlayers.Incoming;
    Scd2Laws.OutputSizeIff(s.spec, s.existing, MergeInput(s, clean), Scd2Runs.EffectiveDay(s.existing, s.day));
  }

  /** A first load never drifts. */
  lemma FirstLoadNeverDrifts(s: Settings, checked: Option<DqResult>)
    requires s.existing == []
    ensures !PlayersDrift(s, checked)
  {
    hide MergeInput, Scd2.HashOf;
    assert forall k :: Scd2.CurrentFor(s.spec, [], k).None?;
  }

  // ----- What reconciliation reports -----

  lemma {:induction false} FindingComesFrom(files: seq<AuditRow>, x: Reconcile.Finding)
    ensures x in Reconcile.AllFindings(files) <==>
      exists i :: 0 <= i < |files| && x in Reconcile.FileFindings(files[i])
  {
    hide Reconcile.FileFindings;
    if files != [] {
      var n := |files| - 1;
      FindingComesFrom(files[..n], x);
      assert Reconcile.AllFindings(files) == Reconcile.AllFindings(files[..n]) + Reconcile.FileFindings(files[n]);
      forall i | 0 <= i < n ensures files[..n][i] == files[i] {}
    }
  }

  lemma FindingFields(f: AuditRow, x: Reconcile.Finding)
    requires x in Reconcile.FileFindings(f)
    ensures x == Reconcile.FindingFor(f)(x.code) && Reconcile.Fires(x.code, f)
  {
    hide Filter, Reconcile.Fires;
    FilterIn(Reconcile.CODES, Reconcile.FiresFor(f));
    var fired := Filter(Reconcile.CODES, Reconcile.FiresFor(f));
    var i :| 0 <= i < |Reconcile.FileFindings(f)| && Reconcile.FileFindings(f)[i] == x;
    assert fired[i] in fired;
  }

  lemma BatchFilesMembers(rows: seq<AuditRow>, batch: string)
    ensures forall f :: f in Reconcile.BatchFiles(rows, batch) <==> f in rows && f.batch == batch
  {
    hide Filter, Sort;
    var ofBatch := Filter(rows, Reconcile.InBatch(batch));
    FilterIn(rows, Reconcile.InBatch(batch));
    forall f ensures f in Reconcile.BatchFiles(rows, batch) <==> f in ofBatch {
      assert f in multiset(Reconcile.BatchFiles(rows, batch)) <==> f in multiset(ofBatch);
    }
  }

  /** A source with one file is reported with a code exactly when the rule fires on that file's row. */
  lemma ReportedIff(db: Db, batch: string, f: AuditRow, code: Reconcile.Code)
    requires Sole(db, batch, f.source, f)
    ensures
      var findings := Reconcile.AllFindings(Reconcile.BatchFiles(db.rows, batch));
      (exists x :: x in findings && x.source == f.source && x.code == code) <==> Reconcile.Fires(code, f)
  {
    hide Sole, Reconcile.BatchFiles, Reconcile.FileFindings, Reconcile.AllFindings, Reconcile.Fires;
    var files := Reconcile.BatchFiles(db.rows, batch);
    OnlyFileOfSource(db, batch, f);
    if Reconcile.Fires(code, f) {
      var x := Reconcile.FindingFor(f)(code);
      Reconcile.FindingIff(f, code);
      var i :| 0 <= i < |files| && files[i] == f;
      FindingComesFrom(files, x);
    }
    if x :| x in Reconcile.AllFindings(files) && x.source == f.source && x.code == code {
      FindingComesFrom(files, x);
      var i :| 0 <= i < |files| && x in Reconcile.FileFindings(files[i]);
      FindingFields(files[i], x);
      assert files[i] in files;
    }
  }

  lemma OnlyFileOfSource(db: Db, batch: string, f: AuditRow)
    requires Sole(db, batch, f.source, f)
    ensures f in Reconcile.BatchFiles(db.rows, batch)
    ensures forall g :: g in Reconcile.BatchFiles(db.rows, batch) && g.source == f.source ==> g == f
  {
    FilterIn(db.rows, OfSource(batch, f.source));
    assert f in Filter(db.rows, OfSource(batch, f.source));
    hide Filter, Reconcile.BatchFiles;
    BatchFilesMembers(db.rows, batch);
    forall g | g in db.rows && g.batch == batch && g.source == f.source ensures g == f {
      assert g in Filter(db.rows, OfSource(batch, f.source));
    }
  }

  /**
   * End to end: after any valid Bronze run and a Silver run that builds the artifact, reconciling the batch
   * reports no row-count drift for clubs, competitions, games or appearances.
   */
  lemma NoDriftReported(
      files: Files, steps: seq<BronzeTheorems.Stamped>, s: Settings, r: AuditRow, i: nat, now: int)
    requires BronzeTheorems.ValidRun(files, steps)
    requires Processed(s, BronzeTheorems.RunSteps(steps), r, i) && i != PLAYERS
    ensures
      var w := BronzeTheorems.RunSteps(steps);
      var db := Record(w.db, r.batch, Flows(s, w, r.batch), now);
      !exists x :: x in Reconcile.AllFindings(Reconcile.BatchFiles(db.rows, r.batch))
        && x.source == r.source && x.code == Reconcile.RowCountDrift
  {
    hide Sound, Flows, Record, Sole, Reconcile.AllFindings, Reconcile.BatchFiles, BronzeTheorems.RunSteps,
      BronzeTheorems.ValidRun, Reconcile.Fires, Processed, Final, Consistent;
    BronzeTheorems.EveryRunIsSound(files, steps);
    ProcessedRow(s, BronzeTheorems.RunSteps(steps), r, i);
    FinalPlace(s, BronzeTheorems.RunSteps(steps), r, i, now);
    var w, clock := BronzeTheorems.RunSteps(steps), BronzeTheorems.LastStamp(steps);
    RunRecords(files, w, clock, s, r, i, now);
    SilverConserves(files, w, clock, s, r, i, now);
    var db := Record(w.db, r.batch, Flows(s, w, r.batch), now);
    ReportedIff(db, r.batch, Final(s, w, r, i, now), Reconcile.RowCountDrift);
  }
}
