/** One batch with a player and an appearance, from the files to the fact: the end-to-end results have inputs. */
module ChainExamples {
  import opened Wrappers
  import opened Sequences
  import opened Frames
  import opened AuditLog
  import opened BronzeStore
  import opened BronzeRuns
  import opened BronzeTheorems
  import opened BronzeFailures
  import opened Calendar
  import opened DqRules
  import opened DqRunner
  import opened DqConfig
  import opened Scd2
  import opened Scd2Runs
  import opened SilverPlayers
  import opened SilverInputs
  import opened SilverRun
  import opened SilverTheorems
  import opened SilverChain
  import opened SilverExamples
  import AsOf
  import Facts
  import Scd2History
  import Scd2Partitions

  const APPEARANCE_COLUMNS: seq<string> := ["appearance_id", "player_id", "game_id", "date"]

  /** The player of `MOVED` played on a day. */
  function Played(d: Date): Row
    requires ValidDate(d)
  {
    map["appearance_id" := Num(1.0), "player_id" := Num(7.0), "game_id" := Num(3.0), "date" := Text(Iso(d))]
  }

  function Columns(source: string): seq<string> {
    if source == "players" then PLAYER_COLUMNS
    else if source == "appearances" then APPEARANCE_COLUMNS
    else []
  }

  /** The configuration, before any run. */
  function Base(parseFloat: string -> Option<real>, n: Normalisers): Settings {
    Settings(SilverInputs.Schema.Schema(Columns, parseFloat), PLAYERS_SPEC, None, n, [], 0)
  }

  /** The files of one batch. */
  datatype Match = Match(batch: string, players: Fingerprint, appearances: Fingerprint, date: Date)
  {
    predicate Fits(files: Files) {
      && ValidDate(date) && date != LAST_DATE && Scd2History.FAR_PAST <= DateKey(date)
      && LoadOk(files, batch, "players", Loaded(players, [MOVED]))
      && LoadOk(files, batch, "appearances", Loaded(appearances, [Played(date)]))
    }

    function Steps(): seq<Stamped>
      requires ValidDate(date)
    {
      [BronzeTheorems.Delivery(batch, "players", players, [MOVED], 1),
       BronzeTheorems.Delivery(batch, "appearances", appearances, [Played(date)], 2)]
    }

    function PlayersFile(): AuditRow {
      FirstRow(batch, "players", players, 1, 1)
    }

    function AppearancesFile(): AuditRow {
      FirstRow(batch, "appearances", appearances, 1, 2)
    }
  }

  lemma NamesDiffer()
    ensures "players" != "appearances" && "clubs" != "players" && "clubs" != "appearances"
    ensures "competitions" != "players" && "competitions" != "appearances"
    ensures "games" != "players" && "games" != "appearances"
  {
    assert "clubs"[0] == 'c' && "competitions"[0] == 'c' && "games"[0] == 'g' && "players"[0] == 'p';
    assert "appearances"[0] == 'a';
  }

  /** After the deliveries both files are ingested, each in its own partition. */
  lemma BothIngested(files: Files, m: Match)
    requires PathsDistinct(files) && m.Fits(files)
    ensures
      var w := RunSteps(m.Steps());
      && ValidRun(files, m.Steps()) && LastStamp(m.Steps()) == 2
      && w.db.rows == [m.PlayersFile(), m.AppearancesFile()]
  {
    hide LoadOk, WriteSource, RunSteps, ValidRun, LastStamp, Prior, Sound;
    NamesDiffer();
    var first, second := m.Steps()[0], m.Steps()[1];
    FirstIsValid(files, m.batch, "players", m.players, [MOVED]);
    EveryRunIsSound(files, [first]);
    var w := RunSteps([first]);
    PathsOf(files, m);
    assert AllowedBatch(w.db.rows, m.batch);
    assert [first] + [second] == m.Steps();
    LastOf(m.Steps(), 2);
    assert m.Steps()[..2] == m.Steps();
    DeliveryAppends(files, w, 1, m.batch, "appearances", m.appearances, [Played(m.date)], 2);
    StepOnto(files, [first], second);
  }

  lemma PathsOf(files: Files, m: Match)
    requires PathsDistinct(files) && m.Fits(files)
    ensures m.players.path != m.appearances.path
  {
    NamesDiffer();
  }

  /** What Silver reads: these two frames, and nothing for the other sources. */
  ghost predicate Reads(schema: Schema, w: World, batch: string, d: Date)
    requires ValidDate(d)
  {
    && FrameOf(schema, w, batch, "players") == Some(Frame(PLAYER_COLUMNS, [MOVED]))
    && FrameOf(schema, w, batch, "appearances") == Some(Frame(APPEARANCE_COLUMNS, [Played(d)]))
    && FrameOf(schema, w, batch, "clubs").None?
    && FrameOf(schema, w, batch, "competitions").None?
    && FrameOf(schema, w, batch, "games").None?
  }

  lemma NotRead(files: Files, w: World, clock: int, schema: Schema, batch: string, source: string)
    requires Sound(files, w, clock) && forall r :: r in w.db.rows ==> r.source != source
    requires (source, batch) !in w.parts
    ensures FrameOf(schema, w, batch, source).None?
  {
    hide Sound, Resolve, MostRecentForSource;
    ResolverIsTotal(files, w, clock, source, batch);
    CurrentIsSuccess(w.db.rows, source, batch);
  }

  lemma NoStrayPartition(files: Files, w: World, clock: int, batch: string, source: string)
    requires Sound(files, w, clock) && forall r :: r in w.db.rows ==> r.source != source
    ensures (source, batch) !in w.parts
  {
  }

  lemma FilesRead(files: Files, m: Match, w: World, schema: Schema)
    requires m.Fits(files) && schema.columns == Columns
    requires Sound(files, w, 2) && w.db.rows == [m.PlayersFile(), m.AppearancesFile()]
    ensures FrameOf(schema, w, m.batch, "players") == Some(Frame(PLAYER_COLUMNS, [MOVED]))
    ensures FrameOf(schema, w, m.batch, "appearances") == Some(Frame(APPEARANCE_COLUMNS, [Played(m.date)]))
  {
    hide LoadOk, Sound, FrameOf, Played;
    NamesDiffer();
    assert w.db.rows[0] == m.PlayersFile() && w.db.rows[1] == m.AppearancesFile();
    LoadedContent(files, m.batch, "players", m.players, [MOVED]);
    LoadedContent(files, m.batch, "appearances", m.appearances, [Played(m.date)]);
    FrameOfIngested(files, w, 2, schema, m.PlayersFile());
    FrameOfIngested(files, w, 2, schema, m.AppearancesFile());
  }

  lemma OthersUnread(files: Files, m: Match, w: World, schema: Schema)
    requires Sound(files, w, 2) && w.db.rows == [m.PlayersFile(), m.AppearancesFile()]
    ensures forall source :: source in ["clubs", "competitions", "games"] ==> FrameOf(schema, w, m.batch, source).None?
  {
    hide Sound, FrameOf;
    NamesDiffer();
    forall source | source in ["clubs", "competitions", "games"] ensures FrameOf(schema, w, m.batch, source).None? {
      NoStrayPartition(files, w, 2, m.batch, source);
      NotRead(files, w, 2, schema, m.batch, source);
    }
  }

  lemma BothRead(files: Files, m: Match, schema: Schema)
    requires PathsDistinct(files) && m.Fits(files) && schema.columns == Columns
    ensures Reads(schema, RunSteps(m.Steps()), m.batch, m.date)
    ensures Sound(files, RunSteps(m.Steps()), 2)
  {
    hide LoadOk, RunSteps, ValidRun, LastStamp, Sound, FrameOf, Played;
    BothIngested(files, m);
    EveryRunIsSound(files, m.Steps());
    FilesRead(files, m, RunSteps(m.Steps()), schema);
    OthersUnread(files, m, RunSteps(m.Steps()), schema);
  }

  // ----- Both rows are clean -----

  lemma LookupsOf(schema: Schema, w: World, batch: string, d: Date)
    requires ValidDate(d) && Reads(schema, w, batch, d) && schema.columns == Columns
    ensures !LookupRaises(schema, w, batch, FK_TARGETS)
    ensures
      var lookups := ContextOf(schema, w, batch).lookups;
      && ("clubs", "club_id") !in lookups && ("games", "game_id") !in lookups
      && ("players", "player_id") in lookups && lookups[("players", "player_id")] == {Num(7.0)}
  {
    hide FrameOf;
    assert FK_TARGETS[2] in FK_TARGETS;
    assert PLAYER_COLUMNS[0] in PLAYER_COLUMNS;
    RowCells();
    forall v ensures v in ValuesOf([MOVED], "player_id") <==> v == Num(7.0) {
      assert MOVED in [MOVED];
    }
  }

  /** A single row that passes the critical rules is all there is. */
  lemma OneCleanRow(source: string, rules: seq<Rule>, frame: Frame, ctx: Context)
    requires |frame.rows| == 1 && IsClean(rules, frame, ctx, 0)
    ensures DqSpec(source, rules, frame, ctx).clean == frame
  {
    hide IsClean;
    assert Positions(rules, frame, ctx, true, 0) == [];
    assert Positions(rules, frame, ctx, true, 1) == [0];
    assert CleanRows(rules, frame, ctx) == frame.rows;
  }

  lemma PlayerIsClean(ctx: Context)
    requires ("clubs", "club_id") !in ctx.lookups
    ensures IsClean(RulesFor("players"), Frame(PLAYER_COLUMNS, [MOVED]), ctx, 0)
  {
    var frame := Frame(PLAYER_COLUMNS, [MOVED]);
    MovedCells();
    PlayerRules();
    assert frame.rows[0] == MOVED;
    hide Passes, RulesFor;
    forall rule | rule in PLAYER_RULES && rule.severity.Critical? ensures Passes(rule, frame, ctx, 0) {
      PlayerPasses(frame, 0, ctx, rule);
    }
  }

  lemma AppearanceCells(d: Date)
    requires ValidDate(d)
    ensures Get(Played(d), "appearance_id") == Num(1.0) && Get(Played(d), "player_id") == Num(7.0)
    ensures Get(Played(d), "game_id") == Num(3.0) && Get(Played(d), "date") == Text(Iso(d))
  {
    assert "appearance_id"[0] == 'a' && "player_id"[0] == 'p' && "game_id"[0] == 'g' && "date"[0] == 'd';
  }

  lemma AppearancePasses(ctx: Context, r: Row, rule: Rule)
    requires rule in APPEARANCE_RULES && rule.severity.Critical?
    requires ("games", "game_id") !in ctx.lookups
    requires ("players", "player_id") in ctx.lookups && Get(r, "player_id") in ctx.lookups[("players", "player_id")]
    requires Get(r, "appearance_id") == Num(1.0) && Get(r, "player_id") == Num(7.0)
    requires Get(r, "game_id") == Num(3.0) && Get(r, "date").Text?
    ensures Passes(rule, Frame(APPEARANCE_COLUMNS, [r]), ctx, 0)
  {
    assert Frame(APPEARANCE_COLUMNS, [r]).rows[0] == r;
  }

  lemma AppearanceIsClean(ctx: Context, d: Date)
    requires ValidDate(d) && ("games", "game_id") !in ctx.lookups
    requires ("players", "player_id") in ctx.lookups && ctx.lookups[("players", "player_id")] == {Num(7.0)}
    ensures IsClean(APPEARANCE_RULES, Frame(APPEARANCE_COLUMNS, [Played(d)]), ctx, 0)
  {
    AppearanceCells(d);
    hide Passes, Played;
    forall rule | rule in APPEARANCE_RULES && rule.severity.Critical?
      ensures Passes(rule, Frame(APPEARANCE_COLUMNS, [Played(d)]), ctx, 0)
    {
      AppearancePasses(ctx, Played(d), rule);
    }
  }

  lemma AppearanceRules()
    ensures RulesFor("appearances") == APPEARANCE_RULES
  {
    NamesDiffer();
  }

  lemma BothClean(schema: Schema, w: World, batch: string, d: Date)
    requires ValidDate(d) && Reads(schema, w, batch, d) && schema.columns == Columns
    ensures
      var players, appearances := Checked(schema, w, batch, "players"), Checked(schema, w, batch, "appearances");
      && players.Some? && players.value.clean == Frame(PLAYER_COLUMNS, [MOVED])
      && appearances.Some? && appearances.value.clean == Frame(APPEARANCE_COLUMNS, [Played(d)])
  {
    hide FrameOf, ContextOf, RulesFor, DqSpec, IsClean, Played;
    var ctx := ContextOf(schema, w, batch);
    LookupsOf(schema, w, batch, d);
    PlayerIsClean(ctx);
    AppearanceIsClean(ctx, d);
    AppearanceRules();
    OneCleanRow("players", RulesFor("players"), Frame(PLAYER_COLUMNS, [MOVED]), ctx);
    OneCleanRow("appearances", RulesFor("appearances"), Frame(APPEARANCE_COLUMNS, [Played(d)]), ctx);
  }

  // ----- The results -----

  /** The reference from an appearance to its player, as configured. */
  const PLAYER_REFERENCE: Rule := ForeignKey("appearances", Critical, "player_id", "players", "player_id")

  lemma ReferenceConfigured()
    ensures PLAYER_REFERENCE in RulesFor("appearances")
  {
    AppearanceRules();
    assert APPEARANCE_RULES[2] == PLAYER_REFERENCE;
  }

  lemma AppearanceIsRead(schema: Schema, w: World, batch: string, d: Date)
    requires ValidDate(d) && Reads(schema, w, batch, d) && schema.columns == Columns
    ensures !LookupRaises(schema, w, batch, FK_TARGETS)
    ensures
      var checked := Checked(schema, w, batch, "appearances");
      checked.Some? && Played(d) in checked.value.clean.rows
  {
    hide FrameOf, Checked, LookupRaises, ContextOf, Played;
    LookupsOf(schema, w, batch, d);
    BothClean(schema, w, batch, d);
    assert Checked(schema, w, batch, "appearances").value.clean.rows[0] == Played(d);
  }

  /** A clean reference with its parent: the assumptions of `CleanRowsHaveParents` hold, and the value is there. */
  lemma ReferenceHasParent(files: Files, m: Match, schema: Schema)
    requires PathsDistinct(files) && m.Fits(files) && schema.columns == Columns
    ensures
      var w := RunSteps(m.Steps());
      var checked := Checked(schema, w, m.batch, "appearances");
      && Sound(files, w, 2) && !LookupRaises(schema, w, m.batch, FK_TARGETS)
      && m.PlayersFile() in w.db.rows && m.AppearancesFile() in w.db.rows
      && checked.Some? && Played(m.date) in checked.value.clean.rows
    ensures PLAYER_REFERENCE in RulesFor("appearances") && Get(Played(m.date), "player_id") == Num(7.0)
    ensures IsParent(files.content(m.players.checksum), "player_id", Num(7.0))
  {
    hide LoadOk, RunSteps, ValidRun, LastStamp, Sound, Reads, Checked, LookupRaises, Played, IsParent, RulesFor;
    BothIngested(files, m);
    BothRead(files, m, schema);
    var w := RunSteps(m.Steps());
    AppearanceIsRead(schema, w, m.batch, m.date);
    AppearanceCells(m.date);
    ReferenceConfigured();
    LoadedContent(files, m.batch, "players", m.players, [MOVED]);
    assert w.db.rows[0] == m.PlayersFile() && w.db.rows[1] == m.AppearancesFile();
    CleanRowsHaveParents(
      files, w, 2, schema, m.AppearancesFile(), m.PlayersFile(), PLAYER_REFERENCE, Played(m.date));
  }

  /** The one turn of the example. */
  function OneTurn(m: Match, day: Day): seq<Turn>
    requires ValidDate(m.date)
  {
    [Turn(RunSteps(m.Steps()), m.batch, day)]
  }

  /** The version that the run opens for the player. */
  function FirstVersion(n: Normalisers): Version {
    Fresh(1, PlayerRow(n, PLAYER_COLUMNS)(MOVED), Scd2History.FAR_PAST)
  }

  lemma BothBuilt(s: Settings, w: World, batch: string, d: Date)
    requires ValidDate(d) && Reads(s.schema, w, batch, d) && s.schema.columns == Columns
    requires s.spec == PLAYERS_SPEC && s.pii == None && s.existing == []
    ensures
      var a := Build(s, CleanFrames(s.schema, w, batch, |SOURCES|));
      && a.players.Some? && a.appearances.Some?
      && a.players.value == [FirstVersion(s.normalisers)]
  {
    hide Checked, Played, PlayersArtifact, FrameOf, AppearanceFacts, Facts.GamesBuild;
    BothClean(s.schema, w, batch, d);
    CleanFramesHold(s.schema, w, batch, PLAYERS);
    CleanFramesHold(s.schema, w, batch, APPEARANCES);
    PlayersLoaded(s);
    assert APPEARANCE_COLUMNS[1] in APPEARANCE_COLUMNS && APPEARANCE_COLUMNS[3] in APPEARANCE_COLUMNS;
  }

  lemma PlayersLoaded(s: Settings)
    requires s.spec == PLAYERS_SPEC && s.pii == None && s.existing == []
    ensures PlayersArtifact(s, Frame(PLAYER_COLUMNS, [MOVED])) == Some([FirstVersion(s.normalisers)])
  {
    hide Merge, Validate, PlayerRow;
    SchemaFits(s.normalisers);
    PositionNeeded();
    var r := PlayerRow(s.normalisers, PLAYER_COLUMNS)(MOVED);
    assert PlayerFrame(s.normalisers, Frame(PLAYER_COLUMNS, [MOVED])).rows == [r];
    Scd2Partitions.OneLoaded(PLAYERS_SPEC, r);
  }

  lemma FirstVersionKey(n: Normalisers)
    ensures Scd2.KeyOf(PLAYERS_SPEC, FirstVersion(n).row) == [Num(7.0)]
  {
    FileColumnsKept(n);
    assert PLAYER_COLUMNS[0] in PLAYER_COLUMNS;
    hide PlayerRow;
    RowCells();
  }

  lemma FirstVersionFound(n: Normalisers, d: Date)
    requires ValidDate(d) && d != LAST_DATE && Scd2History.FAR_PAST <= DateKey(d)
    ensures OfVersion(PLAYERS_SPEC, [FirstVersion(n)], Num(7.0), d) == Num(1.0)
  {
    hide PlayerRow, Filter, Scd2.KeyOf;
    var v, k := FirstVersion(n), [Num(7.0)];
    FirstVersionKey(n);
    FilterSingleton(v, HasKey(PLAYERS_SPEC, k));
    assert DateKey(d) < FAR_FUTURE;
    assert AsOf.LastStarted([v], DateKey(d)) == 0;
  }

  lemma IsoIsDated(d: Date)
    requires ValidDate(d) && d != LAST_DATE
    ensures DatedRow(Played(d), d)
  {
    AppearanceCells(d);
    hide Iso, Played;
    assert Iso(d) == "" + Iso(d) + "";
    assert IsoBetween(d, "", "", Iso(d));
  }

  lemma FirstTurn(base: Settings, t: Turn)
    ensures Snapshots(base.spec, Batches(base, [t])) && PlayersAfter(base, []) == []
    ensures
      var players := ArtifactsAt(base, [], t).players;
      PlayersAfter(base, [t]) == if players.Some? then players.value else []
  {
    hide ArtifactsAt, BuildsPlayers, DeliveryOf;
    assert [t][..0] == [] && Deliveries(base, []) == [];
    var batches := Batches(base, [t]);
    assert |batches| <= 1;
    forall i | 0 <= i < |batches| ensures Scd2History.Covers(base.spec, Run(base.spec, batches[..i]), batches[i].rows) {
      assert batches[..i] == [];
    }
  }

  /** What `ChainAppearances` assumes of the runs. */
  ghost predicate SnapshotTurns(base: Settings, turns: seq<Turn>) {
    TurnsStrict(turns) && PlayersSpec(base.spec, base.pii) && Snapshots(base.spec, Batches(base, turns))
  }

  /** The player key in the first row of the first run's appearances. */
  function FirstKey(base: Settings, t: Turn): Option<Value> {
    var facts := ArtifactsAt(base, [], t).appearances;
    if facts.Some? && facts.value != [] then Some(Get(facts.value[0], "player_sk")) else None
  }

  /** From the files to the fact: the appearance carries the key of the version that the same run opened. */
  lemma AppearanceHappens(files: Files, m: Match, parseFloat: string -> Option<real>, n: Normalisers, day: Day)
    requires PathsDistinct(files) && m.Fits(files)
    requires Scd2History.FAR_PAST < day < FAR_FUTURE && Facts.IsDay(day)
    ensures
      var base, turns := Base(parseFloat, n), OneTurn(m, day);
      SnapshotTurns(base, turns) && FirstKey(base, turns[0]) == Some(Num(1.0))
  {
    hide RunSteps, Checked, CleanFrames, Build, Played, DatedRow, FirstVersion, OfVersion, Snapshots, Batches,
      Facts.IsDay, Match.Fits, Sound, Reads, PlayersAfter;
    MatchDate(files, m);
    var base, turns := Base(parseFloat, n), OneTurn(m, day);
    var t := turns[0];
    assert turns[..0] == [] && turns == [t];
    BothRead(files, m, base.schema);
    BothClean(base.schema, t.w, m.batch, m.date);
    BothBuilt(At(base, [], t), t.w, m.batch, m.date);
    FirstTurn(base, t);
    IsoIsDated(m.date);
    ChainAppearances(base, turns, 0, m.date);
    AppearanceCells(m.date);
    FirstVersionFound(n, m.date);
  }

  lemma MatchDate(files: Files, m: Match)
    requires m.Fits(files)
    ensures ValidDate(m.date) && m.date != LAST_DATE && Scd2History.FAR_PAST <= DateKey(m.date)
  {
  }
}
