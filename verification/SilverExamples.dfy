/** Concrete Silver runs that the general results speak about. */
module SilverExamples {
  import opened Wrappers
  import opened Sequences
  import opened Frames
  import opened Hashing
  import opened AuditLog
  import opened BronzeStore
  import opened BronzeRuns
  import opened BronzeTheorems
  import opened DqRules
  import opened DqRunner
  import opened DqConfig
  import opened Scd2
  import opened SilverPlayers
  import opened SilverInputs
  import opened SilverRun
  import opened SilverTheorems
  import BronzeFailures
  import Reconcile
  import Scd2History

  const PLAYER_COLUMNS: seq<string> := ["player_id", "name", "current_club_id", "position", "market_value_in_eur"]

  /** A player who moved up front since the last batch, and a row without an id. */
  const MOVED: Row := map[
    "player_id" := Num(7.0), "name" := Text("Ann"), "current_club_id" := Num(1.0), "position" := Text("Attack"),
    "market_value_in_eur" := Num(5.0)]
  const BEFORE: Row := MOVED["position" := Text("Defence")]
  const NAMELESS: Row := map["position" := Text("Attack")]

  function TextOrZero(v: Value): string {
    if v.Text? then v.text else "0"
  }

  function Same(s: string): string {
    s
  }

  const PLAYERS_SPEC := MergeSpec(
    ["player_id"], ["current_club_id", "position", "market_value_in_eur"], HashSpec(TextOrZero, Same))

  function ColumnsOf(source: string): seq<string> {
    if source == "players" then PLAYER_COLUMNS else []
  }

  /** The configuration, with that player's earlier version as the dimension. */
  function Config(parseFloat: string -> Option<real>, n: Normalisers, day: Day): Settings {
    Settings(
      SilverInputs.Schema.Schema(ColumnsOf, parseFloat), PLAYERS_SPEC, None, n,
      [Version(1, BEFORE, Scd2History.FAR_PAST, FAR_FUTURE, true)], day)
  }

  function PlayersDelivered(batch: string, fp: Fingerprint): seq<Stamped> {
    [BronzeTheorems.Delivery(batch, "players", fp, [MOVED, NAMELESS], 1)]
  }

  /** Only players can be read. */
  lemma OnlyPlayersResolve(files: Files, s: Settings, batch: string, fp: Fingerprint)
    requires LoadOk(files, batch, "players", Loaded(fp, [MOVED, NAMELESS]))
    ensures
      var w := RunSteps(PlayersDelivered(batch, fp));
      && ValidRun(files, PlayersDelivered(batch, fp)) && LastStamp(PlayersDelivered(batch, fp)) == 1
      && w.db.rows == [FirstRow(batch, "players", fp, 2, 1)]
      && FrameOf(s.schema, w, batch, "clubs").None?
      && FrameOf(s.schema, w, batch, "players") == Some(Frame(s.schema.columns("players"), [MOVED, NAMELESS]))
  {
    hide Sound, Resolve, RunSteps, ValidRun, LoadOk, MostRecentForSource, LastStamp;
    var rows := [MOVED, NAMELESS];
    FirstIsValid(files, batch, "players", fp, rows);
    BronzeFailures.FirstWorld(files, batch, "players", fp, rows);
    EveryRunIsSound(files, PlayersDelivered(batch, fp));
    var w, r := RunSteps(PlayersDelivered(batch, fp)), FirstRow(batch, "players", fp, 2, 1);
    BronzeFailures.LoadedContent(files, batch, "players", fp, rows);
    assert w.db.rows[0] == r;
    FrameOfIngested(files, w, 1, s.schema, r);
    ResolverIsTotal(files, w, 1, "clubs", batch);
    CurrentIsSuccess(w.db.rows, "clubs", batch);
    assert "clubs"[0] == 'c' && "players"[0] == 'p';
  }

  /** So references to clubs cannot be checked. */
  lemma ClubsUnknown(schema: Schema, w: World, batch: string)
    requires FrameOf(schema, w, batch, "clubs").None?
    ensures ("clubs", "club_id") !in ContextOf(schema, w, batch).lookups
  {
    hide FrameOf;
  }

  /** A row with these cells passes every critical rule where no other row has its id. */
  lemma PlayerPasses(frame: Frame, i: nat, ctx: Context, rule: Rule)
    requires ("clubs", "club_id") !in ctx.lookups && i < |frame.rows|
    requires rule in PLAYER_RULES && rule.severity.Critical?
    requires
      var r := frame.rows[i];
      !Get(r, "player_id").Null? && !Get(r, "name").Null? && !Get(r, "current_club_id").Null?
    requires OnlyOne(["player_id"], frame.rows, i)
    ensures Passes(rule, frame, ctx, i)
  {
  }

  lemma MovedCells()
    ensures Get(MOVED, "player_id") == Num(7.0) && !Get(MOVED, "name").Null? && !Get(MOVED, "current_club_id").Null?
    ensures Get(NAMELESS, "player_id") == Null
  {
    RowCells();
    assert "player_id"[1] == 'l' && "position"[1] == 'o' && "name"[0] == 'n' && "current_club_id"[0] == 'c';
    assert "market_value_in_eur"[0] == 'm';
  }

  lemma PlayerRules()
    ensures RulesFor("players") == PLAYER_RULES
  {
    assert "clubs"[0] == 'c' && "players"[0] == 'p' && "competitions"[0] == 'c';
  }

  /** The player passes every critical rule; the row without an id does not. */
  lemma OneRejected(ctx: Context)
    requires ("clubs", "club_id") !in ctx.lookups
    ensures
      var frame := Frame(PLAYER_COLUMNS, [MOVED, NAMELESS]);
      IsClean(PLAYER_RULES, frame, ctx, 0) && !IsClean(PLAYER_RULES, frame, ctx, 1)
  {
    var frame := Frame(PLAYER_COLUMNS, [MOVED, NAMELESS]);
    MovedCells();
    assert frame.rows[0] == MOVED && frame.rows[1] == NAMELESS;
    assert OnlyOne(["player_id"], frame.rows, 0) by {
      assert Project(["player_id"], MOVED)[0] == Num(7.0) && Project(["player_id"], NAMELESS)[0] == Null;
    }
    assert !Passes(PLAYER_RULES[0], frame, ctx, 1) by {
      assert PLAYER_RULES[0].columns[0] == "player_id";
    }
    hide Passes;
    forall rule | rule in PLAYER_RULES && rule.severity.Critical? ensures Passes(rule, frame, ctx, 0) {
      PlayerPasses(frame, 0, ctx, rule);
    }
    assert PLAYER_RULES[0] in PLAYER_RULES;
  }

  lemma SplitOfTwo(ctx: Context)
    requires ("clubs", "club_id") !in ctx.lookups
    ensures
      var result := DqSpec("players", RulesFor("players"), Frame(PLAYER_COLUMNS, [MOVED, NAMELESS]), ctx);
      result.clean == Frame(PLAYER_COLUMNS, [MOVED]) && |result.failing| == 1
  {
    hide IsClean, Reason;
    OneRejected(ctx);
    PlayerRules();
    var frame, rules := Frame(PLAYER_COLUMNS, [MOVED, NAMELESS]), PLAYER_RULES;
    assert Positions(rules, frame, ctx, true, 1) == [0];
    assert Positions(rules, frame, ctx, true, 2) == [0];
    assert Positions(rules, frame, ctx, false, 1) == [];
    assert Positions(rules, frame, ctx, false, 2) == [1];
    assert CleanRows(rules, frame, ctx) == [MOVED];
  }

  lemma FileColumnsKept(n: Normalisers)
    ensures forall c :: c in PLAYER_COLUMNS ==> Get(PlayerRow(n, PLAYER_COLUMNS)(MOVED), c) == Get(MOVED, c)
  {
    DerivedColumns(n, PLAYER_COLUMNS, MOVED);
    hide PlayerRow;
    assert "player_id"[1] == 'l' && "position_canonical"[1] == 'o' && "position_category"[1] == 'o';
    assert "current_club_id"[1] == 'u' && "market_value_in_eur"[0] == 'm' && "country_of_citizenship_iso"[1] == 'o';
    assert "name"[0] == 'n' && BATCH_COLUMN[0] == 'b';
    assert |"position"| == 8 && |"position_canonical"| == 18 && |"position_category"| == 17;
    forall c | c in PLAYER_COLUMNS ensures c !in DERIVED {}
  }

  lemma MoveIsSeen(n: Normalisers)
    ensures
      var r := PlayerRow(n, PLAYER_COLUMNS)(MOVED);
      && Scd2.KeyOf(PLAYERS_SPEC, r) == Scd2.KeyOf(PLAYERS_SPEC, BEFORE)
      && HashOf(PLAYERS_SPEC, r) != HashOf(PLAYERS_SPEC, BEFORE)
  {
    FileColumnsKept(n);
    var r := PlayerRow(n, PLAYER_COLUMNS)(MOVED);
    hide PlayerRow, RowHash;
    assert PLAYER_COLUMNS[0] in PLAYER_COLUMNS && PLAYER_COLUMNS[2] in PLAYER_COLUMNS;
    assert PLAYER_COLUMNS[3] in PLAYER_COLUMNS && PLAYER_COLUMNS[4] in PLAYER_COLUMNS;
    RowCells();
    assert Project(PLAYERS_SPEC.naturalKey, r) == [Num(7.0)] == Project(PLAYERS_SPEC.naturalKey, BEFORE);
    var x, y := Project(PLAYERS_SPEC.tracked, r), Project(PLAYERS_SPEC.tracked, BEFORE);
    assert x == [Num(1.0), Text("Attack"), Num(5.0)] && y == [Num(1.0), Text("Defence"), Num(5.0)];
    PiecesDiffer(x, y);
  }

  lemma RowCells()
    ensures Get(MOVED, "player_id") == Get(BEFORE, "player_id") == Num(7.0)
    ensures Get(MOVED, "current_club_id") == Get(BEFORE, "current_club_id") == Num(1.0)
    ensures Get(MOVED, "market_value_in_eur") == Get(BEFORE, "market_value_in_eur") == Num(5.0)
    ensures Get(MOVED, "position") == Text("Attack") && Get(BEFORE, "position") == Text("Defence")
  {
    assert "player_id"[1] == 'l' && "position"[1] == 'o' && "name"[0] == 'n' && "current_club_id"[0] == 'c';
    assert "market_value_in_eur"[0] == 'm';
  }

  lemma PiecesDiffer(x: seq<Value>, y: seq<Value>)
    requires x == [Num(1.0), Text("Attack"), Num(5.0)] && y == [Num(1.0), Text("Defence"), Num(5.0)]
    ensures RowHash(PLAYERS_SPEC.hash, x) != RowHash(PLAYERS_SPEC.hash, y)
  {
    assert HASH_SEPARATOR !in "Attack" && HASH_SEPARATOR !in "Defence" && HASH_SEPARATOR !in "0";
    HashEqualIffPieces(PLAYERS_SPEC.hash, x, y);
    assert Piece(PLAYERS_SPEC.hash, x[1]) == "Attack" && Piece(PLAYERS_SPEC.hash, y[1]) == "Defence";
    assert |"Attack"| != |"Defence"|;
  }

  lemma SchemaFits(n: Normalisers)
    ensures Validate(PLAYERS_SPEC, PlayerFrame(n, Frame(PLAYER_COLUMNS, [MOVED]))).None?
  {
    var columns := PlayerColumns(PLAYER_COLUMNS);
    FilterIn(PLAYER_COLUMNS, IsCarried());
    assert BATCH_COLUMN[0] == 'b' && "player_id"[0] == 'p' && "current_club_id"[0] == 'c' && "position"[0] == 'p'
      && "market_value_in_eur"[0] == 'm';
    assert PLAYER_COLUMNS[0] in PLAYER_COLUMNS && PLAYER_COLUMNS[2] in PLAYER_COLUMNS;
    assert PLAYER_COLUMNS[3] in PLAYER_COLUMNS && PLAYER_COLUMNS[4] in PLAYER_COLUMNS;
    FilterNone(PLAYERS_SPEC.naturalKey, ColumnMissingIn(Frame(columns, [])));
    FilterNone(PLAYERS_SPEC.tracked, ColumnMissingIn(Frame(columns, [])));
    FilterSame(PLAYERS_SPEC.naturalKey, ColumnMissingIn(Frame(columns, [])),
      ColumnMissingIn(PlayerFrame(n, Frame(PLAYER_COLUMNS, [MOVED]))));
    FilterSame(PLAYERS_SPEC.tracked, ColumnMissingIn(Frame(columns, [])),
      ColumnMissingIn(PlayerFrame(n, Frame(PLAYER_COLUMNS, [MOVED]))));
  }

  lemma ConfigOk(parseFloat: string -> Option<real>, n: Normalisers, day: Day)
    ensures ExistingOk(Config(parseFloat, n, day))
  {
    FilterSingleton(Version(1, BEFORE, Scd2History.FAR_PAST, FAR_FUTURE, true), IsCurrent());
  }

  lemma ConfigGrows(parseFloat: string -> Option<real>, n: Normalisers, day: Day)
    ensures DimensionGrows(Config(parseFloat, n, day), Frame(PLAYER_COLUMNS, [MOVED]))
  {
    hide HashOf, PlayerRow, Scd2.KeyOf, Revises;
    MoveIsSeen(n);
    var r := PlayerRow(n, PLAYER_COLUMNS)(MOVED);
    OneVersionRevised(PLAYERS_SPEC, Version(1, BEFORE, Scd2History.FAR_PAST, FAR_FUTURE, true), r);
    assert MergeInput(Config(parseFloat, n, day), Frame(PLAYER_COLUMNS, [MOVED])) == [r];
    assert r in [r];
  }

  lemma OneVersionRevised(spec: MergeSpec, v: Version, r: Row)
    requires v.current && Scd2.KeyOf(spec, r) == Scd2.KeyOf(spec, v.row)
    requires HashOf(spec, r) != HashOf(spec, v.row)
    ensures Revises(spec, [v])(r)
  {
    hide HashOf, Scd2.KeyOf;
    FilterSingleton(v, IsCurrent());
    assert FindVersion(spec, [v], Scd2.KeyOf(spec, r)) == 0;
  }

  /**
   * The drift rule fires without any loss: one player of a two-row file moved, the other row was rejected,
   * and the dimension has two versions where there is one clean row.
   */
  lemma PlayersDriftHappens(
      files: Files, parseFloat: string -> Option<real>, n: Normalisers, day: Day, batch: string, fp: Fingerprint,
      now: int)
    requires LoadOk(files, batch, "players", Loaded(fp, [MOVED, NAMELESS]))
    ensures
      var s, w := Config(parseFloat, n, day), RunSteps(PlayersDelivered(batch, fp));
      var r := FirstRow(batch, "players", fp, 2, 1);
      && ValidRun(files, PlayersDelivered(batch, fp)) && Processed(s, w, r, PLAYERS)
      && Reconcile.Fires(Reconcile.RowCountDrift, Final(s, w, r, PLAYERS, now))
  {
    hide Sound, RunSteps, ValidRun, LoadOk, FrameOf, ContextOf, DqSpec, RulesFor, Flows, ExistingOk, DimensionGrows,
      Validate, Reconcile.Fires, Final, LastStamp, Needed;
    var s, w := Config(parseFloat, n, day), RunSteps(PlayersDelivered(batch, fp));
    var r := FirstRow(batch, "players", fp, 2, 1);
    OnlyPlayersResolve(files, s, batch, fp);
    EveryRunIsSound(files, PlayersDelivered(batch, fp));
    ClubsUnknown(s.schema, w, batch);
    SplitOfTwo(ContextOf(s.schema, w, batch));
    SchemaFits(n);
    PositionNeeded();
    assert w.db.rows[0] == r;
    BuiltIff(files, w, 1, s, r, PLAYERS);
    ConfigOk(parseFloat, n, day);
    ConfigGrows(parseFloat, n, day);
    PlayersDriftIff(files, w, 1, s, r, now);
  }

  lemma PositionNeeded()
    ensures HasColumns(Frame(PLAYER_COLUMNS, [MOVED]), Needed(PLAYERS))
  {
    assert PLAYER_COLUMNS[3] in PLAYER_COLUMNS;
  }
}
