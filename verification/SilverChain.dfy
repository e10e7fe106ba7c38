/**
 * Silver over many batches: each run starts from the players dimension that the runs before it left. What the
 * artifacts of every such run hold follows from the results on merges.
 */
module SilverChain {
  import opened Wrappers
  import opened Sequences
  import opened Frames
  import opened BronzeStore
  import opened Calendar
  import opened DqRunner
  import opened DqConfig
  import opened Scd2
  import opened Scd2History
  import opened Scd2Runs
  import opened SilverPlayers
  import opened SilverInputs
  import opened SilverRun
  import opened SilverTheorems
  import AsOf
  import DimPlayers
  import Facts
  import Type1

  /** What one Silver run meets: the audit database and lake of its time, its batch and the batch's day. */
  datatype Turn = Turn(w: World, batch: string, day: Day)

  /** The run's settings, given the dimension left by the runs before. */
  function At(base: Settings, dim: seq<Version>, t: Turn): Settings {
    base.(existing := dim, day := t.day)
  }

  /** The artifacts of a run, as `RunSilver` delivers them. */
  function ArtifactsAt(base: Settings, dim: seq<Version>, t: Turn): Artifacts {
    Build(At(base, dim, t), CleanFrames(base.schema, t.w, t.batch, |SOURCES|))
  }

  /** The dimension after a sequence of runs; a run that does not build players leaves it alone. */
  function PlayersAfter(base: Settings, turns: seq<Turn>): seq<Version> {
    if turns == [] then []
    else
      var n := |turns| - 1;
      var before := PlayersAfter(base, turns[..n]);
      var players := ArtifactsAt(base, before, turns[n]).players;
      if players.Some? then players.value else before
  }

  /** The run reads players, and neither deriving, tokenising nor merging them raises. */
  predicate BuildsPlayers(base: Settings, t: Turn) {
    var checked := Checked(base.schema, t.w, t.batch, "players");
    checked.Some? && HasColumns(checked.value.clean, PLAYER_INPUTS)
    && DimPlayers.Salted(base.pii) && Validate(base.spec, PlayerFrame(base.normalisers, checked.value.clean)).None?
  }

  function DeliveryOf(base: Settings, t: Turn): (d: Delivery)
    requires BuildsPlayers(base, t)
    ensures d.day == t.day
  {
    Delivery(FrameOf(base.schema, t.w, t.batch, "players").value, ContextOf(base.schema, t.w, t.batch), t.day)
  }

  /** The players files that reached the merge, in order. */
  function Deliveries(base: Settings, turns: seq<Turn>): seq<Delivery> {
    if turns == [] then []
    else
      var n := |turns| - 1;
      Deliveries(base, turns[..n]) + (if BuildsPlayers(base, turns[n]) then [DeliveryOf(base, turns[n])] else [])
  }

  /** A run's players artifact is the merge of its delivery into the dimension before. */
  lemma PlayersOfTurn(base: Settings, dim: seq<Version>, t: Turn)
    ensures ArtifactsAt(base, dim, t).players ==
      if BuildsPlayers(base, t) then
        var batch := SilverPlayers.BatchOf(base.normalisers, base.pii)(DeliveryOf(base, t));
        Some(Merge(base.spec, dim, batch.rows, EffectiveDay(dim, t.day)))
      else None
  {
    hide FrameOf, ContextOf, DqSpec, RulesFor, Merge, Validate, SilverPlayers.Incoming;
    assert SOURCES[PLAYERS] in SOURCES;
    assert SOURCES[..|SOURCES|] == SOURCES;
  }

  /** So the dimension over all runs is the one that the delivered files give. */
  lemma {:induction false} ChainIsDimension(base: Settings, turns: seq<Turn>)
    ensures PlayersAfter(base, turns) == Dimension(base.spec, base.normalisers, base.pii, Deliveries(base, turns))
  {
    hide ArtifactsAt, BuildsPlayers, DeliveryOf, Merge, SilverPlayers.BatchOf;
    var batch := SilverPlayers.BatchOf(base.normalisers, base.pii);
    if turns == [] {
      assert Map(Deliveries(base, turns), batch) == [];
    } else {
      var n := |turns| - 1;
      ChainIsDimension(base, turns[..n]);
      PlayersOfTurn(base, PlayersAfter(base, turns[..n]), turns[n]);
      if BuildsPlayers(base, turns[n]) {
        var before, d := Deliveries(base, turns[..n]), DeliveryOf(base, turns[n]);
        assert Deliveries(base, turns) == before + [d];
        var batches := Map(before + [d], batch);
        assert batches[..|before|] == Map(before, batch) && batches[|before|] == batch(d);
        BatchDay(base, d);
        var dim := Run(base.spec, Map(before, batch));
        assert Run(base.spec, batches) ==
          Merge(base.spec, dim, batch(d).rows, EffectiveDay(dim, d.day));
      } else {
        assert Deliveries(base, turns) == Deliveries(base, turns[..n]) + [] == Deliveries(base, turns[..n]);
      }
    }
  }

  lemma BatchDay(base: Settings, d: Delivery)
    ensures SilverPlayers.BatchOf(base.normalisers, base.pii)(d).day == d.day
  {
  }

  predicate TurnsInOrder(turns: seq<Turn>) {
    && (forall i :: 0 <= i < |turns| ==> FAR_PAST <= turns[i].day < FAR_FUTURE)
    && (forall i, j :: 0 <= i < j < |turns| ==> turns[i].day <= turns[j].day)
  }

  predicate TurnsStrict(turns: seq<Turn>) {
    && (forall i :: 0 <= i < |turns| ==> FAR_PAST < turns[i].day < FAR_FUTURE && Facts.IsDay(turns[i].day))
    && (forall i, j :: 0 <= i < j < |turns| ==> turns[i].day < turns[j].day)
  }

  lemma {:induction false} DeliveriesInOrder(base: Settings, turns: seq<Turn>)
    requires TurnsInOrder(turns)
    ensures DaysInOrder(Deliveries(base, turns))
    ensures forall d :: d in Deliveries(base, turns) ==> exists t :: t in turns && t.day == d.day
  {
    hide BuildsPlayers, DeliveryOf;
    if turns != [] {
      var n := |turns| - 1;
      DeliveriesInOrder(base, turns[..n]);
      var before := Deliveries(base, turns[..n]);
      assert turns[n] in turns;
      forall d | d in before ensures d.day <= turns[n].day && exists t :: t in turns && t.day == d.day {
        var t :| t in turns[..n] && t.day == d.day;
        assert t in turns;
      }
    }
  }

  /** Before every run the dimension meets the merge's contract, whatever the files have held. */
  lemma ChainKeepsPlayersOk(base: Settings, turns: seq<Turn>, t: Turn)
    requires PlayersSpec(base.spec, base.pii) && TurnsInOrder(turns)
    ensures ExistingOk(At(base, PlayersAfter(base, turns), t))
    ensures Distinct(Map(Current(PlayersAfter(base, turns)), VersionKeyOf(base.spec)))
  {
    hide PlayersAfter, Deliveries, Dimension, ExistingOk, Current;
    ChainIsDimension(base, turns);
    DeliveriesInOrder(base, turns);
    ReachedIsOk(At(base, PlayersAfter(base, turns), t), Deliveries(base, turns));
    SilverKeepsPlayersValid(base.spec, base.normalisers, base.pii, Deliveries(base, turns));
  }

  predicate DaysStrict(ds: seq<Delivery>) {
    && (forall i :: 0 <= i < |ds| ==> FAR_PAST < ds[i].day && Facts.IsDay(ds[i].day))
    && (forall i, j :: 0 <= i < j < |ds| ==> ds[i].day < ds[j].day)
  }

  lemma StrictSnoc(ds: seq<Delivery>, d: Delivery)
    requires DaysStrict(ds) && FAR_PAST < d.day && Facts.IsDay(d.day)
    requires forall x :: x in ds ==> x.day < d.day
    ensures DaysStrict(ds + [d])
  {
    hide Facts.IsDay;
    forall i | 0 <= i < |ds| ensures ds[i].day < d.day {
      assert ds[i] in ds;
    }
  }

  lemma {:induction false} DeliveriesStrict(base: Settings, turns: seq<Turn>)
    requires TurnsStrict(turns)
    ensures DaysStrict(Deliveries(base, turns))
    ensures forall d :: d in Deliveries(base, turns) ==> turns != [] && d.day <= turns[|turns| - 1].day
  {
    hide BuildsPlayers, DeliveryOf, Facts.IsDay, DaysStrict;
    if turns == [] {
      NothingStrict();
    } else {
      var n := |turns| - 1;
      DeliveriesStrict(base, turns[..n]);
      var before := Deliveries(base, turns[..n]);
      if BuildsPlayers(base, turns[n]) {
        StrictSnoc(before, DeliveryOf(base, turns[n]));
      } else {
        assert before + [] == before;
      }
    }
  }

  lemma NothingStrict()
    ensures DaysStrict([])
  {
  }

  /** The batches that the runs merged. */
  function Batches(base: Settings, turns: seq<Turn>): seq<Batch> {
    Map(Deliveries(base, turns), SilverPlayers.BatchOf(base.normalisers, base.pii))
  }

  lemma StrictBatches(base: Settings, turns: seq<Turn>)
    requires TurnsStrict(turns)
    ensures AsOf.StrictDays(Batches(base, turns)) && forall b :: b in Batches(base, turns) ==> Facts.IsDay(b.day)
  {
    hide Deliveries, SilverPlayers.BatchOf, Facts.IsDay;
    DeliveriesStrict(base, turns);
    var ds, batches := Deliveries(base, turns), Batches(base, turns);
    forall i | 0 <= i < |batches| ensures batches[i].day == ds[i].day {
      BatchDay(base, ds[i]);
    }
    forall b | b in batches ensures Facts.IsDay(b.day) {
      var i :| 0 <= i < |batches| && batches[i] == b;
      assert Facts.IsDay(ds[i].day);
    }
  }

  /**
   * End to end: in the appearances artifact of a run, after any runs of full snapshots with increasing days,
   * each dated appearance carries the key of its player's version whose half-open window holds the date.
   */
  lemma ChainAppearances(base: Settings, turns: seq<Turn>, i: nat, d: Date)
    requires turns != [] && TurnsStrict(turns) && PlayersSpec(base.spec, base.pii)
    requires Snapshots(base.spec, Batches(base, turns))
    requires
      var last := turns[|turns| - 1];
      var artifact := ArtifactsAt(base, PlayersAfter(base, turns[..|turns| - 1]), last).appearances;
      var checked := Checked(base.schema, last.w, last.batch, "appearances");
      && artifact.Some? && checked.Some? && i < |checked.value.clean.rows|
      && DatedRow(checked.value.clean.rows[i], d)
    ensures
      var last := turns[|turns| - 1];
      var artifact := ArtifactsAt(base, PlayersAfter(base, turns[..|turns| - 1]), last).appearances;
      var row := Checked(base.schema, last.w, last.batch, "appearances").value.clean.rows[i];
      && i < |artifact.value|
      && Get(artifact.value[i], "player_sk") ==
        OfVersion(base.spec, PlayersAfter(base, turns), Get(row, Facts.PLAYER_ID), d)
  {
    hide Checked, PlayersAfter, ArtifactsAt, Deliveries, Snapshots, SilverPlayers.BatchOf, Facts.AppearanceFact,
      OfVersion, PlayersSpec, Facts.VersionIndex, DatedRow;
    var n := |turns| - 1;
    var last, before := turns[n], PlayersAfter(base, turns[..n]);
    AppearancesOfTurn(base, before, last);
    LastPlayers(base, turns);
    ChainIsDimension(base, turns);
    StrictBatches(base, turns);
    SpecOnRun(base, turns);
    var row := Checked(base.schema, last.w, last.batch, "appearances").value.clean.rows[i];
    PresentId(base.schema, last, row);
    AppearanceOfRun(base, turns, row, d);
  }

  /** The surrogate key of the version of a player whose half-open window contains the date. */
  function OfVersion(spec: MergeSpec, dim: seq<Version>, player: Value, d: Date): Value {
    Facts.OfInt(AsOf.HalfOpenSk(Versions(spec, dim, [player]), DateKey(d)))
  }

  /** The row's date cell spells the date in its ISO form. */
  ghost predicate DatedRow(r: Row, d: Date) {
    Get(r, "date").Text? && ValidDate(d) && d != LAST_DATE && Dated(d, Get(r, "date").text)
  }

  lemma SpecOnRun(base: Settings, turns: seq<Turn>)
    requires TurnsStrict(turns) && PlayersSpec(base.spec, base.pii)
    ensures base.spec.naturalKey == [Facts.PLAYER_ID] && InOrder(base.spec, Batches(base, turns))
  {
    DeliveriesInOrder(base, turns);
    hide Deliveries, InOrder;
    SilverKeepsPlayersValid(base.spec, base.normalisers, base.pii, Deliveries(base, turns));
  }

  lemma AppearanceOfRun(base: Settings, turns: seq<Turn>, row: Row, d: Date)
    requires base.spec.naturalKey == [Facts.PLAYER_ID] && InOrder(base.spec, Batches(base, turns))
    requires AsOf.StrictDays(Batches(base, turns)) && Snapshots(base.spec, Batches(base, turns))
    requires forall b :: b in Batches(base, turns) ==> Facts.IsDay(b.day)
    requires !Get(row, Facts.PLAYER_ID).Null? && DatedRow(row, d)
    requires PlayersAfter(base, turns) == Run(base.spec, Batches(base, turns))
    ensures
      var fact := Facts.AppearanceFact(base.spec.hash.str, Facts.VersionIndex(PlayersAfter(base, turns)))(row);
      Get(fact, "player_sk") == OfVersion(base.spec, PlayersAfter(base, turns), Get(row, Facts.PLAYER_ID), d)
  {
    hide PlayersAfter, Batches, Run, Snapshots, InOrder, Facts.AppearanceFact, Facts.VersionIndex, AsOf.HalfOpenSk,
      Versions, AsOf.StrictDays;
    Facts.AppearanceFactOnRun(base.spec.hash.str, base.spec, Batches(base, turns), row, d);
  }

  /** The appearances artifact of a run is built row by row on the players of the same run. */
  lemma AppearancesOfTurn(base: Settings, dim: seq<Version>, t: Turn)
    ensures
      var a := ArtifactsAt(base, dim, t);
      var checked := Checked(base.schema, t.w, t.batch, "appearances");
      a.appearances.Some? && checked.Some? ==>
        && a.players.Some?
        && a.appearances.value == AppearanceFacts(At(base, dim, t), checked.value.clean, a.players.value)
  {
    hide Checked, Merge, Validate, AppearanceFacts;
    assert SOURCES[APPEARANCES] in SOURCES;
    assert SOURCES[..|SOURCES|] == SOURCES;
  }

  lemma LastPlayers(base: Settings, turns: seq<Turn>)
    requires turns != []
    ensures
      var players := ArtifactsAt(base, PlayersAfter(base, turns[..|turns| - 1]), turns[|turns| - 1]).players;
      players.Some? ==> PlayersAfter(base, turns) == players.value
  {
    hide ArtifactsAt;
  }

  /** A clean appearance names its player. */
  lemma PresentId(schema: Schema, t: Turn, row: Row)
    requires
      var checked := Checked(schema, t.w, t.batch, "appearances");
      checked.Some? && row in checked.value.clean.rows
    ensures !Get(row, Facts.PLAYER_ID).Null?
  {
    hide FrameOf, ContextOf, DqSpec;
    assert APPEARANCE_RULES[0] in RulesFor("appearances");
    assert APPEARANCE_RULES[0].columns[1] == Facts.PLAYER_ID;
    CleanRowsNotNull("appearances", RulesFor("appearances"), FrameOf(schema, t.w, t.batch, "appearances").value,
      ContextOf(schema, t.w, t.batch), ["appearance_id", "player_id", "game_id", "date"], Facts.PLAYER_ID);
  }

  // ----- Re-running a batch -----

  /**
   * When a batch has its own partition for every source, what Silver builds does not depend on the audit
   * database: a re-run rebuilds every artifact, also of sources whose files have failed.
   */
  lemma RerunRebuilds(s: Settings, a: World, b: World, batch: string)
    requires a.parts == b.parts && forall i :: 0 <= i < |SOURCES| ==> (SOURCES[i], batch) in a.parts
    ensures Build(s, CleanFrames(s.schema, a, batch, |SOURCES|)) == Build(s, CleanFrames(s.schema, b, batch, |SOURCES|))
  {
    hide Build, DqSpec, RulesFor;
    forall source | source in SOURCES
      ensures FrameOf(s.schema, a, batch, source) == FrameOf(s.schema, b, batch, source)
    {
    }
    SameContext(s.schema, a, b, batch);
    assert CleanFrames(s.schema, a, batch, |SOURCES|) == CleanFrames(s.schema, b, batch, |SOURCES|);
  }

  lemma SameContext(schema: Schema, a: World, b: World, batch: string)
    requires forall source :: source in SOURCES ==>
      FrameOf(schema, a, batch, source) == FrameOf(schema, b, batch, source)
    ensures ContextOf(schema, a, batch) == ContextOf(schema, b, batch)
  {
    hide FrameOf;
    assert SOURCES[CLUBS] in SOURCES && SOURCES[COMPETITIONS] in SOURCES && SOURCES[PLAYERS] in SOURCES
      && SOURCES[GAMES] in SOURCES;
    forall t | t in FK_TARGETS ensures t.0 in SOURCES {}
    assert Lookups(schema, a, batch, FK_TARGETS) == Lookups(schema, b, batch, FK_TARGETS);
    assert LookupRaises(schema, a, batch, FK_TARGETS) == LookupRaises(schema, b, batch, FK_TARGETS);
  }

  // ----- What the other artifacts hold -----

  /** The games artifact of a run: one fact a clean game, in order, each decided by its goals. */
  lemma GamesDelivered(base: Settings, dim: seq<Version>, t: Turn, i: nat, home: int, away: int)
    requires
      var checked := Checked(base.schema, t.w, t.batch, "games");
      && ArtifactsAt(base, dim, t).games.Some? && checked.Some? && i < |checked.value.clean.rows|
      && (var r := checked.value.clean.rows[i];
        Facts.CountIs(Get(r, "home_club_goals"), home) && Facts.CountIs(Get(r, "away_club_goals"), away))
    ensures
      var games := ArtifactsAt(base, dim, t).games.value;
      var clean := Checked(base.schema, t.w, t.batch, "games").value.clean;
      && |games| == |clean.rows|
      && (Get(games[i], "outcome") == Text("home_win") <==> home > away)
      && (Get(games[i], "outcome") == Text("away_win") <==> away > home)
      && (Get(games[i], "outcome") == Text("draw") <==> home == away)
  {
    hide Checked, ArtifactsAt, Facts.GameFact, Facts.CountIs;
    GamesOfTurn(base, dim, t);
    var r := Checked(base.schema, t.w, t.batch, "games").value.clean.rows[i];
    Facts.GameFactOutcome(base.spec.hash.str, r, home, away);
  }

  lemma GamesOfTurn(base: Settings, dim: seq<Version>, t: Turn)
    ensures
      var a, checked := ArtifactsAt(base, dim, t), Checked(base.schema, t.w, t.batch, "games");
      a.games.Some? && checked.Some? ==>
        a.games.value == Map(checked.value.clean.rows, Facts.GameFact(base.spec.hash.str))
  {
    hide Checked, Merge, Validate, AppearanceFacts, Facts.GameFact, Facts.GamesBuild;
    assert SOURCES[GAMES] in SOURCES;
    assert SOURCES[..|SOURCES|] == SOURCES;
  }

  /** The clubs artifact of a run: every clean club, in order, with exactly the listed columns. */
  lemma ClubsDelivered(base: Settings, dim: seq<Version>, t: Turn, i: nat, c: string)
    requires
      var checked := Checked(base.schema, t.w, t.batch, "clubs");
      ArtifactsAt(base, dim, t).clubs.Some? && checked.Some? && i < |checked.value.clean.rows|
    ensures
      var clubs := ArtifactsAt(base, dim, t).clubs.value;
      var clean := Checked(base.schema, t.w, t.batch, "clubs").value.clean;
      && |clubs| == |clean.rows|
      && Get(clubs[i], c) == if c in Type1.CLUB_COLUMNS then Get(clean.rows[i], c) else Null
  {
    hide FrameOf, ContextOf, DqSpec, ArtifactsAt, RulesFor, Type1.DimClubs, KeyUnique;
    ReferencesOfTurn(base, dim, t);
    CleanReferencesAreKeyed(
      FrameOf(base.schema, t.w, t.batch, "clubs").value, ContextOf(base.schema, t.w, t.batch));
    Type1.KeyedClubsArrive(Checked(base.schema, t.w, t.batch, "clubs").value.clean.rows);
  }

  /** The competitions artifact of a run: every clean competition, in order, with its country's code. */
  lemma CompetitionsDelivered(base: Settings, dim: seq<Version>, t: Turn, i: nat)
    requires
      var checked := Checked(base.schema, t.w, t.batch, "competitions");
      ArtifactsAt(base, dim, t).competitions.Some? && checked.Some? && i < |checked.value.clean.rows|
    ensures
      var found := ArtifactsAt(base, dim, t).competitions.value;
      var clean := Checked(base.schema, t.w, t.batch, "competitions").value.clean;
      && |found| == |clean.rows|
      && Type1.CompetitionArrives(clean.rows[i], found[i], base.normalisers.country)
  {
    hide FrameOf, ContextOf, DqSpec, ArtifactsAt, RulesFor, Type1.DimCompetitions, KeyUnique;
    ReferencesOfTurn(base, dim, t);
    CleanReferencesAreKeyed(
      FrameOf(base.schema, t.w, t.batch, "competitions").value, ContextOf(base.schema, t.w, t.batch));
    Type1.KeyedCompetitionsArrive(
      Checked(base.schema, t.w, t.batch, "competitions").value.clean.rows, base.normalisers.country);
  }

  lemma ReferencesOfTurn(base: Settings, dim: seq<Version>, t: Turn)
    ensures
      var a := ArtifactsAt(base, dim, t);
      var clubs := Checked(base.schema, t.w, t.batch, "clubs");
      var competitions := Checked(base.schema, t.w, t.batch, "competitions");
      && (a.clubs.Some? && clubs.Some? ==> a.clubs.value == Type1.DimClubs(clubs.value.clean.rows))
      && (a.competitions.Some? && competitions.Some? ==>
        a.competitions.value == Type1.DimCompetitions(competitions.value.clean.rows, base.normalisers.country))
  {
    hide Checked, Merge, Validate, AppearanceFacts, Type1.DimClubs, Type1.DimCompetitions, Facts.GamesBuild;
    assert SOURCES[CLUBS] in SOURCES && SOURCES[COMPETITIONS] in SOURCES;
    assert SOURCES[..|SOURCES|] == SOURCES;
  }
}
