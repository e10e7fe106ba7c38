/** The configured rules, and what they guarantee to the builders of Silver. */
module DqConfig {
  import opened Wrappers
  import opened Frames
  import opened DqRules
  import opened DqRunner

  const COMPETITION_RULES: seq<Rule> := [
    NotNull("competitions", Critical, ["competition_id", "name"]),
    Unique("competitions", Critical, ["competition_id"])
  ]

  const CLUB_RULES: seq<Rule> := [
    NotNull("clubs", Critical, ["club_id", "name", "domestic_competition_id"]),
    Unique("clubs", Critical, ["club_id"]),
    ForeignKey("clubs", Critical, "domestic_competition_id", "competitions", "competition_id"),
    Range("clubs", Warning, "squad_size", Some(0.0), Some(200.0))
  ]

  const PLAYER_RULES: seq<Rule> := [
    NotNull("players", Critical, ["player_id", "name", "current_club_id"]),
    Unique("players", Critical, ["player_id"]),
    ForeignKey("players", Critical, "current_club_id", "clubs", "club_id"),
    Range("players", Warning, "market_value_in_eur", Some(0.0), Some(500000000.0))
  ]

  const GAME_RULES: seq<Rule> := [
    NotNull("games", Critical, ["game_id", "date", "home_club_id", "away_club_id"]),
    Unique("games", Critical, ["game_id"]),
    ForeignKey("games", Critical, "home_club_id", "clubs", "club_id"),
    ForeignKey("games", Critical, "away_club_id", "clubs", "club_id"),
    ForeignKey("games", Critical, "competition_id", "competitions", "competition_id"),
    Range("games", Warning, "home_club_goals", Some(0.0), Some(30.0)),
    Range("games", Warning, "away_club_goals", Some(0.0), Some(30.0))
  ]

  const APPEARANCE_RULES: seq<Rule> := [
    NotNull("appearances", Critical, ["appearance_id", "player_id", "game_id", "date"]),
    Unique("appearances", Critical, ["appearance_id"]),
    ForeignKey("appearances", Critical, "player_id", "players", "player_id"),
    ForeignKey("appearances", Critical, "game_id", "games", "game_id"),
    Range("appearances", Warning, "minutes_played", Some(0.0), Some(120.0)),
    Range("appearances", Warning, "goals", Some(0.0), Some(10.0)),
    Range("appearances", Warning, "assists", Some(0.0), Some(10.0))
  ]

  const VALUATION_RULES: seq<Rule> := [
    NotNull("player_valuations", Critical, ["player_id", "date", "market_value_in_eur"]),
    ForeignKey("player_valuations", Critical, "player_id", "players", "player_id"),
    Range("player_valuations", Warning, "market_value_in_eur", Some(0.0), Some(500000000.0))
  ]

  function RulesFor(source: string): seq<Rule> {
    if source == "competitions" then COMPETITION_RULES
    else if source == "clubs" then CLUB_RULES
    else if source == "players" then PLAYER_RULES
    else if source == "games" then GAME_RULES
    else if source == "appearances" then APPEARANCE_RULES
    else if source == "player_valuations" then VALUATION_RULES
    else []
  }

  /** The references of the configured foreign-key rules. */
  const FK_TARGETS: seq<(string, string)> := [
    ("competitions", "competition_id"), ("clubs", "club_id"), ("players", "player_id"), ("games", "game_id")]

  /** `fk_dependencies`: every foreign-key rule refers to one of these. */
  lemma TargetsCoverRules(source: string, rule: Rule)
    requires rule in RulesFor(source) && rule.ForeignKey?
    ensures (rule.refSource, rule.refColumn) in FK_TARGETS && rule.severity.Critical? && rule.source == source
  {
    assert FK_TARGETS[0] in FK_TARGETS && FK_TARGETS[1] in FK_TARGETS && FK_TARGETS[2] in FK_TARGETS
      && FK_TARGETS[3] in FK_TARGETS;
  }

  /** Whatever players Bronze holds, the clean ones have a player id each, and no two the same. */
  lemma CleanPlayersAreKeyed(frame: Frame, ctx: Context)
    ensures
      var clean := DqSpec("players", RulesFor("players"), frame, ctx).clean.rows;
      && KeyUnique(["player_id"], clean)
      && (forall r :: r in clean ==> !Get(r, "player_id").Null?)
  {
    hide DqSpec;
    var rules := RulesFor("players");
    assert PLAYER_RULES[0] in rules && PLAYER_RULES[1] in rules;
    CleanRowsKeyed("players", rules, frame, ctx, ["player_id"]);
    CleanRowsNotNull("players", rules, frame, ctx, ["player_id", "name", "current_club_id"], "player_id");
  }

  /** Clean clubs and competitions are keyed by their id, so deduplicating them drops nothing. */
  lemma CleanReferencesAreKeyed(frame: Frame, ctx: Context)
    ensures KeyUnique(["club_id"], DqSpec("clubs", RulesFor("clubs"), frame, ctx).clean.rows)
    ensures KeyUnique(["competition_id"], DqSpec("competitions", RulesFor("competitions"), frame, ctx).clean.rows)
  {
    hide DqSpec;
    assert CLUB_RULES[1] in RulesFor("clubs");
    CleanRowsKeyed("clubs", RulesFor("clubs"), frame, ctx, ["club_id"]);
    assert COMPETITION_RULES[1] in RulesFor("competitions");
    CleanRowsKeyed("competitions", RulesFor("competitions"), frame, ctx, ["competition_id"]);
  }
}
