/** The two Type-1 dimensions: column selection and deduplication on the natural key. */
module Type1 {
  import opened Wrappers
  import opened Sequences
  import opened Frames

  const CLUB_COLUMNS: seq<string> := [
    "club_id", "club_code", "name", "domestic_competition_id", "total_market_value", "squad_size", "average_age",
    "foreigners_number", "foreigners_percentage", "national_team_players", "stadium_name", "stadium_seats",
    "last_season"]

  const COMPETITION_COLUMNS: seq<string> :=
    ["competition_id", "name", "country_name", "sub_type", "type", "confederation"]

  /** `select`: the listed columns that the row has. */
  function SelectColumns(columns: seq<string>): Row -> Row {
    (r: Row) => map c | c in r && c in columns :: r[c]
  }

  /** `distinct(subset)`: the first row of each key, in order. */
  function DistinctRows(key: seq<string>, rows: seq<Row>): (kept: seq<Row>)
    ensures |kept| <= |rows|
  {
    if rows == [] then []
    else
      var n := |rows| - 1;
      DistinctRows(key, rows[..n]) + (if FindRow(key, rows[..n], Project(key, rows[n])) < 0 then [rows[n]] else [])
  }

  /** Deduplication keeps one row for every key that occurs, namely its first. */
  lemma {:induction false} DistinctKeepsFirst(key: seq<string>, rows: seq<Row>)
    ensures forall r :: r in DistinctRows(key, rows) <==> IsFirst(key, rows, r)
    ensures KeyUnique(key, DistinctRows(key, rows))
  {
    if rows != [] {
      var n := |rows| - 1;
      var kept := DistinctRows(key, rows[..n]);
      DistinctKeepsFirst(key, rows[..n]);
      forall r ensures IsFirst(key, rows, r) <==>
        IsFirst(key, rows[..n], r) || (r == rows[n] && FindRow(key, rows[..n], Project(key, r)) < 0)
      {
        FirstSnoc(key, rows, r);
      }
      if FindRow(key, rows[..n], Project(key, rows[n])) < 0 {
        var keys := Map(kept, ProjectOf(key));
        forall k | k in keys ensures k != Project(key, rows[n]) {
          var i :| 0 <= i < |keys| && keys[i] == k;
          assert kept[i] in kept;
          assert IsFirst(key, rows[..n], kept[i]);
        }
        DistinctConcat(keys, [Project(key, rows[n])]);
        assert Map(kept + [rows[n]], ProjectOf(key)) == keys + [Project(key, rows[n])];
      }
    }
  }

  /** `r` is the first row of its key. */
  ghost predicate IsFirst(key: seq<string>, rows: seq<Row>, r: Row) {
    var i := FindRow(key, rows, Project(key, r));
    i >= 0 && rows[i] == r
  }

  lemma FirstSnoc(key: seq<string>, rows: seq<Row>, r: Row)
    requires rows != []
    ensures IsFirst(key, rows, r) <==>
      IsFirst(key, rows[..|rows| - 1], r)
      || (r == rows[|rows| - 1] && FindRow(key, rows[..|rows| - 1], Project(key, r)) < 0)
  {
  }

  /** In keyed rows the last row's key is new. */
  lemma LastKeyIsNew(key: seq<string>, rows: seq<Row>)
    requires KeyUnique(key, rows) && rows != []
    ensures KeyUnique(key, rows[..|rows| - 1])
    ensures FindRow(key, rows[..|rows| - 1], Project(key, rows[|rows| - 1])) < 0
  {
    hide FindRow;
    var n := |rows| - 1;
    var keys := Map(rows, ProjectOf(key));
    assert Map(rows[..n], ProjectOf(key)) == keys[..n];
    forall j | 0 <= j < n ensures Project(key, rows[..n][j]) != Project(key, rows[n]) {
      assert keys[j] != keys[n];
    }
  }

  /** On rows that are keyed already, deduplication drops nothing. */
  lemma {:induction false} DistinctOfKeyed(key: seq<string>, rows: seq<Row>)
    requires KeyUnique(key, rows)
    ensures DistinctRows(key, rows) == rows
  {
    hide FindRow, KeyUnique;
    if rows != [] {
      LastKeyIsNew(key, rows);
      DistinctOfKeyed(key, rows[..|rows| - 1]);
      assert rows == rows[..|rows| - 1] + [rows[|rows| - 1]];
    }
  }

  /** `normalise_country` is a parameter. */
  function WithCountry(normalise: Value -> Value): Row -> Row {
    (r: Row) => if "country_name" in r then r["country_iso_code" := normalise(r["country_name"])] else r
  }

  /** `build_dim_clubs`. */
  function DimClubs(clubs: seq<Row>): seq<Row> {
    DistinctRows(["club_id"], Map(clubs, SelectColumns(CLUB_COLUMNS)))
  }

  /** `build_dim_competitions`. */
  function DimCompetitions(competitions: seq<Row>, normalise: Value -> Value): seq<Row> {
    DistinctRows(
      ["competition_id"], Map(Map(competitions, SelectColumns(COMPETITION_COLUMNS)), WithCountry(normalise)))
  }

  /** The builders as they run: deduplicating raises when the key column is missing. */
  function BuildDimClubs(clubs: Frame): Option<seq<Row>> {
    if HasColumns(clubs, ["club_id"]) then Some(DimClubs(clubs.rows)) else None
  }

  function BuildDimCompetitions(competitions: Frame, normalise: Value -> Value): Option<seq<Row>> {
    if HasColumns(competitions, ["competition_id"]) then Some(DimCompetitions(competitions.rows, normalise)) else None
  }

  /** Keyed clubs all reach their dimension, in order, each with exactly the listed columns. */
  lemma KeyedClubsArrive(clubs: seq<Row>)
    requires KeyUnique(["club_id"], clubs)
    ensures DimClubs(clubs) == Map(clubs, SelectColumns(CLUB_COLUMNS))
    ensures forall i, c :: 0 <= i < |clubs| ==>
      Get(DimClubs(clubs)[i], c) == if c in CLUB_COLUMNS then Get(clubs[i], c) else Null
  {
    hide DistinctRows;
    var selected := Map(clubs, SelectColumns(CLUB_COLUMNS));
    assert CLUB_COLUMNS[0] == "club_id";
    SameKeys(["club_id"], clubs, selected);
    DistinctOfKeyed(["club_id"], selected);
  }

  /** Keyed competitions all reach theirs, with the listed columns and the country's ISO code. */
  lemma KeyedCompetitionsArrive(competitions: seq<Row>, normalise: Value -> Value)
    requires KeyUnique(["competition_id"], competitions)
    ensures |DimCompetitions(competitions, normalise)| == |competitions|
    ensures forall i :: 0 <= i < |competitions| ==>
      CompetitionArrives(competitions[i], DimCompetitions(competitions, normalise)[i], normalise)
  {
    hide DistinctRows;
    var selected := Map(Map(competitions, SelectColumns(COMPETITION_COLUMNS)), WithCountry(normalise));
    assert COMPETITION_COLUMNS[0] == "competition_id" && COMPETITION_COLUMNS[2] == "country_name";
    forall i | 0 <= i < |competitions| ensures CompetitionArrives(competitions[i], selected[i], normalise) {
      CountryCode(competitions[i], normalise);
    }
    SameKeys(["competition_id"], competitions, selected);
    DistinctOfKeyed(["competition_id"], selected);
  }

  predicate CompetitionArrives(r: Row, d: Row, normalise: Value -> Value) {
    && (forall c :: c in COMPETITION_COLUMNS ==> Get(d, c) == Get(r, c))
    && (forall c :: c !in COMPETITION_COLUMNS && c != "country_iso_code" ==> c !in d)
    && (if "country_name" in r then Get(d, "country_iso_code") == normalise(Get(r, "country_name"))
        else "country_iso_code" !in d)
  }

  lemma CountryCode(r: Row, normalise: Value -> Value)
    ensures CompetitionArrives(r, WithCountry(normalise)(SelectColumns(COMPETITION_COLUMNS)(r)), normalise)
  {
    assert "country_iso_code" !in COMPETITION_COLUMNS by {
      assert "country_iso_code"[8] == 'i' && "country_name"[8] == 'n' && "competition_id"[2] == 'm';
      assert "confederation"[2] == 'n' && "country_iso_code"[2] == 'u';
    }
    assert COMPETITION_COLUMNS[2] == "country_name";
  }

  lemma SameKeys(key: seq<string>, rows: seq<Row>, image: seq<Row>)
    requires |image| == |rows|
    requires forall i :: 0 <= i < |rows| ==> forall c :: c in key ==> Get(image[i], c) == Get(rows[i], c)
    ensures KeyUnique(key, rows) ==> KeyUnique(key, image)
  {
    forall i | 0 <= i < |rows| ensures Project(key, image[i]) == Project(key, rows[i]) {
    }
    assert Map(image, ProjectOf(key)) == Map(rows, ProjectOf(key));
  }
}
