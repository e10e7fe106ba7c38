/**
 * The fact builders on ISO text, as the code runs them, and their refinement to the day-level lookup of
 * module AsOf.
 */
module Facts {
  import opened Wrappers
  import opened Sequences
  import opened Ordering
  import opened Frames
  import opened Scd2
  import opened Scd2History
  import opened Calendar
  import Scd2Runs
  import AsOf

  const BATCH_COLUMN: string := "batch_id"
  const PLAYER_ID: string := "player_id"

  /** One index entry: a version with its dates as ISO text. */
  datatype Entry = Entry(eff: string, end: string, sk: int)

  function NewestTextFirst(): (Entry, Entry) -> bool {
    (a: Entry, b: Entry) => TextLe(b.eff, a.eff)
  }

  function IsFor(player: Value): ((Value, Entry)) -> bool {
    (record: (Value, Entry)) => record.0 == player
  }

  function EntryOf(): ((Value, Entry)) -> Entry {
    (record: (Value, Entry)) => record.1
  }

  function EntriesOf(records: seq<(Value, Entry)>, player: Value): seq<Entry> {
    Map(Filter(records, IsFor(player)), EntryOf())
  }

  function Players(records: seq<(Value, Entry)>): set<Value> {
    set record | record in records :: record.0
  }

  /** Each player's versions, newest first. */
  function IndexOf(records: seq<(Value, Entry)>): map<Value, seq<Entry>> {
    map p | p in Players(records) :: Sort(NewestTextFirst(), EntriesOf(records, p))
  }

  /** `_build_player_version_index`: group by player, then sort each list. */
  method BuildPlayerVersionIndex(records: seq<(Value, Entry)>) returns (index: map<Value, seq<Entry>>)
    ensures index == IndexOf(records)
  {
    hide Sort, EntriesOf, Players, Grouped;
    index := map[];
    NothingGrouped();
    for i := 0 to |records|
      invariant Grouped(index, records[..i])
    {
      var (player, entry) := records[i];
      assert records[..i + 1] == records[..i] + [records[i]];
      var versions := if player in index then index[player] else [];
      GroupedStep(index, records[..i], records[i]);
      index := index[player := versions + [entry]];
    }
    assert records[..|records|] == records;
    GroupedFields(index, records);
    index := SortVersions(index);
  }

  /** The index lists every player's entries in record order. */
  ghost predicate Grouped(index: map<Value, seq<Entry>>, records: seq<(Value, Entry)>) {
    index.Keys == Players(records) && forall p :: p in index ==> index[p] == EntriesOf(records, p)
  }

  lemma NothingGrouped()
    ensures Grouped(map[], [])
  {
  }

  lemma GroupedFields(index: map<Value, seq<Entry>>, records: seq<(Value, Entry)>)
    requires Grouped(index, records)
    ensures index.Keys == Players(records) && forall p :: p in index ==> index[p] == EntriesOf(records, p)
  {
  }

  lemma GroupedStep(index: map<Value, seq<Entry>>, records: seq<(Value, Entry)>, record: (Value, Entry))
    requires Grouped(index, records)
    ensures
      var versions := if record.0 in index then index[record.0] else [];
      Grouped(index[record.0 := versions + [record.1]], records + [record])
  {
    hide EntriesOf, Players;
    PlayersSnoc(records, record);
    EntriesAfter(records, record);
    if record.0 !in index {
      NoEntries(records, record.0);
    }
  }

  /** The second loop: each player's list is sorted in place. */
  method SortVersions(grouped: map<Value, seq<Entry>>) returns (index: map<Value, seq<Entry>>)
    ensures index.Keys == grouped.Keys
    ensures forall p :: p in index ==> index[p] == Sort(NewestTextFirst(), grouped[p])
  {
    hide Sort;
    index := grouped;
    var todo := index.Keys;
    while todo != {}
      invariant todo <= index.Keys == grouped.Keys
      invariant forall p :: p in index ==>
        index[p] == if p in todo then grouped[p] else Sort(NewestTextFirst(), grouped[p])
      decreases |todo|
    {
      var player :| player in todo;
      index := index[player := Sort(NewestTextFirst(), index[player])];
      todo := todo - {player};
    }
  }

  lemma PlayersSnoc(records: seq<(Value, Entry)>, record: (Value, Entry))
    ensures Players(records + [record]) == Players(records) + {record.0}
  {
    assert record in records + [record];
    forall r | r in records ensures r in records + [record] {}
  }

  lemma EntriesAfter(records: seq<(Value, Entry)>, record: (Value, Entry))
    ensures forall p ::
      EntriesOf(records + [record], p) == EntriesOf(records, p) + (if p == record.0 then [record.1] else [])
  {
    forall p
      ensures EntriesOf(records + [record], p) == EntriesOf(records, p) + (if p == record.0 then [record.1] else [])
    {
      EntriesSnoc(records, record, p);
    }
  }

  lemma EntriesSnoc(records: seq<(Value, Entry)>, record: (Value, Entry), p: Value)
    ensures EntriesOf(records + [record], p) == EntriesOf(records, p) + (if p == record.0 then [record.1] else [])
  {
    FilterSnoc(records, record, IsFor(p));
  }

  lemma NoEntries(records: seq<(Value, Entry)>, p: Value)
    requires p !in Players(records)
    ensures EntriesOf(records, p) == []
  {
    FilterNone(records, IsFor(p));
  }

  function FirstInTextWindow(versions: seq<Entry>, datePart: string): Option<int> {
    if versions == [] then None
    else if TextLe(versions[0].eff, datePart) && TextLe(datePart, versions[0].end) then Some(versions[0].sk)
    else FirstInTextWindow(versions[1..], datePart)
  }

  /** What `_lookup_player_sk_at` returns. */
  function LookupAt(player: Value, matchDate: Option<string>, index: map<Value, seq<Entry>>): Option<int> {
    if player.Null? || matchDate.None? || player !in index then None
    else
      var s := Strip(matchDate.value);
      if s == "" then None else FirstInTextWindow(index[player], DatePart(s))
  }

  /** `_lookup_player_sk_at`: scan the player's versions and stop at the first window that fits. */
  method LookupPlayerSkAt(player: Value, matchDate: Option<string>, index: map<Value, seq<Entry>>)
    returns (sk: Option<int>)
    ensures sk == LookupAt(player, matchDate, index)
  {
    if player.Null? || matchDate.None? || player !in index || index[player] == [] {
      return None;
    }
    var s := Strip(matchDate.value);
    if s == "" {
      return None;
    }
    var datePart := DatePart(s);
    var versions := index[player];
    for i := 0 to |versions|
      invariant FirstInTextWindow(versions, datePart) == FirstInTextWindow(versions[i..], datePart)
    {
      assert versions[i..][1..] == versions[i + 1..];
      if TextLe(versions[i].eff, datePart) && TextLe(datePart, versions[i].end) {
        return Some(versions[i].sk);
      }
    }
    return None;
  }

  // ----- Text agrees with days -----

  function DateOf(day: Day): Date {
    Date(day / 10000, day / 100 % 100, day % 100)
  }

  predicate IsDay(day: Day) {
    ValidDate(DateOf(day))
  }

  function IsoDay(day: Day): string {
    if IsDay(day) then Iso(DateOf(day)) else ""
  }

  function EntryOfVersion(): Version -> Entry {
    (v: Version) => Entry(IsoDay(v.eff), IsoDay(v.end), v.sk)
  }

  /** The index record of a version: player id and ISO dates. */
  function RecordOf(): Version -> (Value, Entry) {
    (v: Version) => (Get(v.row, PLAYER_ID), EntryOfVersion()(v))
  }

  /** The index of a dimension. */
  function VersionIndex(dim: seq<Version>): map<Value, seq<Entry>> {
    IndexOf(Map(dim, RecordOf()))
  }

  predicate Dates(vs: seq<Version>) {
    forall v :: v in vs ==> IsDay(v.eff) && IsDay(v.end)
  }

  lemma IsoDayOrder(a: Day, b: Day)
    requires IsDay(a) && IsDay(b)
    ensures TextLe(IsoDay(a), IsoDay(b)) <==> a <= b
  {
    hide Iso, LexLe;
    IsoOrder(DateOf(a), DateOf(b));
    KeyOfDate(a);
    KeyOfDate(b);
  }

  lemma TenThousands(k: int)
    ensures k / 10000 == k / 100 / 100
  {
    var q, r := k / 100, k % 100;
    var c, m := q / 100, q % 100;
    assert k == 10000 * c + (100 * m + r);
  }

  lemma KeyOfDate(day: Day)
    ensures DateKey(DateOf(day)) == day
  {
    TenThousands(day);
    assert day == 100 * (day / 100) + day % 100;
    assert day / 100 == 100 * (day / 100 / 100) + day / 100 % 100;
  }

  lemma DateOfKey(d: Date)
    requires ValidDate(d)
    ensures DateOf(DateKey(d)) == d
  {
    var k := DateKey(d);
    TenThousands(k);
    assert k == 100 * (100 * d.year + d.month) + d.day;
    assert k / 100 == 100 * d.year + d.month && k % 100 == d.day;
  }

  lemma {:induction false} ScanMaps(vs: seq<Version>, day: Day)
    requires Dates(vs) && IsDay(day)
    ensures FirstInTextWindow(Map(vs, EntryOfVersion()), IsoDay(day)) == AsOf.SkOption(AsOf.FirstInWindow(vs, day))
  {
    hide IsDay, IsoDay, LexLe;
    if vs != [] {
      assert vs[0] in vs;
      IsoDayOrder(vs[0].eff, day);
      IsoDayOrder(day, vs[0].end);
      assert Map(vs, EntryOfVersion())[1..] == Map(vs[1..], EntryOfVersion());
      ScanMaps(vs[1..], day);
      assert Map(vs, EntryOfVersion())[0] == EntryOfVersion()(vs[0]);
    }
  }

  lemma EntriesOfPlayer(spec: MergeSpec, dim: seq<Version>, player: Value)
    requires spec.naturalKey == [PLAYER_ID]
    ensures EntriesOf(Map(dim, RecordOf()), player) == Map(Versions(spec, dim, [player]), EntryOfVersion())
  {
    hide Filter, IsoDay;
    forall v: Version ensures HasKey(spec, [player])(v) == IsFor(player)(RecordOf()(v)) {
      assert KeyOf(spec, v.row) == [Get(v.row, PLAYER_ID)];
    }
    FilterMap(dim, RecordOf(), IsFor(player), HasKey(spec, [player]));
    assert Map(Map(Versions(spec, dim, [player]), RecordOf()), EntryOf()) ==
      Map(Versions(spec, dim, [player]), EntryOfVersion());
  }

  /** The text scan of the code finds the version that the day-level lookup finds. */
  lemma TextLookupIsDayLookup(
      spec: MergeSpec, dim: seq<Version>, player: Value, d: Date, text: string)
    requires spec.naturalKey == [PLAYER_ID] && Dates(dim)
    requires !player.Null? && ValidDate(d) && Dated(d, text)
    ensures LookupAt(player, Some(text), VersionIndex(dim)) == AsOf.LookupSk(Versions(spec, dim, [player]), DateKey(d))
  {
    hide Filter, Sort, Iso, IsoDay, IsDay, Strip, DatePart, LexLe;
    var vs := Versions(spec, dim, [player]);
    DatePartOfDated(d, text);
    EntriesOfPlayer(spec, dim, player);
    FilterIn(dim, HasKey(spec, [player]));
    if player !in VersionIndex(dim) {
      NoEntries(Map(dim, RecordOf()), player);
      AsOf.NothingToFind(DateKey(d));
    } else {
      SortedEntries(vs);
      var sorted := Sort(AsOf.NewestFirst(), vs);
      forall v | v in sorted ensures v in vs {
        assert v in multiset(sorted);
      }
      IsoOfKey(d);
      ScanMaps(sorted, DateKey(d));
    }
  }

  lemma IsoOfKey(d: Date)
    requires ValidDate(d)
    ensures IsDay(DateKey(d)) && IsoDay(DateKey(d)) == Iso(d)
  {
    DateOfKey(d);
  }

  lemma SortedEntries(vs: seq<Version>)
    requires Dates(vs)
    ensures Sort(NewestTextFirst(), Map(vs, EntryOfVersion())) == Map(Sort(AsOf.NewestFirst(), vs), EntryOfVersion())
  {
    hide Sort, IsoDay, IsDay, LexLe;
    forall a, b | a in vs && b in vs
      ensures NewestTextFirst()(EntryOfVersion()(a), EntryOfVersion()(b)) == AsOf.NewestFirst()(a, b)
    {
      IsoDayOrder(b.eff, a.eff);
    }
    SortMaps(AsOf.NewestFirst(), NewestTextFirst(), vs, EntryOfVersion());
  }

  // ----- Fact rows -----

  /** A date column's cell: whole numbers are keys already, everything else is read as text. */
  function CellOf(str: Value -> string, v: Value): DateCell {
    match v
    case Null => NoDate
    case Num(n) => if n == n.Floor as real then KeyCell(n.Floor) else TextCell(str(v))
    case Text(s) => TextCell(s)
  }

  function OfInt(n: Option<int>): Value {
    if n.None? then Null else Num(n.value as real)
  }

  function SeasonCell(v: Value): Value {
    if !v.Text? then Null
    else
      var season := SeasonOfText(v.text);
      if season.None? then Null else Text(season.value)
  }

  /** `str(match_date)`. */
  function DateText(str: Value -> string, v: Value): Option<string> {
    match v
    case Null => None
    case Num(_) => Some(str(v))
    case Text(s) => Some(s)
  }

  const APPEARANCE_INPUTS: seq<string> := ["date", PLAYER_ID]

  /** Adding season, date key and player key, and dropping the Bronze batch column. */
  function AppearanceFact(str: Value -> string, index: map<Value, seq<Entry>>): Row -> Row {
    (r: Row) =>
      (r["season" := SeasonCell(Get(r, "date"))]
        ["date_key" := OfInt(DateToKey(CellOf(str, Get(r, "date"))))]
        ["player_sk" := OfInt(LookupAt(Get(r, PLAYER_ID), DateText(str, Get(r, "date")), index))]) - {BATCH_COLUMN}
  }

  /** `build_fact_appearances`; it raises when an input column is missing. */
  method BuildFactAppearances(str: Value -> string, appearances: Frame, dimPlayers: seq<Version>)
    returns (facts: Option<seq<Row>>)
    ensures facts ==
      if HasColumns(appearances, APPEARANCE_INPUTS)
      then Some(Map(appearances.rows, AppearanceFact(str, VersionIndex(dimPlayers)))) else None
  {
    hide IndexOf, Map, DateToKey, SeasonCell, LookupAt, CellOf, DateText;
    if !HasColumns(appearances, APPEARANCE_INPUTS) {
      return None;
    }
    var index := BuildPlayerVersionIndex(Map(dimPlayers, RecordOf()));
    var source, rows := appearances.rows, [];
    for i := 0 to |source|
      invariant rows == Map(source[..i], AppearanceFact(str, index))
    {
      MapSnoc(source, i, AppearanceFact(str, index));
      var r := source[i];
      var sk := LookupPlayerSkAt(Get(r, PLAYER_ID), DateText(str, Get(r, "date")), index);
      var fact := r["season" := SeasonCell(Get(r, "date"))]
        ["date_key" := OfInt(DateToKey(CellOf(str, Get(r, "date"))))]["player_sk" := OfInt(sk)];
      rows := rows + [fact - {BATCH_COLUMN}];
    }
    assert source[..|source|] == source;
    facts := Some(rows);
  }

  // ----- Games -----

  /** Python's `int()`: numbers are cut toward zero, text must be a numeral. */
  function Goals(v: Value): Option<int> {
    match v
    case Null => None
    case Num(n) => Some(if n >= 0.0 then n.Floor else -(-n).Floor)
    case Text(s) =>
      var n := ParseDigits(s);
      if n.None? then None else Some(n.value)
  }

  /** `derive_match_outcome`; None where it raises. */
  function MatchOutcome(home: Value, away: Value): Option<string> {
    if home.Null? || away.Null? then Some("unknown")
    else
      var h, a := Goals(home), Goals(away);
      if h.None? || a.None? then None
      else if h.value > a.value then Some("home_win")
      else if a.value > h.value then Some("away_win")
      else Some("draw")
  }

  /** Swapping the sides swaps the winner; draws, unknowns and errors stay. */
  lemma OutcomeIsAntisymmetric(home: Value, away: Value)
    ensures MatchOutcome(away, home) ==
      var outcome := MatchOutcome(home, away);
      if outcome == Some("home_win") then Some("away_win")
      else if outcome == Some("away_win") then Some("home_win")
      else outcome
    ensures MatchOutcome(home, away) == Some("unknown") <==> home.Null? || away.Null?
  {
    assert "home_win"[0] != "away_win"[0] && "draw"[0] == 'd' && "unknown"[0] == 'u';
  }

  function GameOutcome(r: Row): Option<string> {
    MatchOutcome(Get(r, "home_club_goals"), Get(r, "away_club_goals"))
  }

  /** Goal counts that `int()` accepts, or none. */
  predicate GoalsReadable(games: seq<Row>) {
    forall r :: r in games ==> GameOutcome(r).Some?
  }

  function GameFact(str: Value -> string): Row -> Row {
    (r: Row) =>
      var outcome := GameOutcome(r);
      (r["outcome" := if outcome.Some? then Text(outcome.value) else Null]
        ["season" := SeasonCell(Get(r, "date"))]
        ["date_key" := OfInt(DateToKey(CellOf(str, Get(r, "date"))))]) - {BATCH_COLUMN}
  }

  const GAME_INPUTS: seq<string> := ["home_club_goals", "away_club_goals", "date"]

  /** The game builder does not raise: the input columns are there and every goal count is readable. */
  predicate GamesBuild(games: Frame) {
    HasColumns(games, GAME_INPUTS) && GoalsReadable(games.rows)
  }

  /** `build_fact_games`: one fact row a match, unless the build raises. */
  method BuildFactGames(str: Value -> string, games: Frame) returns (facts: Option<seq<Row>>)
    ensures facts == if GamesBuild(games) then Some(Map(games.rows, GameFact(str))) else None
  {
    hide Map, DateToKey, SeasonCell, MatchOutcome, CellOf;
    if !HasColumns(games, GAME_INPUTS) {
      return None;
    }
    var source, rows := games.rows, [];
    for i := 0 to |source|
      invariant rows == Map(source[..i], GameFact(str))
      invariant forall j :: 0 <= j < i ==> GameOutcome(source[j]).Some?
    {
      MapSnoc(source, i, GameFact(str));
      var r := source[i];
      var outcome := GameOutcome(r);
      if outcome.None? {
        assert r in source;
        return None;
      }
      var fact := r["outcome" := Text(outcome.value)]["season" := SeasonCell(Get(r, "date"))]
        ["date_key" := OfInt(DateToKey(CellOf(str, Get(r, "date"))))];
      rows := rows + [fact - {BATCH_COLUMN}];
    }
    assert source[..|source|] == source;
    facts := Some(rows);
  }

  /** A game dated `d` gets the key and season of `d` and its outcome, and keeps every other source column. */
  lemma GameFactIsDated(str: Value -> string, r: Row, d: Date)
    requires Get(r, "date").Text? && ValidDate(d) && Writes(Get(r, "date").text, d)
    requires GameOutcome(r).Some?
    ensures
      var fact := GameFact(str)(r);
      && Get(fact, "outcome") == Text(GameOutcome(r).value)
      && Get(fact, "date_key") == Num(DateKey(d) as real)
      && Get(fact, "season") == Text(Season(d))
      && BATCH_COLUMN !in fact
      && (forall c :: c !in {"outcome", "season", "date_key", BATCH_COLUMN} ==> Get(fact, c) == Get(r, c))
  {
    hide DateToKey, SeasonOfText, Season, MatchOutcome;
    DatedTextParses(d, Get(r, "date").text);
    assert "outcome"[0] == 'o' && "season"[0] == 's' && "date_key"[0] == 'd' && BATCH_COLUMN[0] == 'b';
  }

  // ----- What the outcome says -----

  /** `int(x)`: the whole number next to `x` on the side of zero. */
  predicate CutsTo(x: real, n: int) {
    if x >= 0.0 then n as real <= x < n as real + 1.0 else n as real - 1.0 < x <= n as real
  }

  /** The cell holds a goal count that `int()` reads as `n`. */
  predicate CountIs(v: Value, n: int) {
    match v
    case Null => false
    case Num(x) => CutsTo(x, n)
    case Text(s) => ParseDigits(s) == Some(n)
  }

  lemma GoalsAre(v: Value, n: int)
    requires CountIs(v, n)
    ensures Goals(v) == Some(n)
  {
  }

  /** The outcome column of a built fact, from the goals in the file. */
  lemma GameFactOutcome(str: Value -> string, r: Row, home: int, away: int)
    requires CountIs(Get(r, "home_club_goals"), home) && CountIs(Get(r, "away_club_goals"), away)
    ensures
      var outcome := Get(GameFact(str)(r), "outcome");
      && (outcome == Text("home_win") <==> home > away)
      && (outcome == Text("away_win") <==> away > home)
      && (outcome == Text("draw") <==> home == away)
      && outcome != Text("unknown")
  {
    hide DateToKey, SeasonCell, CellOf, Goals, CountIs;
    GoalsAre(Get(r, "home_club_goals"), home);
    GoalsAre(Get(r, "away_club_goals"), away);
    OutcomeColumn(str, r);
    assert "home_win"[0] == 'h' && "away_win"[0] == 'a' && "draw"[0] == 'd' && "unknown"[0] == 'u';
    assert !Get(r, "home_club_goals").Null? && !Get(r, "away_club_goals").Null? by { CountsPresent(r, home, away); }
  }

  lemma CountsPresent(r: Row, home: int, away: int)
    requires CountIs(Get(r, "home_club_goals"), home) && CountIs(Get(r, "away_club_goals"), away)
    ensures !Get(r, "home_club_goals").Null? && !Get(r, "away_club_goals").Null?
  {
  }

  lemma OutcomeColumn(str: Value -> string, r: Row)
    ensures
      var outcome := GameOutcome(r);
      Get(GameFact(str)(r), "outcome") == if outcome.Some? then Text(outcome.value) else Null
  {
    hide DateToKey, SeasonCell, CellOf, MatchOutcome;
    assert "outcome"[0] == 'o' && "season"[0] == 's' && "date_key"[0] == 'd' && BATCH_COLUMN[0] == 'b';
  }

  /** Without both counts the outcome is unknown. */
  lemma GameFactUnknown(str: Value -> string, r: Row)
    requires Get(r, "home_club_goals").Null? || Get(r, "away_club_goals").Null?
    ensures Get(GameFact(str)(r), "outcome") == Text("unknown")
  {
    hide DateToKey, SeasonCell, CellOf;
    OutcomeColumn(str, r);
  }

  /** `int()` reads the cell. */
  ghost predicate Readable(v: Value) {
    exists n :: CountIs(v, n)
  }

  lemma ReadableIff(v: Value)
    ensures Readable(v) <==> Goals(v).Some?
  {
    if Goals(v).Some? {
      assert CountIs(v, Goals(v).value);
    }
    if n :| CountIs(v, n) {
      GoalsAre(v, n);
    }
  }

  /** The builder raises exactly when an input column is missing, or a game has both counts and one is unreadable. */
  lemma GamesBuildIff(games: Frame)
    ensures GamesBuild(games) <==>
      && "home_club_goals" in games.columns && "away_club_goals" in games.columns && "date" in games.columns
      && forall r :: r in games.rows ==>
        var home, away := Get(r, "home_club_goals"), Get(r, "away_club_goals");
        home.Null? || away.Null? || (Readable(home) && Readable(away))
  {
    hide Goals, Readable;
    assert GAME_INPUTS[0] in GAME_INPUTS && GAME_INPUTS[1] in GAME_INPUTS && GAME_INPUTS[2] in GAME_INPUTS;
    forall r | r in games.rows
      ensures
        var home, away := Get(r, "home_club_goals"), Get(r, "away_club_goals");
        GameOutcome(r).Some? <==> home.Null? || away.Null? || (Readable(home) && Readable(away))
    {
      ReadableIff(Get(r, "home_club_goals"));
      ReadableIff(Get(r, "away_club_goals"));
    }
  }

  /** A date column that already holds a whole number is the key; a missing date has neither key nor season. */
  lemma UntextedDates(str: Value -> string, r: Row, k: int)
    ensures Get(r, "date") == Num(k as real) ==>
      Get(GameFact(str)(r), "date_key") == Num(k as real) && Get(GameFact(str)(r), "season") == Null
    ensures Get(r, "date") == Null ==>
      Get(GameFact(str)(r), "date_key") == Null && Get(GameFact(str)(r), "season") == Null
  {
    hide MatchOutcome;
    assert "outcome"[0] == 'o' && "season"[0] == 's' && "date_key"[0] == 'd' && BATCH_COLUMN[0] == 'b';
  }

  /**
   * An appearance dated `d` gets the surrogate key of its player as of `d`, the key and season of `d`,
   * and keeps every other source column.
   */
  lemma AppearanceFactIsAsOf(
      str: Value -> string, spec: MergeSpec, dim: seq<Version>, r: Row, d: Date)
    requires spec.naturalKey == [PLAYER_ID] && Dates(dim)
    requires !Get(r, PLAYER_ID).Null? && Get(r, "date").Text? && ValidDate(d) && Dated(d, Get(r, "date").text)
    ensures
      var fact := AppearanceFact(str, VersionIndex(dim))(r);
      && Get(fact, "player_sk") == OfInt(AsOf.LookupSk(Versions(spec, dim, [Get(r, PLAYER_ID)]), DateKey(d)))
      && Get(fact, "date_key") == Num(DateKey(d) as real)
      && Get(fact, "season") == Text(Season(d))
      && BATCH_COLUMN !in fact
      && (forall c :: c !in {"season", "date_key", "player_sk", BATCH_COLUMN} ==> Get(fact, c) == Get(r, c))
  {
    hide LookupAt, DateToKey, SeasonOfText, Season, AsOf.LookupSk, Versions, VersionIndex;
    TextLookupIsDayLookup(spec, dim, Get(r, PLAYER_ID), d, Get(r, "date").text);
    DatedWrites(d, Get(r, "date").text);
    DatedTextParses(d, Get(r, "date").text);
  }

  /** A number in the date column of an appearance is scanned as the text it prints as. */
  lemma NumericDateScanned(str: Value -> string, index: map<Value, seq<Entry>>, r: Row, x: real)
    requires Get(r, "date") == Num(x)
    ensures Get(AppearanceFact(str, index)(r), "player_sk") ==
      Get(AppearanceFact(str, index)(r["date" := Text(str(Num(x)))]), "player_sk")
  {
    hide LookupAt, DateToKey, SeasonCell, CellOf, OfInt;
    assert "player_id"[0] == 'p' && "date"[0] == 'd' && BATCH_COLUMN[0] == 'b' && "season"[0] == 's';
    assert |"date"| != |"date_key"|;
  }

  /** Without a player id or a date there is no player key. */
  lemma NobodyWithoutDate(str: Value -> string, index: map<Value, seq<Entry>>, r: Row)
    requires Get(r, "date").Null? || Get(r, PLAYER_ID).Null?
    ensures Get(AppearanceFact(str, index)(r), "player_sk") == Null
  {
    hide DateToKey, SeasonCell, CellOf;
    assert BATCH_COLUMN[0] == 'b';
  }

  lemma KeyStepDates(
      spec: MergeSpec, vs: seq<Version>, r: Option<Row>, ts: Day, next: int, nothing: bool, after: seq<Version>)
    requires KeyStep(spec, vs, r, ts, next, nothing, after)
    requires Dates(vs) && IsDay(ts)
    ensures Dates(after)
  {
    hide IsDay, HashOf, Appends;
    var n := |vs| - 1;
    if Open(vs) {
      assert vs[n] in vs;
      CloseDates(vs, ts);
    }
    if r.Some? {
      AppendDates(vs, r.value, ts, next, after);
      if Open(vs) {
        AppendDates(vs[..n] + [CloseAt(ts)(vs[n])], r.value, ts, next, after);
      }
    }
  }

  lemma FarFutureIsDay()
    ensures IsDay(FAR_FUTURE)
  {
    assert DateOf(FAR_FUTURE) == Date(9999, 12, 31);
  }

  lemma AppendDates(before: seq<Version>, r: Row, ts: Day, next: int, after: seq<Version>)
    requires Dates(before) && IsDay(ts)
    ensures Appends(before, after, r, ts, next) ==> Dates(after)
  {
    FarFutureIsDay();
    hide IsDay;
    if Appends(before, after, r, ts, next) {
      var v := after[|before|];
      assert IsDay(v.eff) && IsDay(v.end);
      assert after == before + [v];
    }
  }

  lemma CloseDates(vs: seq<Version>, ts: Day)
    requires Dates(vs) && IsDay(ts) && vs != []
    ensures
      var n := |vs| - 1;
      Dates(vs[..n]) && Dates(vs[..n] + [CloseAt(ts)(vs[n])])
  {
    hide IsDay;
    assert vs[|vs| - 1] in vs;
  }

  /** Batches dated by real days give a dimension dated by real days. */
  lemma {:induction false} RunDates(spec: MergeSpec, batches: seq<Scd2Runs.Batch>)
    requires Scd2Runs.InOrder(spec, batches)
    requires forall b :: b in batches ==> IsDay(b.day)
    ensures Dates(Scd2Runs.Run(spec, batches))
  {
    hide Merge, KeyStep, Versions, Valid, IsDay;
    if batches != [] {
      var n := |batches| - 1;
      Scd2Runs.PrefixInOrder(spec, batches, n);
      Scd2Runs.EveryRunIsValid(spec, batches[..n]);
      RunDates(spec, batches[..n]);
      assert batches[n] in batches;
      var dim, merged := Scd2Runs.Run(spec, batches[..n]), Scd2Runs.Run(spec, batches);
      var ts := Scd2Runs.EffectiveDay(dim, batches[n].day);
      assert IsDay(FAR_PAST) by { FarPastIsDay(); }
      forall v | v in merged ensures IsDay(v.eff) && IsDay(v.end) {
        var k := KeyOf(spec, v.row);
        MergeOnKey(spec, dim, batches[n].rows, Scd2Runs.Clock(batches[..n]), ts, k);
        VersionsAmong(spec, dim, k);
        VersionsAmong(spec, merged, k);
        KeyStepDates(spec, Versions(spec, dim, k), Incoming(spec, batches[n].rows, k), ts, NextSk(dim),
          NoOutput(dim, batches[n].rows), Versions(spec, merged, k));
      }
    }
  }

  lemma FarPastIsDay()
    ensures IsDay(FAR_PAST)
  {
    assert DateOf(FAR_PAST) == Date(1900, 1, 1);
  }

  lemma VersionsAmong(spec: MergeSpec, dim: seq<Version>, k: seq<Value>)
    ensures forall v :: v in Versions(spec, dim, k) <==> v in dim && KeyOf(spec, v.row) == k
  {
    FilterIn(dim, HasKey(spec, k));
  }

  /**
   * End to end: on a run of full snapshots with strictly increasing days, an appearance's player key is
   * the version whose half-open window contains the match date.
   */
  lemma AppearanceFactOnRun(
      str: Value -> string, spec: MergeSpec, batches: seq<Scd2Runs.Batch>, r: Row, d: Date)
    requires spec.naturalKey == [PLAYER_ID]
    requires Scd2Runs.InOrder(spec, batches) && AsOf.StrictDays(batches) && Scd2Runs.Snapshots(spec, batches)
    requires forall b :: b in batches ==> IsDay(b.day)
    requires !Get(r, PLAYER_ID).Null? && Get(r, "date").Text?
    requires ValidDate(d) && d != LAST_DATE && Dated(d, Get(r, "date").text)
    ensures Get(AppearanceFact(str, VersionIndex(Scd2Runs.Run(spec, batches)))(r), "player_sk") ==
      OfInt(AsOf.HalfOpenSk(Versions(spec, Scd2Runs.Run(spec, batches), [Get(r, PLAYER_ID)]), DateKey(d)))
  {
    hide AppearanceFact, AsOf.LookupSk, AsOf.HalfOpenSk, Versions, Scd2Runs.Snapshots, VersionIndex;
    RunDates(spec, batches);
    AppearanceFactIsAsOf(str, spec, Scd2Runs.Run(spec, batches), r, d);
    LastIsLast(d);
    KeyOrder(d, LAST_DATE);
    AsOf.StrictRunLookup(spec, batches, [Get(r, PLAYER_ID)], DateKey(d));
  }
}
