/**
 * Players from Bronze to the merge: DQ, derived columns, tokenisation. Whatever the players file holds,
 * what reaches the merge is keyed by player id, so every run of Silver keeps the dimension valid.
 */
module SilverPlayers {
  import opened Wrappers
  import opened Sequences
  import opened Frames
  import opened Scd2
  import opened Scd2History
  import opened Scd2Runs
  import opened DimPlayers
  import opened DqRules
  import opened DqRunner
  import opened DqConfig

  const BATCH_COLUMN: string := "batch_id"

  /** The lookups of `normalise_position` and `normalise_country`. */
  datatype Normalisers = Normalisers(canonical: Value -> Value, category: Value -> Value, country: Value -> Value)

  /** The column that deriving positions selects. */
  const PLAYER_INPUTS: seq<string> := ["position"]

  /** The derived columns of a player, without the Bronze batch column. */
  function PlayerRow(n: Normalisers, columns: seq<string>): Row -> Row {
    (r: Row) =>
      var positioned := r["position_canonical" := n.canonical(Get(r, "position"))]
        ["position_category" := n.category(Get(r, "position"))];
      (if "country_of_citizenship" in columns
       then positioned["country_of_citizenship_iso" := n.country(Get(r, "country_of_citizenship"))]
       else positioned) - {BATCH_COLUMN}
  }

  function IsCarried(): string -> bool {
    (c: string) => c != BATCH_COLUMN
  }

  function PlayerColumns(columns: seq<string>): seq<string> {
    Filter(columns, IsCarried()) + ["position_canonical", "position_category"]
    + (if "country_of_citizenship" in columns then ["country_of_citizenship_iso"] else [])
  }

  function PlayerFrame(n: Normalisers, players: Frame): Frame {
    Frame(PlayerColumns(players.columns), Map(players.rows, PlayerRow(n, players.columns)))
  }

  /** The rows handed to the merge for a frame of clean players. */
  function Incoming(n: Normalisers, pii: Option<Pii>, clean: Frame): seq<Row> {
    var rows := PlayerFrame(n, clean).rows;
    if pii.Some? then Map(rows, TokenizeRow(pii.value)) else rows
  }

  /** The columns of the derived frame: the file's but for the batch column, and the derived ones. */
  lemma PlayerColumnsAre(columns: seq<string>, c: string)
    ensures c in PlayerColumns(columns) <==>
      || (c in columns && c != "batch_id")
      || c == "position_canonical" || c == "position_category"
      || (c == "country_of_citizenship_iso" && "country_of_citizenship" in columns)
  {
    FilterIn(columns, IsCarried());
    hide Filter;
    var derived := ["position_canonical", "position_category"];
    assert c in derived <==> c == derived[0] || c == derived[1];
  }

  /** Bronze players of one batch, with the FK lookups of that batch. */
  datatype Delivery = Delivery(frame: Frame, ctx: Context, day: Day)

  function Clean(d: Delivery): Frame {
    DqSpec("players", RulesFor("players"), d.frame, d.ctx).clean
  }

  function BatchOf(n: Normalisers, pii: Option<Pii>): Delivery -> Batch {
    (d: Delivery) => Batch(Incoming(n, pii, Clean(d)), d.day)
  }

  /** The registry's players entry: keyed by player id, which is not tokenised. */
  predicate PlayersSpec(spec: MergeSpec, pii: Option<Pii>) {
    spec.naturalKey == ["player_id"] && (pii.Some? ==> "player_id" !in pii.value.columns)
  }

  /** Derivation and tokenisation leave the player id alone. */
  lemma PlayerIdKept(n: Normalisers, pii: Option<Pii>, clean: Frame, i: nat)
    requires i < |clean.rows| && (pii.Some? ==> "player_id" !in pii.value.columns)
    ensures Get(Incoming(n, pii, clean)[i], "player_id") == Get(clean.rows[i], "player_id")
  {
    var derived := PlayerRow(n, clean.columns)(clean.rows[i]);
    DerivedId(n, clean.columns, clean.rows[i]);
    if pii.Some? {
      TokenizeLeavesOthers(pii.value, pii.value.columns, derived, "player_id");
    }
  }

  const DERIVED: set<string> := {"position_canonical", "position_category", "country_of_citizenship_iso", BATCH_COLUMN}

  /** The derived columns hold the normalised values; every other column is the source's. */
  lemma DerivedColumns(n: Normalisers, columns: seq<string>, r: Row)
    ensures
      var p := PlayerRow(n, columns)(r);
      && Get(p, "position_canonical") == n.canonical(Get(r, "position"))
      && Get(p, "position_category") == n.category(Get(r, "position"))
      && ("country_of_citizenship" in columns ==>
          Get(p, "country_of_citizenship_iso") == n.country(Get(r, "country_of_citizenship")))
      && BATCH_COLUMN !in p
      && (forall c :: c !in DERIVED ==> Get(p, c) == Get(r, c))
  {
    assert "position_canonical"[11] == 'n' && "position_category"[11] == 't';
    assert "position_canonical"[0] == 'p' && "position_category"[0] == 'p';
    assert "country_of_citizenship_iso"[0] == 'c' && BATCH_COLUMN[0] == 'b';
  }

  lemma DerivedId(n: Normalisers, columns: seq<string>, r: Row)
    ensures Get(PlayerRow(n, columns)(r), "player_id") == Get(r, "player_id")
  {
    DerivedColumns(n, columns, r);
    assert "player_id"[1] == 'l' && "position_canonical"[1] == 'o' && "position_category"[1] == 'o';
    assert "country_of_citizenship_iso"[0] == 'c' && BATCH_COLUMN[0] == 'b';
  }

  /** So rows keyed by player id stay keyed. */
  lemma IncomingIsKeyed(n: Normalisers, pii: Option<Pii>, clean: Frame)
    requires pii.Some? ==> "player_id" !in pii.value.columns
    requires KeyUnique(["player_id"], clean.rows)
    requires forall r :: r in clean.rows ==> !Get(r, "player_id").Null?
    ensures KeyUnique(["player_id"], Incoming(n, pii, clean))
    ensures forall r :: r in Incoming(n, pii, clean) ==> !Get(r, "player_id").Null?
  {
    hide Incoming;
    var rows := Incoming(n, pii, clean);
    IncomingLength(n, pii, clean);
    forall i | 0 <= i < |rows| ensures Get(rows[i], "player_id") == Get(clean.rows[i], "player_id") {
      PlayerIdKept(n, pii, clean, i);
    }
    forall i | 0 <= i < |rows| ensures Project(["player_id"], rows[i]) == Project(["player_id"], clean.rows[i]) {
    }
    assert Map(rows, ProjectOf(["player_id"])) == Map(clean.rows, ProjectOf(["player_id"]));
    forall r | r in rows ensures !Get(r, "player_id").Null? {
      var i :| 0 <= i < |rows| && rows[i] == r;
      assert clean.rows[i] in clean.rows;
    }
  }

  /** Whatever Bronze delivers, the merge gets rows with distinct, present player ids. */
  lemma MergeInputIsKeyed(spec: MergeSpec, n: Normalisers, pii: Option<Pii>, d: Delivery)
    requires PlayersSpec(spec, pii)
    ensures KeyUnique(spec.naturalKey, Incoming(n, pii, Clean(d)))
    ensures forall r :: r in Incoming(n, pii, Clean(d)) ==> !Get(r, "player_id").Null?
  {
    hide DqSpec, Incoming, KeyUnique;
    CleanPlayersAreKeyed(d.frame, d.ctx);
    IncomingIsKeyed(n, pii, Clean(d));
  }

  lemma IncomingLength(n: Normalisers, pii: Option<Pii>, clean: Frame)
    ensures |Incoming(n, pii, clean)| == |clean.rows|
  {
  }

  /** The dimension after Silver has processed a sequence of deliveries. */
  function Dimension(spec: MergeSpec, n: Normalisers, pii: Option<Pii>, deliveries: seq<Delivery>): seq<Version> {
    Run(spec, Map(deliveries, BatchOf(n, pii)))
  }

  /** Days of batches do not go backwards and lie between the sentinels. */
  predicate DaysInOrder(deliveries: seq<Delivery>) {
    && (forall i :: 0 <= i < |deliveries| ==> FAR_PAST <= deliveries[i].day < FAR_FUTURE)
    && (forall i, j :: 0 <= i < j < |deliveries| ==> deliveries[i].day <= deliveries[j].day)
  }

  /**
   * Whatever the players files hold, duplicates and missing ids included, the dimension never has two
   * current or overlapping versions of a player, or two versions with one surrogate key.
   */
  lemma SilverKeepsPlayersValid(spec: MergeSpec, n: Normalisers, pii: Option<Pii>, deliveries: seq<Delivery>)
    requires PlayersSpec(spec, pii) && DaysInOrder(deliveries)
    ensures
      var batches := Map(deliveries, BatchOf(n, pii));
      InOrder(spec, batches) && Valid(spec, Dimension(spec, n, pii, deliveries), Clock(batches))
    ensures Distinct(Map(Current(Dimension(spec, n, pii, deliveries)), VersionKeyOf(spec)))
  {
    hide Incoming, Clean, Run, Valid, Current, KeyUnique;
    var batches := Map(deliveries, BatchOf(n, pii));
    forall i | 0 <= i < |batches| ensures KeyUnique(spec.naturalKey, batches[i].rows) {
      MergeInputIsKeyed(spec, n, pii, deliveries[i]);
    }
    EveryRunIsValid(spec, batches);
    assert KeyUnique(spec.naturalKey, []) by { NoRowsKeyed(spec.naturalKey); }
    ValidIsWellKeyed(spec, Dimension(spec, n, pii, deliveries), Clock(batches), []);
  }

  /** Switching tokenisation on tokenises the dimension and changes nothing else, over whole runs. */
  lemma TokenisedDimension(spec: MergeSpec, n: Normalisers, pii: Pii, deliveries: seq<Delivery>)
    requires Untracked(spec, pii)
    ensures Dimension(spec, n, Some(pii), deliveries) ==
      Map(Dimension(spec, n, None, deliveries), OnVersion(TokenizeRow(pii)))
  {
    hide Clean, Run, TokenizeColumns, PlayerFrame;
    assert Map(Map(deliveries, BatchOf(n, None)), TokenizeBatch(pii)) == Map(deliveries, BatchOf(n, Some(pii)));
    TokenizedRun(spec, pii, Map(deliveries, BatchOf(n, None)));
  }

  /** A clean player of some delivery, with its derived columns, has this protected form. */
  ghost predicate ProtectsDelivered(n: Normalisers, pii: Pii, deliveries: seq<Delivery>, t: Row) {
    exists d :: d in deliveries && ProtectsSome(pii, PlayerFrame(n, Clean(d)).rows, t)
  }

  /** With tokenisation on, every version that Silver ever keeps holds tokens in the listed columns. */
  lemma SilverProtects(spec: MergeSpec, n: Normalisers, pii: Pii, deliveries: seq<Delivery>)
    requires Distinct(pii.columns)
    ensures forall v :: v in Dimension(spec, n, Some(pii), deliveries) ==>
      ProtectsDelivered(n, pii, deliveries, v.row)
  {
    hide Clean, Run, TokenizeColumns, PlayerFrame, ProtectsSome;
    var batches := Map(deliveries, BatchOf(n, None));
    assert Map(batches, TokenizeBatch(pii)) == Map(deliveries, BatchOf(n, Some(pii)));
    NoPlainText(spec, pii, batches);
    forall v | v in Dimension(spec, n, Some(pii), deliveries) ensures ProtectsDelivered(n, pii, deliveries, v.row) {
      var b :| b in batches && ProtectsSome(pii, b.rows, v.row);
      var i :| 0 <= i < |batches| && batches[i] == b;
      assert deliveries[i] in deliveries;
    }
  }

  lemma NoRowsKeyed(columns: seq<string>)
    ensures KeyUnique(columns, [])
  {
  }
}
