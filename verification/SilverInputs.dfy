/**
 * What Silver reads from Bronze: the resolved frame of each source, the foreign-key lookups, and the DQ
 * result. Recording quarantine counts between reads does not disturb what later reads resolve to.
 */
module SilverInputs {
  import opened Wrappers
  import opened Sequences
  import opened Ordering
  import opened Frames
  import opened AuditLog
  import opened AuditDao
  import opened BronzeStore
  import opened BronzeWriter
  import opened DqRules
  import opened DqRunner
  import opened DqConfig
  import SilverAudit

  /** The columns of each source's file, and Python's `float()` on text. */
  datatype Schema = Schema(columns: string -> seq<string>, parseFloat: string -> Option<real>)

  /** `_read_bronze`: the resolved partition, or FileNotFoundError. */
  function FrameOf(schema: Schema, w: World, batch: string, source: string): Option<Frame> {
    var p := Resolve(w, source, batch);
    if p.Some? && p.value in w.parts then Some(Frame(schema.columns(source), w.parts[p.value])) else None
  }

  function ValuesOf(rows: seq<Row>, column: string): set<Value> {
    set r | r in rows && !Get(r, column).Null? :: Get(r, column)
  }

  /** A target that resolves has all its values; one that does not is absent. */
  function Lookups(schema: Schema, w: World, batch: string, targets: seq<(string, string)>)
    : map<(string, string), set<Value>>
  {
    map t | t in targets && FrameOf(schema, w, batch, t.0).Some? ::
      ValuesOf(FrameOf(schema, w, batch, t.0).value.rows, t.1)
  }

  /** Selecting a column that the source's frame does not have raises. */
  predicate LookupRaises(schema: Schema, w: World, batch: string, targets: seq<(string, string)>) {
    exists t :: t in targets && FrameOf(schema, w, batch, t.0).Some? && t.1 !in schema.columns(t.0)
  }

  lemma NoTargets(schema: Schema, w: World, batch: string)
    ensures !LookupRaises(schema, w, batch, []) && Lookups(schema, w, batch, []) == map[]
  {
  }

  lemma TargetStep(schema: Schema, w: World, batch: string, targets: seq<(string, string)>, t: (string, string))
    ensures
      var frame := FrameOf(schema, w, batch, t.0);
      && (LookupRaises(schema, w, batch, targets + [t]) <==>
        LookupRaises(schema, w, batch, targets) || (frame.Some? && t.1 !in schema.columns(t.0)))
      && Lookups(schema, w, batch, targets + [t]) ==
        if frame.Some? then Lookups(schema, w, batch, targets)[t := ValuesOf(frame.value.rows, t.1)]
        else Lookups(schema, w, batch, targets)
  {
    hide FrameOf, ValuesOf;
    assert t in targets + [t];
  }

  lemma OneRaises(schema: Schema, w: World, batch: string, targets: seq<(string, string)>, i: nat)
    requires i < |targets| && FrameOf(schema, w, batch, targets[i].0).Some?
    requires targets[i].1 !in schema.columns(targets[i].0)
    ensures LookupRaises(schema, w, batch, targets)
  {
    hide FrameOf;
    assert targets[i] in targets;
  }

  /** It raises exactly when one of the four referenced files can be read and lacks its id column. */
  lemma LookupRaisesIff(schema: Schema, w: World, batch: string)
    ensures LookupRaises(schema, w, batch, FK_TARGETS) <==>
      || LacksColumn(schema, w, batch, "competitions", "competition_id")
      || LacksColumn(schema, w, batch, "clubs", "club_id")
      || LacksColumn(schema, w, batch, "players", "player_id")
      || LacksColumn(schema, w, batch, "games", "game_id")
  {
    hide FrameOf;
    assert FK_TARGETS[0] in FK_TARGETS && FK_TARGETS[1] in FK_TARGETS && FK_TARGETS[2] in FK_TARGETS;
    assert FK_TARGETS[3] in FK_TARGETS;
  }

  predicate LacksColumn(schema: Schema, w: World, batch: string, source: string, column: string) {
    FrameOf(schema, w, batch, source).Some? && column !in schema.columns(source)
  }

  /** `build_fk_lookups`; None where it raises. */
  method BuildFkLookups(dao: Dao, lake: Lake, schema: Schema, batch: string)
    returns (lookups: Option<map<(string, string), set<Value>>>)
    ensures
      var w := World(dao.Value(), lake.parts);
      lookups ==
        if LookupRaises(schema, w, batch, FK_TARGETS) then None else Some(Lookups(schema, w, batch, FK_TARGETS))
  {
    hide FrameOf, ValuesOf, LookupRaises, Lookups;
    ghost var w := World(dao.Value(), lake.parts);
    NoTargets(schema, w, batch);
    var sets: map<(string, string), set<Value>> := map[];
    for i := 0 to |FK_TARGETS|
      invariant !LookupRaises(schema, w, batch, FK_TARGETS[..i])
      invariant sets == Lookups(schema, w, batch, FK_TARGETS[..i])
    {
      var t := FK_TARGETS[i];
      assert FK_TARGETS[..i + 1] == FK_TARGETS[..i] + [t];
      TargetStep(schema, w, batch, FK_TARGETS[..i], t);
      var frame := FrameOf(schema, World(dao.Value(), lake.parts), batch, t.0);
      if frame.None? {
        continue;
      }
      if t.1 !in schema.columns(t.0) {
        OneRaises(schema, w, batch, FK_TARGETS, i);
        return None;
      }
      sets := sets[t := ValuesOf(frame.value.rows, t.1)];
    }
    assert FK_TARGETS[..|FK_TARGETS|] == FK_TARGETS;
    lookups := Some(sets);
  }

  /** Without lookups every reference passes. */
  function ContextOf(schema: Schema, w: World, batch: string): Context {
    Context(
      if LookupRaises(schema, w, batch, FK_TARGETS) then map[] else Lookups(schema, w, batch, FK_TARGETS),
      schema.parseFloat)
  }

  /** The DQ result of a source that can be read. */
  function Checked(schema: Schema, w: World, batch: string, source: string): Option<DqResult> {
    var frame := FrameOf(schema, w, batch, source);
    if frame.None? then None
    else Some(DqSpec(source, RulesFor(source), frame.value, ContextOf(schema, w, batch)))
  }

  // ----- Counts do not disturb resolution -----

  /** A change of audit rows that resolution cannot see. */
  ghost predicate Unseen(f: AuditRow -> AuditRow) {
    forall r: AuditRow :: SeenAlike(r, f(r))
  }

  predicate SeenAlike(r: AuditRow, r': AuditRow) {
    r'.batch == r.batch && r'.source == r.source && r'.checksum == r.checksum && r'.status == r.status
    && r'.registeredAt == r.registeredAt
  }

  function OptionMap(r: Option<AuditRow>, f: AuditRow -> AuditRow): Option<AuditRow> {
    if r.None? then None else Some(f(r.value))
  }

  lemma {:induction false} MostRecentUnseen(rows: seq<AuditRow>, f: AuditRow -> AuditRow)
    requires Unseen(f)
    ensures MostRecent(Map(rows, f)) == OptionMap(MostRecent(rows), f)
  {
    if rows != [] {
      var n := |rows| - 1;
      MostRecentUnseen(rows[..n], f);
      assert Map(rows, f)[..n] == Map(rows[..n], f);
      assert SeenAlike(rows[n], f(rows[n]));
      var rest := MostRecent(rows[..n]);
      if rest.Some? {
        assert SeenAlike(rest.value, f(rest.value));
      }
    }
  }

  lemma FilterUnseen(rows: seq<AuditRow>, f: AuditRow -> AuditRow, p: AuditRow -> bool)
    requires Unseen(f)
    requires forall r, r' :: SeenAlike(r, r') ==> p(r) == p(r')
    ensures Filter(Map(rows, f), p) == Map(Filter(rows, p), f)
  {
    forall r | r in rows ensures p(r) == p(f(r)) {
      assert SeenAlike(r, f(r));
    }
    FilterMap(rows, f, p, p);
  }

  lemma CurrentUnseen(rows: seq<AuditRow>, f: AuditRow -> AuditRow, source: string, batch: string)
    requires Unseen(f)
    ensures MostRecentForSource(Map(rows, f), source, batch) == OptionMap(MostRecentForSource(rows, source, batch), f)
  {
    hide Filter, MostRecent;
    FilterUnseen(rows, f, SucceededOfSource(source));
    FilterUnseen(rows, f, BronzeStore.InBatch(batch));
    var candidates, ofBatch := Filter(rows, SucceededOfSource(source)), Filter(rows, BronzeStore.InBatch(batch));
    MostRecentUnseen(candidates, f);
    MostRecentUnseen(ofBatch, f);
    var last := MostRecent(ofBatch);
    if last.Some? {
      assert SeenAlike(last.value, f(last.value));
      FilterUnseen(candidates, f, RegisteredBy(last.value.registeredAt));
      MostRecentUnseen(Filter(candidates, RegisteredBy(last.value.registeredAt)), f);
    }
  }

  lemma CandidatesUnseen(rows: seq<AuditRow>, f: AuditRow -> AuditRow, checksum: string, excluded: string)
    requires Unseen(f)
    ensures CandidateBatches(Map(rows, f), checksum, excluded) == CandidateBatches(rows, checksum, excluded)
  {
    hide Filter, Sort, Distinctly;
    FilterUnseen(rows, f, InOtherBatch(excluded, checksum));
    var matches := Filter(rows, InOtherBatch(excluded, checksum));
    forall a, b ensures NewestRegistered()(f(a), f(b)) == NewestRegistered()(a, b) {
      assert SeenAlike(a, f(a)) && SeenAlike(b, f(b));
    }
    SortMaps(NewestRegistered(), NewestRegistered(), matches, f);
    var sorted := Sort(NewestRegistered(), matches);
    forall i | 0 <= i < |sorted| ensures f(sorted[i]).batch == sorted[i].batch {
      assert SeenAlike(sorted[i], f(sorted[i]));
    }
    assert Map(Map(sorted, f), BatchOf()) == Map(sorted, BatchOf());
  }

  /** Resolution depends only on batch, source, checksum, status and registration of the audit rows. */
  lemma ResolveUnseen(w: World, f: AuditRow -> AuditRow, events: seq<Event>, source: string, batch: string)
    requires Unseen(f)
    ensures Resolve(World(Db(Map(w.db.rows, f), events), w.parts), source, batch) == Resolve(w, source, batch)
  {
    hide MostRecentForSource, CandidateBatches;
    CurrentUnseen(w.db.rows, f, source, batch);
    var current := MostRecentForSource(w.db.rows, source, batch);
    if current.Some? {
      assert SeenAlike(current.value, f(current.value));
      CandidatesUnseen(w.db.rows, f, current.value.checksum, batch);
    }
  }

  /** Recording quarantine counts leaves every frame as it was. */
  lemma {:induction false} QuarantineUnseen(
      schema: Schema, w: World, batch: string, flows: seq<SilverAudit.Flow>, now: int, source: string)
    ensures
      var db := SilverAudit.RunPhase(SilverAudit.QuarantinePhase, w.db, batch, flows, now);
      FrameOf(schema, World(db, w.parts), batch, source) == FrameOf(schema, w, batch, source)
  {
    hide Resolve, Filter;
    if flows != [] {
      var n := |flows| - 1;
      QuarantineUnseen(schema, w, batch, flows[..n], now, source);
      var before := SilverAudit.RunPhase(SilverAudit.QuarantinePhase, w.db, batch, flows[..n], now);
      var f := Apply(OfSource(batch, flows[n].source), SetRejected(flows[n].rejected));
      assert Unseen(f);
      var after := SilverAudit.RunPhase(SilverAudit.QuarantinePhase, w.db, batch, flows, now);
      ResolveUnseen(World(before, w.parts), f, after.events, source, batch);
    }
  }
}
