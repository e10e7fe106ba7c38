/**
 * What a Silver run records in the audit database: quarantine counts, then the transforming marks, then
 * the outcome of each artifact, one source after the other. Each source's row ends as its flow says.
 */
module SilverAudit {
  import opened Wrappers
  import opened Sequences
  import opened Ordering
  import opened AuditLog
  import Reconcile

  /** One source in a run: rows quarantined, and the artifact's row count if it was built. */
  datatype Flow = Flow(source: string, rejected: nat, silver: Option<nat>)

  function FileOf(): AuditRow -> string {
    (r: AuditRow) => r.path
  }

  /** The source's files, as `list_batch_files` orders them. */
  function FilesOf(db: Db, batch: string, source: string): seq<string> {
    Map(Filter(Reconcile.BatchFiles(db.rows, batch), OfSource(batch, source)), FileOf())
  }

  lemma FilesAreRows(db: Db, batch: string, source: string)
    ensures forall path :: path in FilesOf(db, batch, source) ==>
      exists r :: r in db.rows && r.batch == batch && r.source == source && r.path == path
  {
    hide Filter, Sort;
    var ofBatch := Filter(db.rows, Reconcile.InBatch(batch));
    var files := Reconcile.BatchFiles(db.rows, batch);
    FilterIn(db.rows, Reconcile.InBatch(batch));
    FilterIn(files, OfSource(batch, source));
    var chosen, paths := Filter(files, OfSource(batch, source)), FilesOf(db, batch, source);
    forall path | path in paths
      ensures exists r :: r in db.rows && r.batch == batch && r.source == source && r.path == path
    {
      var i :| 0 <= i < |paths| && paths[i] == path;
      assert chosen[i] in chosen && chosen[i] in files;
      assert chosen[i] in multiset(files);
      assert chosen[i] in multiset(ofBatch);
    }
  }

  /** `record_quarantine`, only when something was quarantined. */
  function Quarantine(db: Db, batch: string, f: Flow, now: int): Db {
    if f.rejected > 0 then Exec(db, RecordQuarantine(batch, f.source, f.rejected), now).0 else db
  }

  function Transform(db: Db, batch: string, f: Flow, now: int): Db {
    Exec(db, MarkTransforming(batch, f.source), now).0
  }

  /** `mark_failed` for each of the source's files. */
  function FailFiles(db: Db, batch: string, paths: seq<string>, now: int): Db {
    if paths == [] then db
    else
      Exec(FailFiles(db, batch, paths[..|paths| - 1], now), MarkFailed(batch, paths[|paths| - 1], "silver", ""), now).0
  }

  function Finalise(db: Db, batch: string, f: Flow, now: int): Db {
    if f.silver.Some? then Exec(db, RecordSilver(batch, f.source, f.silver.value), now).0
    else FailFiles(db, batch, FilesOf(db, batch, f.source), now)
  }

  datatype Phase = QuarantinePhase | TransformPhase | FinalPhase

  function Do(phase: Phase, db: Db, batch: string, f: Flow, now: int): Db {
    match phase
    case QuarantinePhase => Quarantine(db, batch, f, now)
    case TransformPhase => Transform(db, batch, f, now)
    case FinalPhase => Finalise(db, batch, f, now)
  }

  /** One phase over the sources in order. */
  function RunPhase(phase: Phase, db: Db, batch: string, flows: seq<Flow>, now: int): Db {
    if flows == [] then db
    else Do(phase, RunPhase(phase, db, batch, flows[..|flows| - 1], now), batch, flows[|flows| - 1], now)
  }

  /** A quarantine count is recorded by source and number alone. */
  lemma SameQuarantine(db: Db, batch: string, f: Flow, g: Flow, now: int)
    requires f.source == g.source && f.rejected == g.rejected
    ensures Do(QuarantinePhase, db, batch, g, now) == Quarantine(db, batch, f, now)
  {
    hide Exec;
  }

  lemma NoPhase(phase: Phase, db: Db, batch: string, now: int)
    ensures RunPhase(phase, db, batch, [], now) == db
  {
  }

  lemma PhaseStep(phase: Phase, db: Db, batch: string, flows: seq<Flow>, i: nat, now: int)
    requires i < |flows|
    ensures RunPhase(phase, db, batch, flows[..i + 1], now) ==
      Do(phase, RunPhase(phase, db, batch, flows[..i], now), batch, flows[i], now)
  {
    hide Do;
    assert flows[..i + 1][..i] == flows[..i];
  }

  /** All three phases. */
  function Record(db: Db, batch: string, flows: seq<Flow>, now: int): Db {
    RunPhase(FinalPhase, RunPhase(TransformPhase, RunPhase(QuarantinePhase, db, batch, flows, now), batch, flows, now),
      batch, flows, now)
  }

  /** `r` is the source's one file in the batch. */
  predicate Sole(db: Db, batch: string, source: string, r: AuditRow) {
    Filter(db.rows, OfSource(batch, source)) == [r]
  }

  /** A write restricted to a source reaches that source's file and no other source's. */
  lemma WriteOnSource(
      db: Db, batch: string, target: string, set_: AuditRow -> AuditRow, body: Body, now: int,
      source: string, r: AuditRow)
    requires Sole(db, batch, source, r)
    requires forall x :: set_(x).batch == x.batch && set_(x).source == x.source
    ensures Sole(Write(db, OfSource(batch, target), set_, body, now), batch, source,
      if source == target then set_(r) else r)
  {
    SoleFields(db, batch, source, r);
    hide Filter;
    var apply := Apply(OfSource(batch, target), set_);
    forall x | x in db.rows ensures OfSource(batch, source)(x) == OfSource(batch, source)(apply(x)) {}
    FilterMap(db.rows, apply, OfSource(batch, source), OfSource(batch, source));
    assert Map([r], apply) == [apply(r)];
  }

  lemma SoleFields(db: Db, batch: string, source: string, r: AuditRow)
    requires Sole(db, batch, source, r)
    ensures r in db.rows && r.batch == batch && r.source == source
  {
    FilterIn(db.rows, OfSource(batch, source));
    assert r in Filter(db.rows, OfSource(batch, source));
  }

  lemma AnnotateOnSource(
      db: Db, batch: string, target: string, set_: AuditRow -> AuditRow, body: Body, now: int,
      source: string, r: AuditRow)
    requires Sole(db, batch, source, r)
    requires forall x :: set_(x).batch == x.batch && set_(x).source == x.source
    ensures Sole(AnnotateSource(db, batch, target, set_, body, now).0, batch, source,
      if source == target then set_(r) else r)
  {
    hide Filter, Write;
    WriteOnSource(db, batch, target, set_, body, now, source, r);
  }

  lemma MoveOnSource(
      db: Db, batch: string, target: string, to: Status, set_: AuditRow -> AuditRow, body: Body, now: int,
      source: string, r: AuditRow)
    requires Sole(db, batch, source, r)
    requires forall x :: set_(x).batch == x.batch && set_(x).source == x.source
    requires source == target ==> Legal(r.status, to)
    ensures Sole(MoveSource(db, batch, target, to, set_, body, now).0, batch, source,
      if source == target then set_(r) else r)
  {
    WriteOnSource(db, batch, target, set_, body, now, source, r);
    hide Write;
    if source == target {
      FilterNone([r], Blocked(to));
    }
    hide Filter;
  }

  /** Failing the file of another source does not touch this one. */
  lemma {:induction false} FailFilesOnOther(
      db: Db, batch: string, paths: seq<string>, now: int, source: string, r: AuditRow)
    requires Sole(db, batch, source, r) && r.path !in paths
    ensures Sole(FailFiles(db, batch, paths, now), batch, source, r)
  {
    if paths != [] {
      var n := |paths| - 1;
      FailFilesOnOther(db, batch, paths[..n], now, source, r);
      var before := FailFiles(db, batch, paths[..n], now);
      FilterIn(before.rows, OfSource(batch, source));
      assert r in Filter(before.rows, OfSource(batch, source));
      FailOneOnOther(before, batch, paths[n], now, source, r);
    }
  }

  lemma FailOneOnOther(db: Db, batch: string, path: string, now: int, source: string, r: AuditRow)
    requires Sole(db, batch, source, r) && r.path != path
    ensures Sole(Exec(db, MarkFailed(batch, path, "silver", ""), now).0, batch, source, r)
  {
    FilterIn(db.rows, OfSource(batch, source));
    hide Filter;
    var apply := Apply(AtFile(batch, path), SetFailed("silver", Truncate(""), now));
    FilterMap(db.rows, apply, OfSource(batch, source), OfSource(batch, source));
    assert Map([r], apply) == [r];
  }

  /** A source's one file is its list of files. */
  lemma FilesOfSole(db: Db, batch: string, source: string, r: AuditRow)
    requires Sole(db, batch, source, r)
    ensures FilesOf(db, batch, source) == [r.path]
    ensures r.batch == batch && r.source == source
  {
    FilterIn(db.rows, OfSource(batch, source));
    assert r in Filter(db.rows, OfSource(batch, source));
    hide Filter, Sort;
    var ofBatch := Filter(db.rows, Reconcile.InBatch(batch));
    var files := Reconcile.BatchFiles(db.rows, batch);
    FilterFilter(db.rows, Reconcile.InBatch(batch), OfSource(batch, source));
    FilterSame(db.rows, Both(Reconcile.InBatch(batch), OfSource(batch, source)), OfSource(batch, source));
    FilterPermutation(files, ofBatch, OfSource(batch, source));
    OneElement(Filter(files, OfSource(batch, source)), r);
  }

  lemma OneElement<T>(s: seq<T>, x: T)
    requires multiset(s) == multiset([x])
    ensures s == [x]
  {
    assert |multiset(s)| == |s|;
    assert s[0] in multiset(s);
  }

  lemma FinaliseFailed(db: Db, batch: string, f: Flow, now: int, r: AuditRow)
    requires Sole(db, batch, f.source, r) && f.silver.None?
    ensures Sole(Finalise(db, batch, f, now), batch, f.source, SetFailed("silver", "", now)(r))
  {
    hide Sole, FilesOf, Exec;
    FilesOfSole(db, batch, f.source, r);
    assert [r.path][..0] == [];
    assert FailFiles(db, batch, [], now) == db;
    FailOwnFile(db, batch, now, f.source, r);
  }

  lemma FailOwnFile(db: Db, batch: string, now: int, source: string, r: AuditRow)
    requires Sole(db, batch, source, r)
    ensures
      Sole(Exec(db, MarkFailed(batch, r.path, "silver", ""), now).0, batch, source, SetFailed("silver", "", now)(r))
  {
    hide Filter, FindFile, FilesOf;
    FilesOfSole(db, batch, source, r);
    var set_ := SetFailed("silver", "", now);
    assert Truncate("") == "";
    var apply := Apply(AtFile(batch, r.path), set_);
    forall x | x in db.rows ensures OfSource(batch, source)(x) == OfSource(batch, source)(apply(x)) {}
    FilterMap(db.rows, apply, OfSource(batch, source), OfSource(batch, source));
    assert Map([r], apply) == [set_(r)];
  }

  lemma FinaliseOther(db: Db, batch: string, f: Flow, now: int, source: string, r: AuditRow)
    requires Consistent(db) && Sole(db, batch, source, r) && f.source != source
    ensures Sole(Finalise(db, batch, f, now), batch, source, r)
  {
    hide Explained, Write;
    if f.silver.Some? {
      MoveOnSource(db, batch, f.source, Transformed, SetTransformed(f.silver.value, now),
        SilverFinished(f.silver.value), now, source, r);
    } else {
      FilterIn(db.rows, OfSource(batch, source));
      assert r in Filter(db.rows, OfSource(batch, source));
      hide Filter;
      FilesAreRows(db, batch, f.source);
      var paths := FilesOf(db, batch, f.source);
      if r.path in paths {
        var o :| o in db.rows && o.batch == batch && o.source == f.source && o.path == r.path;
        OnlyRowAtFile(db.rows, r);
        OnlyRowAtFile(db.rows, o);
      }
      FailFilesOnOther(db, batch, paths, now, source, r);
    }
  }

  lemma {:induction false} FailFilesGrow(db: Db, batch: string, paths: seq<string>, now: int)
    requires Consistent(db)
    ensures Consistent(FailFiles(db, batch, paths, now)) && Grows(db, FailFiles(db, batch, paths, now))
  {
    hide Consistent, Exec, Grows;
    NothingGrows(db);
    if paths != [] {
      var n := |paths| - 1;
      FailFilesGrow(db, batch, paths[..n], now);
      var before := FailFiles(db, batch, paths[..n], now);
      ExecStep(before, MarkFailed(batch, paths[n], "silver", ""), now);
      GrowsTransitive(db, before, FailFiles(db, batch, paths, now));
    }
  }

  lemma DoGrows(phase: Phase, db: Db, batch: string, f: Flow, now: int)
    requires Consistent(db)
    ensures Consistent(Do(phase, db, batch, f, now)) && Grows(db, Do(phase, db, batch, f, now))
  {
    hide Consistent, Exec, Grows, FilesOf;
    NothingGrows(db);
    match phase
    case QuarantinePhase => ExecStep(db, RecordQuarantine(batch, f.source, f.rejected), now);
    case TransformPhase => ExecStep(db, MarkTransforming(batch, f.source), now);
    case FinalPhase =>
      if f.silver.Some? {
        ExecStep(db, RecordSilver(batch, f.source, f.silver.value), now);
      } else {
        FailFilesGrow(db, batch, FilesOf(db, batch, f.source), now);
      }
  }

  /** The row of a source after its own step of a phase. */
  function After(phase: Phase, r: AuditRow, f: Flow, now: int): AuditRow {
    match phase
    case QuarantinePhase => if f.rejected > 0 then SetRejected(f.rejected)(r) else r
    case TransformPhase => SetTransforming()(r)
    case FinalPhase =>
      if f.silver.Some? then SetTransformed(f.silver.value, now)(r) else SetFailed("silver", "", now)(r)
  }

  /** What a source's own step needs: the right status. */
  predicate Ready(phase: Phase, r: AuditRow, f: Flow) {
    match phase
    case QuarantinePhase => true
    case TransformPhase => r.status.Ingested?
    case FinalPhase => r.status.Transforming? || f.silver.None?
  }

  /** One step of a phase: the step's own source advances, every other source keeps its row. */
  lemma DoOnSource(phase: Phase, db: Db, batch: string, f: Flow, now: int, source: string, r: AuditRow)
    requires Consistent(db) && Sole(db, batch, source, r)
    requires f.source == source ==> Ready(phase, r, f)
    ensures Sole(Do(phase, db, batch, f, now), batch, source, if f.source == source then After(phase, r, f, now) else r)
  {
    hide Filter, Write, Consistent, Sole;
    match phase
    case QuarantinePhase =>
      if f.rejected > 0 {
        AnnotateOnSource(db, batch, f.source, SetRejected(f.rejected), DqCompleted(f.rejected), now, source, r);
      }
    case TransformPhase =>
      MoveOnSource(db, batch, f.source, Transforming, SetTransforming(), SilverStarted, now, source, r);
    case FinalPhase =>
      if f.source != source {
        FinaliseOther(db, batch, f, now, source, r);
      } else if f.silver.None? {
        FinaliseFailed(db, batch, f, now, r);
      } else {
        MoveOnSource(db, batch, f.source, Transformed, SetTransformed(f.silver.value, now),
          SilverFinished(f.silver.value), now, source, r);
      }
  }

  function SourceOf(): Flow -> string {
    (f: Flow) => f.source
  }

  /** A whole phase over distinct sources: each source's row takes exactly its own step. */
  lemma {:induction false} PhaseOnSource(
      phase: Phase, db: Db, batch: string, flows: seq<Flow>, now: int, i: nat, r: AuditRow)
    requires Consistent(db) && i < |flows| && Distinct(Map(flows, SourceOf()))
    requires Sole(db, batch, flows[i].source, r) && Ready(phase, r, flows[i])
    ensures Consistent(RunPhase(phase, db, batch, flows, now))
    ensures Sole(RunPhase(phase, db, batch, flows, now), batch, flows[i].source, After(phase, r, flows[i], now))
  {
    hide Consistent, Sole, Do, After, Ready, Grows;
    var n, source := |flows| - 1, flows[i].source;
    var sources := Map(flows, SourceOf());
    assert Map(flows[..n], SourceOf()) == sources[..n];
    if i < n {
      PhaseOnSource(phase, db, batch, flows[..n], now, i, r);
      assert sources[i] != sources[n];
      var before := RunPhase(phase, db, batch, flows[..n], now);
      DoGrows(phase, before, batch, flows[n], now);
      DoOnSource(phase, before, batch, flows[n], now, source, After(phase, r, flows[i], now));
    } else {
      assert forall j :: 0 <= j < n ==> sources[j] != sources[n];
      PhaseElsewhere(phase, db, batch, flows[..n], now, source, r);
      var before := RunPhase(phase, db, batch, flows[..n], now);
      DoGrows(phase, before, batch, flows[n], now);
      DoOnSource(phase, before, batch, flows[n], now, source, r);
    }
  }

  lemma {:induction false} PhaseElsewhere(
      phase: Phase, db: Db, batch: string, flows: seq<Flow>, now: int, source: string, r: AuditRow)
    requires Consistent(db) && Sole(db, batch, source, r)
    requires forall j :: 0 <= j < |flows| ==> flows[j].source != source
    ensures Consistent(RunPhase(phase, db, batch, flows, now))
    ensures Sole(RunPhase(phase, db, batch, flows, now), batch, source, r)
  {
    hide Consistent, Sole, Do, Grows;
    if flows != [] {
      var n := |flows| - 1;
      PhaseElsewhere(phase, db, batch, flows[..n], now, source, r);
      var before := RunPhase(phase, db, batch, flows[..n], now);
      DoGrows(phase, before, batch, flows[n], now);
      DoOnSource(phase, before, batch, flows[n], now, source, r);
    }
  }

  /** Where an ingested file's row ends: transformed with both counts, or failed at the silver stage. */
  function Recorded(r: AuditRow, f: Flow, now: int): AuditRow {
    var counted := if f.rejected > 0 then r.(rejectedRows := Some(f.rejected)) else r;
    if f.silver.Some? then counted.(status := Transformed, silverRows := Some(f.silver.value), finishedAt := Some(now))
    else counted.(status := Failed, errorMessage := Some(""), errorStage := Some("silver"), finishedAt := Some(now))
  }

  /** Whatever happens to the other sources, a source's ingested file ends as its own flow says. */
  lemma RecordedRow(db: Db, batch: string, flows: seq<Flow>, now: int, i: nat, r: AuditRow)
    requires Consistent(db) && i < |flows| && Distinct(Map(flows, SourceOf()))
    requires Sole(db, batch, flows[i].source, r) && r.status.Ingested?
    ensures Sole(Record(db, batch, flows, now), batch, flows[i].source, Recorded(r, flows[i], now))
    ensures Consistent(Record(db, batch, flows, now))
  {
    hide Consistent, Sole, RunPhase;
    var f := flows[i];
    PhaseOnSource(QuarantinePhase, db, batch, flows, now, i, r);
    var db1, r1 := RunPhase(QuarantinePhase, db, batch, flows, now), After(QuarantinePhase, r, f, now);
    PhaseOnSource(TransformPhase, db1, batch, flows, now, i, r1);
    var db2, r2 := RunPhase(TransformPhase, db1, batch, flows, now), After(TransformPhase, r1, f, now);
    PhaseOnSource(FinalPhase, db2, batch, flows, now, i, r2);
  }

  /** What the run wrote into the row, and that it left the rest of it alone. */
  predicate EndsAs(r: AuditRow, r': AuditRow, f: Flow, now: int) {
    && (if f.silver.Some?
        then r'.status == Transformed && r'.silverRows == Some(f.silver.value)
        else r'.status == Failed && r'.errorStage == Some("silver") && r'.silverRows == r.silverRows)
    && r'.finishedAt == Some(now)
    && r'.rejectedRows == (if f.rejected > 0 then Some(f.rejected) else r.rejectedRows)
    && r'.(status := r.status, silverRows := r.silverRows, rejectedRows := r.rejectedRows, finishedAt := r.finishedAt,
        errorMessage := r.errorMessage, errorStage := r.errorStage) == r
  }

  /** An ingested file after a run: its one row, column by column. */
  lemma RecordedColumns(db: Db, batch: string, flows: seq<Flow>, now: int, i: nat, r: AuditRow)
    requires Consistent(db) && i < |flows| && Distinct(Map(flows, SourceOf()))
    requires Sole(db, batch, flows[i].source, r) && r.status.Ingested?
    ensures exists r' ::
      Sole(Record(db, batch, flows, now), batch, flows[i].source, r') && EndsAs(r, r', flows[i], now)
  {
    hide Consistent, Sole, Record;
    RecordedRow(db, batch, flows, now, i, r);
    assert EndsAs(r, Recorded(r, flows[i], now), flows[i], now);
  }

  // ----- Re-running -----

  lemma {:induction false} PhaseGrows(phase: Phase, db: Db, batch: string, flows: seq<Flow>, now: int)
    requires Consistent(db)
    ensures Consistent(RunPhase(phase, db, batch, flows, now)) && Grows(db, RunPhase(phase, db, batch, flows, now))
  {
    hide Consistent, Do, Grows;
    NothingGrows(db);
    if flows != [] {
      var n := |flows| - 1;
      PhaseGrows(phase, db, batch, flows[..n], now);
      var before := RunPhase(phase, db, batch, flows[..n], now);
      DoGrows(phase, before, batch, flows[n], now);
      GrowsTransitive(db, before, RunPhase(phase, db, batch, flows, now));
    }
  }

  /** Whatever Silver runs, with whatever results: rows only advance, so a failed file stays failed. */
  lemma RerunNeverHeals(db: Db, batch: string, flows: seq<Flow>, now: int)
    requires Consistent(db)
    ensures Consistent(Record(db, batch, flows, now)) && Grows(db, Record(db, batch, flows, now))
    ensures forall i :: 0 <= i < |db.rows| && db.rows[i].status.Failed? ==>
      Record(db, batch, flows, now).rows[i].status.Failed?
  {
    hide Consistent, Grows, RunPhase;
    PhaseGrows(QuarantinePhase, db, batch, flows, now);
    var db1 := RunPhase(QuarantinePhase, db, batch, flows, now);
    PhaseGrows(TransformPhase, db1, batch, flows, now);
    var db2 := RunPhase(TransformPhase, db1, batch, flows, now);
    PhaseGrows(FinalPhase, db2, batch, flows, now);
    GrowsTransitive(db, db1, db2);
    GrowsTransitive(db, db2, Record(db, batch, flows, now));
    FailedStaysFailed(db, Record(db, batch, flows, now));
  }

  lemma FailedStaysFailed(db: Db, db': Db)
    requires Grows(db, db')
    ensures forall i :: 0 <= i < |db.rows| && db.rows[i].status.Failed? ==> db'.rows[i].status.Failed?
  {
    forall i | 0 <= i < |db.rows| && db.rows[i].status.Failed? ensures db'.rows[i].status.Failed? {
      assert Advances(db.rows[i], db'.rows[i]);
    }
  }
}
