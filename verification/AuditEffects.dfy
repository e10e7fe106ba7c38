/**
 * What each audit call does, field by field: which files it touches, which of their columns change and to
 * what, which events it logs, and when it raises instead.
 */
module AuditEffects {
  import opened Wrappers
  import opened Sequences
  import opened AuditLog

  /** The batch has a file of the source. */
  ghost predicate HasFiles(db: Db, batch: string, source: string) {
    exists r :: r in db.rows && r.batch == batch && r.source == source
  }

  /** Nothing changed, and the call raised. */
  predicate Refused(db: Db, after: (Db, Outcome), error: Error) {
    after == (db, Raised(error))
  }

  /** The log gained one such event for each selected file, in table order, and nothing else. */
  ghost predicate LogsEach(db: Db, db': Db, selected: AuditRow -> bool, body: Body, now: int) {
    exists ks :: LogsAt(db, db', selected, body, now, ks)
  }

  ghost predicate LogsAt(db: Db, db': Db, selected: AuditRow -> bool, body: Body, now: int, ks: seq<nat>) {
    && Lists(db.rows, selected, ks)
    && |db'.events| == |db.events| + |ks| && db'.events[..|db.events|] == db.events
    && forall m :: 0 <= m < |ks| ==>
      db'.events[|db.events| + m] == Event(db.rows[ks[m]].batch, db.rows[ks[m]].path, body, now)
  }

  lemma WriteLogs(db: Db, where: AuditRow -> bool, set_: AuditRow -> AuditRow, body: Body, now: int)
    ensures
      var db' := Write(db, where, set_, body, now);
      && |db'.rows| == |db.rows| && LogsEach(db, db', where, body, now)
      && forall i :: 0 <= i < |db.rows| ==> db'.rows[i] == if where(db.rows[i]) then set_(db.rows[i]) else db.rows[i]
  {
    hide Filter, Lists;
    var ks := FilterLists(db.rows, where);
    var db' := Write(db, where, set_, body, now);
    var logged := Map(Filter(db.rows, where), EventFor(body, now));
    assert db'.events == db.events + logged;
    assert LogsAt(db, db', where, body, now, ks) by { PickBounds(db.rows, where, ks); }
  }

  lemma PickBounds(rows: seq<AuditRow>, where: AuditRow -> bool, ks: seq<nat>)
    requires Lists(rows, where, ks)
    ensures forall m :: 0 <= m < |ks| ==> ks[m] < |rows|
  {
  }

  lemma SourceSelected(db: Db, batch: string, source: string)
    ensures Filter(db.rows, OfSource(batch, source)) == [] <==> !HasFiles(db, batch, source)
  {
    FilterIn(db.rows, OfSource(batch, source));
    hide Filter;
    var files := Filter(db.rows, OfSource(batch, source));
    if files != [] {
      assert files[0] in files;
    }
  }

  /** The log gained one such event for each file of the source in the batch, in table order. */
  ghost predicate LogsSource(db: Db, db': Db, batch: string, source: string, body: Body, now: int) {
    LogsEach(db, db', (r: AuditRow) => r.batch == batch && r.source == source, body, now)
  }

  lemma SourceLogged(db: Db, db': Db, batch: string, source: string, body: Body, now: int)
    requires LogsEach(db, db', OfSource(batch, source), body, now)
    ensures LogsSource(db, db', batch, source, body, now)
  {
    var ks :| LogsAt(db, db', OfSource(batch, source), body, now, ks);
    assert LogsAt(db, db', (r: AuditRow) => r.batch == batch && r.source == source, body, now, ks);
  }

  lemma SourceWritten(db: Db, batch: string, source: string, set_: AuditRow -> AuditRow, body: Body, now: int)
    ensures
      var db' := Write(db, OfSource(batch, source), set_, body, now);
      && |db'.rows| == |db.rows| && LogsSource(db, db', batch, source, body, now)
      && forall i :: 0 <= i < |db.rows| ==>
        var r := db.rows[i];
        db'.rows[i] == if r.batch == batch && r.source == source then set_(r) else r
  {
    hide Write, LogsEach, LogsSource;
    WriteLogs(db, OfSource(batch, source), set_, body, now);
    SourceLogged(db, Write(db, OfSource(batch, source), set_, body, now), batch, source, body, now);
  }

  // ----- Counts of a source: no status is checked -----

  /** `record_quarantine`: every file of the source gets that rejected count, and nothing else changes. */
  lemma QuarantineRecorded(db: Db, batch: string, source: string, n: int, now: int)
    ensures
      var after := Exec(db, RecordQuarantine(batch, source, n), now);
      var (db', outcome) := after;
      if !HasFiles(db, batch, source) then Refused(db, after, NoFiles)
      else
        && outcome == Done && |db'.rows| == |db.rows|
        && LogsSource(db, db', batch, source, DqCompleted(n), now)
        && forall i :: 0 <= i < |db.rows| ==>
          var r, r' := db.rows[i], db'.rows[i];
          if r.batch == batch && r.source == source
          then r'.rejectedRows == Some(n) && r'.(rejectedRows := r.rejectedRows) == r
          else r' == r
  {
    hide Filter, LogsSource, Write;
    SourceSelected(db, batch, source);
    SourceWritten(db, batch, source, SetRejected(n), DqCompleted(n), now);
  }

  /** `record_gold_complete`: every file of the source gets that gold count and a finish stamp; its status stays. */
  lemma GoldRecorded(db: Db, batch: string, source: string, n: int, now: int)
    ensures
      var after := Exec(db, RecordGold(batch, source, n), now);
      var (db', outcome) := after;
      if !HasFiles(db, batch, source) then Refused(db, after, NoFiles)
      else
        && outcome == Done && |db'.rows| == |db.rows|
        && LogsSource(db, db', batch, source, GoldFinished(n), now)
        && forall i :: 0 <= i < |db.rows| ==>
          var r, r' := db.rows[i], db'.rows[i];
          if r.batch == batch && r.source == source
          then
            && r'.goldRows == Some(n) && r'.finishedAt == Some(now)
            && r'.(goldRows := r.goldRows, finishedAt := r.finishedAt) == r
          else r' == r
  {
    hide Filter, LogsSource, Write;
    SourceSelected(db, batch, source);
    SourceWritten(db, batch, source, SetGold(n, now), GoldFinished(n), now);
  }

  // ----- Status moves of a source: all files or none -----

  /** Some file of the source in the batch has another status. */
  ghost predicate OtherStatus(db: Db, batch: string, source: string, status: Status) {
    exists r :: r in db.rows && r.batch == batch && r.source == source && r.status != status
  }

  lemma SourceMayMove(db: Db, batch: string, source: string, from: Status, to: Status)
    requires forall s :: Legal(s, to) <==> s == from
    ensures Filter(Filter(db.rows, OfSource(batch, source)), Blocked(to)) != [] <==>
      OtherStatus(db, batch, source, from)
  {
    hide Filter;
    SourceUnblocked(db, batch, source, to);
  }

  /** `mark_transforming`: files move from ingested to transforming, or the call raises and none does. */
  lemma TransformingMarked(db: Db, batch: string, source: string, now: int)
    ensures
      var after := Exec(db, MarkTransforming(batch, source), now);
      var (db', outcome) := after;
      if !HasFiles(db, batch, source) then Refused(db, after, NoFiles)
      else if OtherStatus(db, batch, source, Ingested) then Refused(db, after, IllegalTransition)
      else
        && outcome == Done && |db'.rows| == |db.rows|
        && LogsSource(db, db', batch, source, SilverStarted, now)
        && forall i :: 0 <= i < |db.rows| ==>
          var r, r' := db.rows[i], db'.rows[i];
          if r.batch == batch && r.source == source
          then r'.status == Transforming && r'.(status := r.status) == r
          else r' == r
  {
    hide Filter, LogsSource, Write, OtherStatus;
    SourceSelected(db, batch, source);
    SourceMayMove(db, batch, source, Ingested, Transforming);
    SourceWritten(db, batch, source, SetTransforming(), SilverStarted, now);
  }

  /** `record_silver_complete`: files move on to transformed, with that silver count and a finish stamp. */
  lemma SilverRecorded(db: Db, batch: string, source: string, n: int, now: int)
    ensures
      var after := Exec(db, RecordSilver(batch, source, n), now);
      var (db', outcome) := after;
      if !HasFiles(db, batch, source) then Refused(db, after, NoFiles)
      else if OtherStatus(db, batch, source, Transforming) then Refused(db, after, IllegalTransition)
      else
        && outcome == Done && |db'.rows| == |db.rows|
        && LogsSource(db, db', batch, source, SilverFinished(n), now)
        && forall i :: 0 <= i < |db.rows| ==>
          var r, r' := db.rows[i], db'.rows[i];
          if r.batch == batch && r.source == source
          then
            && r'.status == Transformed && r'.silverRows == Some(n) && r'.finishedAt == Some(now)
            && r'.(status := r.status, silverRows := r.silverRows, finishedAt := r.finishedAt) == r
          else r' == r
  {
    hide Filter, LogsSource, Write, OtherStatus;
    SourceSelected(db, batch, source);
    SourceMayMove(db, batch, source, Transforming, Transformed);
    SourceWritten(db, batch, source, SetTransformed(n, now), SilverFinished(n), now);
  }

  // ----- One file -----

  ghost predicate NoFile(db: Db, batch: string, path: string) {
    forall r :: r in db.rows ==> !(r.batch == batch && r.path == path)
  }

  /** The row at `i` became `r'`, the other rows are as they were, and the log gained one event for the file. */
  predicate Became(db: Db, db': Db, i: nat, r': AuditRow, body: Body, now: int)
    requires i < |db.rows|
  {
    && db'.rows == db.rows[..i] + [r'] + db.rows[i + 1..]
    && db'.events == db.events + [Event(db.rows[i].batch, db.rows[i].path, body, now)]
  }

  lemma FileWritten(db: Db, i: nat, set_: AuditRow -> AuditRow, body: Body, now: int)
    requires Distinct(Map(db.rows, KeyOf())) && i < |db.rows|
    ensures
      var r := db.rows[i];
      && FindFile(db.rows, r.batch, r.path) == Some(r)
      && Became(db, Write(db, AtFile(r.batch, r.path), set_, body, now), i, set_(r), body, now)
  {
    hide Filter, FindFile;
    var r, keys := db.rows[i], Map(db.rows, KeyOf());
    OnlyRowAtFile(db.rows, r);
    var db' := Write(db, AtFile(r.batch, r.path), set_, body, now);
    forall j | 0 <= j < |db.rows| && j != i ensures db'.rows[j] == db.rows[j] {
      assert keys[i] != keys[j];
    }
    assert Map([r], EventFor(body, now)) == [Event(r.batch, r.path, body, now)];
    assert db'.rows == db.rows[..i] + [set_(r)] + db.rows[i + 1..];
  }

  lemma FileMissing(db: Db, batch: string, path: string)
    requires NoFile(db, batch, path)
    ensures FindFile(db.rows, batch, path).None? && Filter(db.rows, AtFile(batch, path)) == []
  {
    FilterNone(db.rows, AtFile(batch, path));
  }

  /** `mark_ingesting`: a registered file starts, with its stamp. */
  lemma IngestingMarked(db: Db, i: nat, now: int)
    requires Consistent(db) && i < |db.rows|
    ensures
      var r := db.rows[i];
      var after := Exec(db, MarkIngesting(r.batch, r.path), now);
      if !r.status.Registered? then Refused(db, after, IllegalTransition)
      else
        after.1 == Done
        && Became(db, after.0, i, r.(status := Ingesting, startedAt := Some(now)), IngestStarted, now)
  {
    hide FindFile, Write, Became, Explained;
    FileWritten(db, i, SetIngesting(now), IngestStarted, now);
  }

  /** `record_ingestion_complete`: a started file is ingested, with its source count and its bronze count. */
  lemma IngestionRecorded(db: Db, i: nat, inFile: int, inBronze: int, now: int)
    requires Consistent(db) && i < |db.rows|
    ensures
      var r := db.rows[i];
      var after := Exec(db, RecordIngestion(r.batch, r.path, inFile, inBronze), now);
      if !r.status.Ingesting? then Refused(db, after, IllegalTransition)
      else
        after.1 == Done
        && Became(
          db, after.0, i, r.(status := Ingested, sourceRows := Some(inFile), bronzeRows := Some(inBronze)),
          IngestFinished(inFile, inBronze), now)
  {
    hide FindFile, Write, Became, Explained;
    FileWritten(db, i, SetIngested(inFile, inBronze), IngestFinished(inFile, inBronze), now);
  }

  /** `mark_failed`: from any status, with stage, stamp and at most 4000 characters of the message. */
  lemma FailureRecorded(db: Db, i: nat, stage: string, message: string, now: int)
    requires Consistent(db) && i < |db.rows|
    ensures
      var r := db.rows[i];
      var text := if |message| <= 4000 then message else message[..4000];
      var after := Exec(db, MarkFailed(r.batch, r.path, stage, message), now);
      after.1 == Done
      && Became(
        db, after.0, i,
        r.(status := Failed, errorMessage := Some(text), errorStage := Some(stage), finishedAt := Some(now)),
        FileFailed(stage, text), now)
  {
    hide FindFile, Write, Became, Explained;
    var text := Truncate(message);
    FileWritten(db, i, SetFailed(stage, text, now), FileFailed(stage, text), now);
  }

  /** Calls on a file that is not registered: the first two raise, the third is swallowed. */
  lemma UnregisteredRefused(
      db: Db, batch: string, path: string, s: int, b: int, stage: string, message: string, now: int)
    requires NoFile(db, batch, path)
    ensures Refused(db, Exec(db, MarkIngesting(batch, path), now), NotRegistered)
    ensures Refused(db, Exec(db, RecordIngestion(batch, path, s, b), now), NotRegistered)
    ensures Exec(db, MarkFailed(batch, path, stage, message), now) == (db, Done)
  {
    FileMissing(db, batch, path);
    hide Filter, FindFile, Truncate;
    FailingUnregisteredDoesNothing(db, batch, path, stage, message, now);
  }

  /** `register_file`: a new file's row is all set, and its log begins; the vendor's missing stamp is noted. */
  lemma FileIsRegistered(db: Db, batch: string, source: string, fp: Fingerprint, now: int)
    requires NoFile(db, batch, fp.path)
    ensures
      var (db', outcome) := Exec(db, RegisterFile(batch, source, fp), now);
      && outcome == Done && |db'.rows| == |db.rows| + 1 && db'.rows[..|db.rows|] == db.rows
      && (var r := db'.rows[|db.rows|];
        && r.batch == batch && r.source == source && r.path == fp.path && r.size == fp.size
        && r.checksum == fp.checksum && r.schemaHash == fp.schemaHash
        && r.vendorTime == fp.vendorTime && r.fsTime == fp.fsTime
        && (if fp.vendorSource.None? || fp.vendorSource == Some("") then r.vendorSource == "filesystem_only"
            else fp.vendorSource == Some(r.vendorSource))
        && r.status.Registered? && r.registeredAt == now
        && r.sourceRows == r.bronzeRows == r.silverRows == r.rejectedRows == r.goldRows == None
        && r.startedAt == r.finishedAt == None && r.errorMessage == r.errorStage == None)
      && (var first := Event(batch, fp.path, FileRegistered(source, fp.size, fp.checksum), now);
        db'.events == db.events + (
          if fp.vendorTime.Some? then [first]
          else [first, Event(batch, fp.path, VendorTimestampUnavailable(fp.fsTime), now)]))
  {
    FileMissing(db, batch, fp.path);
    hide Filter, FindFile;
  }

  /** Registering a file again: the same bytes change nothing, other bytes are refused. */
  lemma RegisteredAgain(db: Db, i: nat, source: string, fp: Fingerprint, now: int)
    requires Consistent(db) && i < |db.rows| && db.rows[i].path == fp.path
    ensures
      var r := db.rows[i];
      var after := Exec(db, RegisterFile(r.batch, source, fp), now);
      if r.checksum == fp.checksum then after == (db, Done) else Refused(db, after, Conflict)
  {
    hide FindFile, Explained;
    OnlyRowAtFile(db.rows, db.rows[i]);
  }

  /** The two calls that only log: one event with their payload, or a refusal for an unregistered file. */
  lemma OnlyLogged(
      db: Db, batch: string, path: string, previous: string, current: string, n: nat, c: nat, w: nat, now: int)
    ensures
      var drift := Exec(db, RecordSchemaDrift(batch, path, previous, current), now);
      var reconciled := Exec(db, RecordReconciled(batch, path, n, c, w), now);
      if NoFile(db, batch, path) then
        Refused(db, drift, ForeignKeyViolation) && Refused(db, reconciled, ForeignKeyViolation)
      else
        && drift == (Db(db.rows, db.events + [Event(batch, path, SchemaDrift(previous, current), now)]), Done)
        && reconciled == (Db(db.rows, db.events + [Event(batch, path, Reconciled(n, c, w), now)]), Done)
  {
    FileFound(db, batch, path);
    hide FindFile;
  }

  lemma FileFound(db: Db, batch: string, path: string)
    ensures FindFile(db.rows, batch, path).None? <==> NoFile(db, batch, path)
  {
    hide Filter;
    FilterIn(db.rows, AtFile(batch, path));
    var found := Filter(db.rows, AtFile(batch, path));
    if found != [] {
      assert found[0] in found;
    }
  }
}
