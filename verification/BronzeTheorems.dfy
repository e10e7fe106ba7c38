/** Whole runs of Bronze attempts and later audit steps: the deduplicated store agrees with the naive one. */
module BronzeTheorems {
  import opened Wrappers
  import opened Sequences
  import opened Frames
  import opened AuditLog
  import opened BronzeStore
  import opened BronzeRuns

  /** The loader's contract: the checksum stands for the rows and the source, and the path for the source. */
  predicate LoadOk(files: Files, batch: string, source: string, load: Load) {
    !load.Loaded? ||
    (var fp := load.fingerprint;
     files.owner(fp.checksum) == source && fp.path == files.path(batch, source) && fp.checksum != ""
     && load.rows == files.content(fp.checksum))
  }

  predicate Succeeds(result: WriteResult) {
    result.Written? || result.Skipped?
  }

  /** Some successfully ingested row of the batch and source has these rows as content. */
  ghost predicate IngestedAs(files: Files, w: World, batch: string, source: string, rows: seq<Row>) {
    exists r :: r in w.db.rows && r.batch == batch && r.source == source && Succeeded(r.status)
      && files.content(r.checksum) == rows
  }

  // ----- One attempt -----

  /** After a successful registration the file has a row with the given checksum. */
  lemma RegisteredRow(w: World, batch: string, source: string, fp: Fingerprint, now: int)
    requires Consistent(w.db)
    requires Exec(w.db, RegisterFile(batch, source, fp), now).1 == Done
    ensures
      var found := FindFile(Exec(w.db, RegisterFile(batch, source, fp), now).0.rows, batch, fp.path);
      && found.Some? && found.value in Exec(w.db, RegisterFile(batch, source, fp), now).0.rows
      && found.value.batch == batch && found.value.path == fp.path && found.value.checksum == fp.checksum
  {
    var db' := Exec(w.db, RegisterFile(batch, source, fp), now).0;
    FilterIn(db'.rows, AtFile(batch, fp.path));
    if FindFile(w.db.rows, batch, fp.path).None? {
      FilterSnoc(w.db.rows, NewRow(batch, source, fp, now), AtFile(batch, fp.path));
    }
    hide Filter;
    var found := Filter(db'.rows, AtFile(batch, fp.path));
    assert found != [] && found[0] in found;
    var added := NewRow(batch, source, fp, now);
    if FindFile(w.db.rows, batch, fp.path).None? {
      assert Filter(w.db.rows, AtFile(batch, fp.path)) == [];
      assert found == [added];
    }
  }

  lemma SameBatches(rows: seq<AuditRow>, rows': seq<AuditRow>, batch: string)
    requires |rows'| == |rows| && forall i :: 0 <= i < |rows| ==> rows'[i].batch == rows[i].batch
    requires AllowedBatch(rows, batch)
    ensures AllowedBatch(rows', batch)
  {
    if forall r :: r in rows ==> r.batch != batch {
      forall r' | r' in rows' ensures r'.batch != batch {
        var i :| 0 <= i < |rows'| && rows'[i] == r';
        assert rows[i] in rows;
      }
    }
  }

  lemma SameIsBenign(r: AuditRow, now: int)
    ensures Benign(r, r) && (r.status.Registered? ==> Benign(r, SetIngesting(now)(r)))
    ensures SetIngesting(now)(r).batch == r.batch
  {
  }

  /** Starting a registered file. */
  lemma StartKeepsSound(files: Files, w: World, clock: int, r: AuditRow, now: int) returns (w': World, r': AuditRow)
    requires Sound(files, w, clock) && AllowedBatch(w.db.rows, r.batch)
    requires r in w.db.rows && r.status.Registered?
    ensures Exec(w.db, MarkIngesting(r.batch, r.path), now) == (w'.db, Done) && w'.parts == w.parts
    ensures Sound(files, w', clock) && AllowedBatch(w'.db.rows, r.batch)
    ensures r' in w'.db.rows && r' == SetIngesting(now)(r)
    ensures forall x :: x in w.db.rows && x != r ==> x in w'.db.rows
  {
    hide Sound, Consistent, AllowedBatch, Filter, SetIngesting, Benign;
    SoundConsistent(files, w, clock);
    w' := w.(db := Exec(w.db, MarkIngesting(r.batch, r.path), now).0);
    r' := SetIngesting(now)(r);
    ExecKeepsConsistent(w.db, MarkIngesting(r.batch, r.path), now);
    ConsistentKeys(w.db);
    OnlyRowAtFile(w.db.rows, r);
    UpdateAtFile(w.db, r, SetIngesting(now), IngestStarted, now);
    RowsAfterUpdate(w.db.rows, w'.db.rows, r, r');
    forall i | 0 <= i < |w.db.rows| ensures Benign(w.db.rows[i], w'.db.rows[i]) {
      SameIsBenign(w.db.rows[i], now);
    }
    SameIsBenign(r, now);
    BenignKeepsSound(files, w, clock, w'.db);
    SameBatches(w.db.rows, w'.db.rows, r.batch);
    var i :| 0 <= i < |w.db.rows| && w.db.rows[i] == r;
    assert w'.db.rows[i] == r';
  }

  /** A file of another batch was registered before any file of the latest batch. */
  lemma OtherBatchIsEarlier(files: Files, w: World, clock: int, p: AuditRow, r: AuditRow)
    requires Sound(files, w, clock) && AllowedBatch(w.db.rows, r.batch)
    requires p in w.db.rows && r in w.db.rows && p.batch != r.batch
    ensures p.registeredAt <= r.registeredAt
  {
    hide Consistent, Backed, HasOrigin, RowOk, Sequenced;
    if r.registeredAt < p.registeredAt {
      LastIsLatest(w.db.rows, clock, p);
      BatchIsContiguous(w.db.rows, clock, r, p, w.db.rows[|w.db.rows| - 1]);
    }
  }

  lemma SoundOrigin(files: Files, w: World, clock: int, r: AuditRow)
    requires Sound(files, w, clock)
    requires r in w.db.rows && Succeeded(r.status) && files.content(r.checksum) != []
    ensures HasOrigin(w, r)
  {
    hide Consistent, Backed, HasOrigin, RowOk, Sequenced;
  }

  /** An earlier ingestion of the same bytes has an origin, and that origin serves the new file too. */
  lemma PriorServes(files: Files, w: World, clock: int, p: AuditRow, r: AuditRow, w': World, r': AuditRow)
    requires Sound(files, w, clock) && AllowedBatch(w.db.rows, r.batch)
    requires p in w.db.rows && r in w.db.rows && p.batch != r.batch && !Succeeded(r.status)
    requires Succeeded(p.status) && p.checksum == r.checksum && files.content(p.checksum) != []
    requires w'.parts == w.parts && forall x :: x in w.db.rows && x != r ==> x in w'.db.rows
    requires r'.registeredAt == r.registeredAt && r'.checksum == r.checksum
    ensures HasOrigin(w', r')
  {
    hide Sound;
    OtherBatchIsEarlier(files, w, clock, p, r);
    SoundOrigin(files, w, clock, p);
    var o :| o in w.db.rows && Originates(w.parts, o, p);
    assert Originates(w'.parts, o, r');
  }

  lemma FailStep(files: Files, w: World, clock: int, batch: string, path: string, r: AuditRow, now: int)
    requires Sound(files, w, clock) && AllowedBatch(w.db.rows, batch)
    requires r in w.db.rows && r.batch == batch && r.path == path
    ensures Sound(files, Fail(w, batch, path, now).0, clock)
    ensures Fail(w, batch, path, now).0.parts == w.parts
  {
    hide Sound, Exec, AllowedBatch;
    FailKeepsSound(files, w, clock, r, "bronze", "", now);
  }

  lemma PriorFound(w: World, checksum: string)
    ensures
      var prior := Prior(w.db.rows, checksum);
      prior.Some? ==> prior.value in w.db.rows && Succeeded(prior.value.status) && prior.value.checksum == checksum
  {
    FilterIn(w.db.rows, SucceededWithChecksum(checksum));
  }

  lemma CompletedAs(files: Files, w: World, r: AuditRow, n: int, now: int)
    requires Consistent(w.db) && r in w.db.rows && r.status.Ingesting?
    ensures IngestedAs(
      files, w.(db := Exec(w.db, RecordIngestion(r.batch, r.path, n, n), now).0), r.batch, r.source,
      files.content(r.checksum))
  {
    hide Consistent, FindFile, Filter;
    ConsistentKeys(w.db);
    OnlyRowAtFile(w.db.rows, r);
    UpdateAtFile(w.db, r, SetIngested(n, n), IngestFinished(n, n), now);
    var db' := Exec(w.db, RecordIngestion(r.batch, r.path, n, n), now).0;
    var i :| 0 <= i < |w.db.rows| && w.db.rows[i] == r;
    assert db'.rows[i] == SetIngested(n, n)(r) && db'.rows[i] in db'.rows;
  }

  /** The tail of an attempt on a file that has just been registered. */
  lemma FinishStarted(
      files: Files, w: World, clock: int, batch: string, source: string, fp: Fingerprint, rows: seq<Row>,
      writeFails: bool, now: int, r: AuditRow)
    requires Sound(files, w, clock) && AllowedBatch(w.db.rows, batch)
    requires LoadOk(files, batch, source, Loaded(fp, rows))
    requires r in w.db.rows && r.status.Registered?
    requires r.batch == batch && r.path == fp.path && r.checksum == fp.checksum && r.source == source
    ensures
      var (w', result) := Finish(w, batch, source, fp, rows, writeFails, now);
      && Sound(files, w', clock)
      && (forall p :: p in w.parts ==> p in w'.parts && w'.parts[p] == w.parts[p])
      && (Succeeds(result) ==> IngestedAs(files, w', batch, source, rows))
  {
    hide Sound, Prior, AllowedBatch, Exec, Consistent;
    var started, r' := StartKeepsSound(files, w, clock, r, now);
    assert Consistent(started.db) by { SoundConsistent(files, started, clock); }
    PriorFound(w, fp.checksum);
    var prior := Prior(w.db.rows, fp.checksum);
    var n := |rows|;
    if prior.Some? && prior.value.batch != batch {
      PriorCount(files, w, clock, prior.value);
      if rows != [] {
        PriorServes(files, w, clock, prior.value, r, started, r');
      }
      CompleteKeepsSound(files, started, clock, r', n, now);
      CompletedAs(files, started, r', n, now);
    } else if writeFails {
      FailStep(files, started, clock, batch, fp.path, r', now);
    } else {
      var written := World(started.db, WriteParquet(started.parts, source, batch, rows));
      WriteKeepsSound(files, started, clock, r', rows);
      CompleteKeepsSound(files, written, clock, r', n, now);
      CompletedAs(files, written, r', n, now);
      if (source, batch) in w.parts {
        SoundIsTidy(files, w, clock);
        BackedPartition(files, w, clock, (source, batch), r);
      }
    }
  }

  lemma SoundIsTidy(files: Files, w: World, clock: int)
    requires Sound(files, w, clock)
    ensures Tidy(files, w, clock)
  {
  }

  lemma SoundConsistent(files: Files, w: World, clock: int)
    requires Sound(files, w, clock)
    ensures Consistent(w.db)
  {
  }

  lemma PriorCount(files: Files, w: World, clock: int, p: AuditRow)
    requires Sound(files, w, clock) && p in w.db.rows && Succeeded(p.status)
    ensures Count(p.bronzeRows) == |files.content(p.checksum)|
  {
    hide Consistent, Backed, HasOrigin, Sequenced;
    assert RowOk(files, p);
  }

  /** The tail of an attempt keeps the store sound, never rewrites a partition, and delivers what it reports. */
  lemma FinishKeepsSound(
      files: Files, w: World, clock: int, batch: string, source: string, fp: Fingerprint, rows: seq<Row>,
      writeFails: bool, now: int, r: AuditRow)
    requires Sound(files, w, clock) && AllowedBatch(w.db.rows, batch)
    requires LoadOk(files, batch, source, Loaded(fp, rows))
    requires r in w.db.rows && FindFile(w.db.rows, batch, fp.path) == Some(r)
    requires r.batch == batch && r.path == fp.path && r.checksum == fp.checksum
    ensures
      var (w', result) := Finish(w, batch, source, fp, rows, writeFails, now);
      && Sound(files, w', clock)
      && (forall p :: p in w.parts ==> p in w'.parts && w'.parts[p] == w.parts[p])
      && (Succeeds(result) ==> IngestedAs(files, w', batch, source, rows))
  {
    hide Consistent, Sequenced, Backed, HasOrigin, AllowedBatch;
    assert RowOk(files, r);
    if r.status.Registered? {
      FinishStarted(files, w, clock, batch, source, fp, rows, writeFails, now, r);
    } else {
      FailStep(files, w, clock, batch, fp.path, r, now);
      assert Exec(w.db, MarkIngesting(batch, fp.path), now).1.Raised?;
    }
  }

  /** One attempt: soundness, partitions that never change, and a result that means what it says. */
  lemma AttemptKeepsSound(
      files: Files, w: World, clock: int, batch: string, source: string, load: Load, writeFails: bool, now: int)
    requires Sound(files, w, clock) && clock < now && AllowedBatch(w.db.rows, batch)
    requires LoadOk(files, batch, source, load)
    ensures
      var (w', result) := WriteSource(w, batch, source, load, writeFails, now);
      && Sound(files, w', now)
      && (forall p :: p in w.parts ==> p in w'.parts && w'.parts[p] == w.parts[p])
      && (Succeeds(result) ==> load.Loaded? && IngestedAs(files, w', batch, source, load.rows))
  {
    hide Sound, AllowedBatch, Exec, Finish, Consistent;
    SoundLater(files, w, clock, now);
    if load.Loaded? {
      var fp := load.fingerprint;
      var (db', outcome) := Exec(w.db, RegisterFile(batch, source, fp), now);
      if outcome == Done {
        RegisterKeepsSound(files, w, clock, batch, source, fp, now);
        SoundConsistent(files, w, clock);
        RegisteredRow(w, batch, source, fp, now);
        var r := FindFile(db'.rows, batch, fp.path).value;
        FinishKeepsSound(files, w.(db := db'), now, batch, source, fp, load.rows, writeFails, now, r);
      }
    }
  }

  /** What is read back for a batch and source: the resolved partition, or nothing. */
  function Read(w: World, source: string, batch: string): seq<Row> {
    var p := Resolve(w, source, batch);
    if p.Some? && p.value in w.parts then w.parts[p.value] else []
  }

  /** Right after a written or skipped attempt the resolver delivers exactly the file's rows. */
  lemma AttemptResolves(
      files: Files, w: World, clock: int, batch: string, source: string, load: Load, writeFails: bool, now: int)
    requires Sound(files, w, clock) && clock < now && AllowedBatch(w.db.rows, batch)
    requires LoadOk(files, batch, source, load)
    requires Succeeds(WriteSource(w, batch, source, load, writeFails, now).1)
    ensures
      var w' := WriteSource(w, batch, source, load, writeFails, now).0;
      load.Loaded? && Read(w', source, batch) == load.rows && (Resolve(w', source, batch).Some? <==> load.rows != [])
  {
    hide Sound, AllowedBatch, WriteSource, Resolve, LoadOk;
    AttemptKeepsSound(files, w, clock, batch, source, load, writeFails, now);
    var w' := WriteSource(w, batch, source, load, writeFails, now).0;
    var r :| r in w'.db.rows && r.batch == batch && r.source == source && Succeeded(r.status)
      && files.content(r.checksum) == load.rows;
    ResolverIsExact(files, w', now, r);
  }

  /** The file is new in its batch, or registered with the same bytes and not yet started. */
  predicate Startable(rows: seq<AuditRow>, batch: string, fp: Fingerprint) {
    var known := FindFile(rows, batch, fp.path);
    known.Some? ==> known.value.checksum == fp.checksum && known.value.status.Registered?
  }

  /** What an attempt reports, exactly: known bytes are skipped, new ones written, anything started refused. */
  function Report(rows: seq<AuditRow>, batch: string, fp: Fingerprint, count: nat, writeFails: bool): WriteResult {
    var prior := Prior(rows, fp.checksum);
    if !Startable(rows, batch, fp) then NotWritten
    else if prior.Some? then Skipped(prior.value.batch)
    else if writeFails then NotWritten
    else Written(count)
  }

  lemma PriorAfterRegistration(db: Db, batch: string, source: string, fp: Fingerprint, now: int)
    ensures Prior(Exec(db, RegisterFile(batch, source, fp), now).0.rows, fp.checksum) == Prior(db.rows, fp.checksum)
  {
    var ingested := SucceededWithChecksum(fp.checksum);
    FilterSnoc(db.rows, NewRow(batch, source, fp, now), ingested);
    hide Filter, FindFile, MostRecent;
    assert Filter(db.rows, ingested) + [] == Filter(db.rows, ingested);
  }

  /** The same bytes were not ingested under the batch of a file that has not been started. */
  lemma PriorIsElsewhere(files: Files, w: World, clock: int, r: AuditRow, p: AuditRow)
    requires Tidy(files, w, clock) && r in w.db.rows && p in w.db.rows
    requires r.status.Registered? && Succeeded(p.status) && p.checksum == r.checksum
    ensures p.batch != r.batch
  {
    TidyRowOk(files, w, clock, r);
    TidyRowOk(files, w, clock, p);
    hide Tidy;
    if p.batch == r.batch {
      SameBatchSourceSameRow(files, w, clock, p, r);
    }
  }

  lemma FinishReports(
      files: Files, w: World, clock: int, batch: string, source: string, fp: Fingerprint, rows: seq<Row>,
      writeFails: bool, now: int, r: AuditRow)
    requires Sound(files, w, clock)
    requires rows == files.content(fp.checksum)
    requires r in w.db.rows && FindFile(w.db.rows, batch, fp.path) == Some(r)
    requires r.batch == batch && r.path == fp.path && r.checksum == fp.checksum && r.source == source
    ensures Finish(w, batch, source, fp, rows, writeFails, now).1 == Report(w.db.rows, batch, fp, |rows|, writeFails)
  {
    SoundIsTidy(files, w, clock);
    SoundConsistent(files, w, clock);
    ConsistentKeys(w.db);
    hide Sound, Tidy, Consistent, Prior, Filter, FindFile, Exec;
    PriorFound(w, fp.checksum);
    var prior := Prior(w.db.rows, fp.checksum);
    StartsIff(w.db, r, now);
    if r.status.Registered? {
      StartedRow(w.db, r, now);
      var started := Exec(w.db, MarkIngesting(batch, fp.path), now).0;
      CompletionRows(started, SetIngesting(now)(r), |rows|, now);
      if prior.Some? {
        PriorIsElsewhere(files, w, clock, r, prior.value);
        PriorCount(files, w, clock, prior.value);
      }
    }
  }

  lemma StartsIff(db: Db, r: AuditRow, now: int)
    requires FindFile(db.rows, r.batch, r.path) == Some(r)
    ensures Exec(db, MarkIngesting(r.batch, r.path), now).1.Raised? <==> !r.status.Registered?
  {
    hide FindFile;
  }

  lemma StartedRow(db: Db, r: AuditRow, now: int)
    requires Consistent(db) && r in db.rows && r.status.Registered?
    ensures Exec(db, MarkIngesting(r.batch, r.path), now).1 == Done
    ensures
      var started := Exec(db, MarkIngesting(r.batch, r.path), now).0;
      SetIngesting(now)(r) in started.rows && Distinct(Map(started.rows, AuditLog.KeyOf()))
  {
    ExecKeepsConsistent(db, MarkIngesting(r.batch, r.path), now);
    ConsistentKeys(db);
    hide Consistent, Filter;
    OnlyRowAtFile(db.rows, r);
    UpdateAtFile(db, r, SetIngesting(now), IngestStarted, now);
    var started := Exec(db, MarkIngesting(r.batch, r.path), now).0;
    ConsistentKeys(started);
    var i :| 0 <= i < |db.rows| && db.rows[i] == r;
    assert started.rows[i] == SetIngesting(now)(r);
  }

  /**
   * On a sound store an attempt reports exactly this: a file already started or changed within its batch is
   * refused; otherwise bytes that some batch has ingested are skipped in favour of the latest such batch,
   * and other bytes are written unless the write raises.
   */
  lemma AttemptReports(
      files: Files, w: World, clock: int, batch: string, source: string, load: Load, writeFails: bool, now: int)
    requires Sound(files, w, clock) && clock < now && AllowedBatch(w.db.rows, batch)
    requires LoadOk(files, batch, source, load) && load.Loaded?
    ensures WriteSource(w, batch, source, load, writeFails, now).1 ==
      Report(w.db.rows, batch, load.fingerprint, |load.rows|, writeFails)
    ensures Prior(w.db.rows, load.fingerprint.checksum).Some? <==>
      exists p :: p in w.db.rows && Succeeded(p.status) && p.checksum == load.fingerprint.checksum
  {
    hide Sound, AllowedBatch, Exec, Finish, Consistent, Filter, Prior, Report, FindFile;
    var fp := load.fingerprint;
    PriorExists(w.db.rows, fp.checksum);
    var (db', outcome) := Exec(w.db, RegisterFile(batch, source, fp), now);
    SoundConsistent(files, w, clock);
    if outcome == Done {
      RegisterKeepsSound(files, w, clock, batch, source, fp, now);
      RegisteredRow(w, batch, source, fp, now);
      var r := FindFile(db'.rows, batch, fp.path).value;
      SoundRowOk(files, w.(db := db'), now, r);
      FinishReports(files, w.(db := db'), now, batch, source, fp, load.rows, writeFails, now, r);
    }
    ReportAfterRegistration(w.db, batch, source, fp, |load.rows|, writeFails, now);
  }

  lemma PriorExists(rows: seq<AuditRow>, checksum: string)
    ensures Prior(rows, checksum).Some? <==> exists p :: p in rows && Succeeded(p.status) && p.checksum == checksum
  {
    FilterIn(rows, SucceededWithChecksum(checksum));
    hide Filter;
    var known := Filter(rows, SucceededWithChecksum(checksum));
    if known != [] {
      assert known[0] in known;
    }
    if p :| p in rows && Succeeded(p.status) && p.checksum == checksum {
      assert p in known;
    }
  }

  /** Registering a file changes nothing about its report, and a refused registration is a refused attempt. */
  lemma ReportAfterRegistration(
      db: Db, batch: string, source: string, fp: Fingerprint, count: nat, writeFails: bool, now: int)
    ensures
      var (db', outcome) := Exec(db, RegisterFile(batch, source, fp), now);
      var report := Report(db.rows, batch, fp, count, writeFails);
      if outcome == Done then Report(db'.rows, batch, fp, count, writeFails) == report else report == NotWritten
  {
    PriorAfterRegistration(db, batch, source, fp, now);
    var added := NewRow(batch, source, fp, now);
    FilterSnoc(db.rows, added, AtFile(batch, fp.path));
    hide Filter, Prior;
    if FindFile(db.rows, batch, fp.path).None? {
      assert Filter(db.rows + [added], AtFile(batch, fp.path)) == [added] by {
        assert Filter(db.rows, AtFile(batch, fp.path)) == [];
      }
    }
  }

  // ----- Whole runs -----

  /** An ingestion attempt, or an audit call of a later layer. */
  datatype Step =
    | Ingest(batch: string, source: string, load: Load, writeFails: bool)
    | Later(command: Command)

  datatype Stamped = Stamped(step: Step, now: int)

  function StepBatch(step: Step): string {
    match step
    case Ingest(batch, _, _, _) => batch
    case Later(command) => command.batch
  }

  predicate LaterLayer(c: Command) {
    !c.RegisterFile? && !c.MarkIngesting? && !c.RecordIngestion?
  }

  function TakeStep(w: World, s: Stamped): World {
    match s.step
    case Ingest(batch, source, load, writeFails) => WriteSource(w, batch, source, load, writeFails, s.now).0
    case Later(c) => w.(db := Exec(w.db, c, s.now).0)
  }

  function RunSteps(steps: seq<Stamped>): World {
    if steps == [] then World(EMPTY, map[])
    else TakeStep(RunSteps(steps[..|steps| - 1]), steps[|steps| - 1])
  }

  function LastStamp(steps: seq<Stamped>): int {
    if steps == [] then 0 else steps[|steps| - 1].now
  }

  /** Stamps increase, batches come one at a time, and loads keep the loader's contract. */
  ghost predicate ValidRun(files: Files, steps: seq<Stamped>)
    decreases |steps|
  {
    steps == [] ||
    (var n := |steps| - 1;
     && ValidRun(files, steps[..n])
     && LastStamp(steps[..n]) < steps[n].now
     && AllowedBatch(RunSteps(steps[..n]).db.rows, StepBatch(steps[n].step))
     && (steps[n].step.Ingest? ==> LoadOk(files, steps[n].step.batch, steps[n].step.source, steps[n].step.load))
     && (steps[n].step.Later? ==> LaterLayer(steps[n].step.command)))
  }

  lemma WriteIsBenign(
      files: Files, w: World, clock: int, where: AuditRow -> bool, set_: AuditRow -> AuditRow, body: Body, now: int)
    requires Sound(files, w, clock)
    requires Consistent(Write(w.db, where, set_, body, now))
    requires forall r :: r in w.db.rows && where(r) ==> Benign(r, set_(r))
    ensures Sound(files, w.(db := Write(w.db, where, set_, body, now)), clock)
  {
    hide Sound, Consistent, Filter;
    var db' := Write(w.db, where, set_, body, now);
    forall i | 0 <= i < |w.db.rows| ensures Benign(w.db.rows[i], db'.rows[i]) {
      assert w.db.rows[i] in w.db.rows;
    }
    BenignKeepsSound(files, w, clock, db');
  }

  lemma SourceCallKeepsSound(files: Files, w: World, clock: int, c: Command, now: int)
    requires Sound(files, w, clock) && OnSource(c)
    ensures Sound(files, w.(db := Exec(w.db, c, now).0), clock)
  {
    hide Sound, Consistent, Filter, Write;
    SoundConsistent(files, w, clock);
    ExecKeepsConsistent(w.db, c, now);
    var db' := Exec(w.db, c, now).0;
    match c
    case RecordQuarantine(batch, source, n) =>
      if db' != w.db { WriteIsBenign(files, w, clock, OfSource(batch, source), SetRejected(n), DqCompleted(n), now); }
    case RecordGold(batch, source, n) =>
      if db' != w.db { WriteIsBenign(files, w, clock, OfSource(batch, source), SetGold(n, now), GoldFinished(n), now); }
    case MarkTransforming(batch, source) =>
      SourceUnblocked(w.db, batch, source, Transforming);
      if db' != w.db { WriteIsBenign(files, w, clock, OfSource(batch, source), SetTransforming(), SilverStarted, now); }
    case RecordSilver(batch, source, n) =>
      SourceUnblocked(w.db, batch, source, Transformed);
      if db' != w.db {
        WriteIsBenign(files, w, clock, OfSource(batch, source), SetTransformed(n, now), SilverFinished(n), now);
      }
  }

  lemma FailureKeepsSound(
      files: Files, w: World, clock: int, batch: string, path: string, stage: string, message: string, now: int)
    requires Sound(files, w, clock) && AllowedBatch(w.db.rows, batch)
    ensures Sound(files, w.(db := Exec(w.db, MarkFailed(batch, path, stage, message), now).0), clock)
  {
    hide Sound, Consistent, Filter, AllowedBatch, Exec;
    SoundConsistent(files, w, clock);
    FilterIn(w.db.rows, AtFile(batch, path));
    var r := FindFile(w.db.rows, batch, path);
    if r.Some? {
      assert r.value in Filter(w.db.rows, AtFile(batch, path));
      FailKeepsSound(files, w, clock, r.value, stage, message, now);
    } else {
      FailingUnregisteredDoesNothing(w.db, batch, path, stage, message, now);
    }
  }

  lemma EventKeepsSound(files: Files, w: World, clock: int, c: Command, now: int)
    requires Sound(files, w, clock) && (c.RecordSchemaDrift? || c.RecordReconciled?)
    ensures Sound(files, w.(db := Exec(w.db, c, now).0), clock)
  {
    hide Sound, Consistent, FindFile;
    SoundConsistent(files, w, clock);
    ExecKeepsConsistent(w.db, c, now);
    var db' := Exec(w.db, c, now).0;
    assert db'.rows == w.db.rows;
    forall i | 0 <= i < |w.db.rows| ensures Benign(w.db.rows[i], w.db.rows[i]) {}
    BenignKeepsSound(files, w, clock, db');
  }

  /** The audit calls of Silver and Gold on the latest batch keep the store sound. */
  lemma LaterKeepsSound(files: Files, w: World, clock: int, c: Command, now: int)
    requires Sound(files, w, clock) && AllowedBatch(w.db.rows, c.batch) && LaterLayer(c)
    ensures Sound(files, w.(db := Exec(w.db, c, now).0), clock)
  {
    hide Sound, AllowedBatch, Exec;
    if OnSource(c) {
      SourceCallKeepsSound(files, w, clock, c, now);
    } else if c.MarkFailed? {
      FailureKeepsSound(files, w, clock, c.batch, c.path, c.stage, c.message, now);
    } else {
      EventKeepsSound(files, w, clock, c, now);
    }
  }

  lemma StepKeepsSound(files: Files, w: World, clock: int, s: Stamped)
    requires Sound(files, w, clock) && clock < s.now && AllowedBatch(w.db.rows, StepBatch(s.step))
    requires s.step.Ingest? ==> LoadOk(files, s.step.batch, s.step.source, s.step.load)
    requires s.step.Later? ==> LaterLayer(s.step.command)
    ensures Sound(files, TakeStep(w, s), s.now)
    ensures forall p :: p in w.parts ==> p in TakeStep(w, s).parts && TakeStep(w, s).parts[p] == w.parts[p]
  {
    hide Sound, AllowedBatch, WriteSource, Exec, LoadOk;
    match s.step
    case Ingest(batch, source, load, writeFails) =>
      AttemptKeepsSound(files, w, clock, batch, source, load, writeFails, s.now);
    case Later(c) =>
      SoundLater(files, w, clock, s.now);
      LaterKeepsSound(files, w, s.now, c, s.now);
  }

  /** Every valid run leaves a sound store. */
  lemma {:induction false} EveryRunIsSound(files: Files, steps: seq<Stamped>)
    requires ValidRun(files, steps)
    ensures Sound(files, RunSteps(steps), LastStamp(steps))
  {
    if steps == [] {
      assert Consistent(EMPTY);
    } else {
      hide Sound, AllowedBatch, TakeStep, LoadOk;
      var n := |steps| - 1;
      EveryRunIsSound(files, steps[..n]);
      StepKeepsSound(files, RunSteps(steps[..n]), LastStamp(steps[..n]), steps[n]);
    }
  }

  // ----- Redelivery -----

  function Delivery(batch: string, source: string, fp: Fingerprint, rows: seq<Row>, now: int): Stamped {
    Stamped(Ingest(batch, source, Loaded(fp, rows), false), now)
  }

  /** The row of a file that was ingested into an empty store. */
  function FirstRow(batch: string, source: string, fp: Fingerprint, n: nat, now: int): AuditRow {
    SetIngested(n, n)(SetIngesting(now)(NewRow(batch, source, fp, now)))
  }

  lemma MoveOnlyFile(db: Db, r: AuditRow, to: Status, set_: AuditRow -> AuditRow, body: Body, now: int)
    requires db.rows == [r] && Legal(r.status, to)
    ensures
      var (db', outcome) := MoveFile(db, r.batch, r.path, to, set_, body, now);
      outcome == Done && db'.rows == [set_(r)]
  {
    hide Filter;
    FilterSingleton(r, AtFile(r.batch, r.path));
    assert Map([r], Apply(AtFile(r.batch, r.path), set_)) == [set_(r)];
  }

  lemma NothingAtFile(batch: string, path: string)
    ensures FindFile([], batch, path).None?
  {
    FilterNone([], AtFile(batch, path));
  }

  lemma RegisteredIsNoPrior(batch: string, source: string, fp: Fingerprint, now: int)
    ensures Prior([NewRow(batch, source, fp, now)], fp.checksum).None?
  {
    hide Filter;
    FilterSingleton(NewRow(batch, source, fp, now), SucceededWithChecksum(fp.checksum));
  }

  lemma FirstRegistered(batch: string, source: string, fp: Fingerprint, now: int)
    ensures
      var (db, outcome) := Exec(EMPTY, RegisterFile(batch, source, fp), now);
      outcome == Done && db.rows == [NewRow(batch, source, fp, now)] && Prior(db.rows, fp.checksum).None?
  {
    hide Prior, FindFile, NewRow, RegistrationEvents;
    NothingAtFile(batch, fp.path);
    assert [] + [NewRow(batch, source, fp, now)] == [NewRow(batch, source, fp, now)];
    RegisteredIsNoPrior(batch, source, fp, now);
  }

  lemma FirstDelivery(batch: string, source: string, fp: Fingerprint, rows: seq<Row>, now: int)
    ensures
      var (w, result) := WriteSource(World(EMPTY, map[]), batch, source, Loaded(fp, rows), false, now);
      result == Written(|rows|) && w.db.rows == [FirstRow(batch, source, fp, |rows|, now)]
  {
    hide MoveFile;
    var n, registered := |rows|, NewRow(batch, source, fp, now);
    hide Filter, FindFile, Prior, RegistrationEvents;
    var db := Exec(EMPTY, RegisterFile(batch, source, fp), now).0;
    FirstRegistered(batch, source, fp, now);
    MoveOnlyFile(db, registered, Ingesting, SetIngesting(now), IngestStarted, now);
    var started := Exec(db, MarkIngesting(batch, fp.path), now).0;
    MoveOnlyFile(started, SetIngesting(now)(registered), Ingested, SetIngested(n, n), IngestFinished(n, n), now);
  }

  /** Delivering the same rows again in a later batch: skipped, and still read back. */
  lemma RedeliveryIsSkipped(
      files: Files, a: string, b: string, source: string, fp: Fingerprint, again: Fingerprint, rows: seq<Row>)
    requires a != b && rows != [] && fp.checksum == again.checksum
    requires LoadOk(files, a, source, Loaded(fp, rows)) && LoadOk(files, b, source, Loaded(again, rows))
    ensures ValidRun(files, [Delivery(a, source, fp, rows, 1), Delivery(b, source, again, rows, 2)])
    ensures
      var w := RunSteps([Delivery(a, source, fp, rows, 1)]);
      WriteSource(w, b, source, Loaded(again, rows), false, 2).1 == Skipped(a)
    ensures Read(RunSteps([Delivery(a, source, fp, rows, 1), Delivery(b, source, again, rows, 2)]), source, b) == rows
  {
    hide Sound, WriteSource, Report, Prior, Resolve, LoadOk;
    var first, second := Delivery(a, source, fp, rows, 1), Delivery(b, source, again, rows, 2);
    FirstIsValid(files, a, source, fp, rows);
    var w, r := RunSteps([first]), FirstRow(a, source, fp, |rows|, 1);
    EveryRunIsSound(files, [first]);
    AttemptReports(files, w, 1, b, source, Loaded(again, rows), false, 2);
    OneRowReport(r, b, again, |rows|);
    assert [first, second][..1] == [first];
    AttemptResolves(files, w, 1, b, source, Loaded(again, rows), false, 2);
  }

  lemma FirstIsValid(files: Files, batch: string, source: string, fp: Fingerprint, rows: seq<Row>)
    requires LoadOk(files, batch, source, Loaded(fp, rows))
    ensures
      var steps := [Delivery(batch, source, fp, rows, 1)];
      && ValidRun(files, steps) && LastStamp(steps) == 1
      && RunSteps(steps).db.rows == [FirstRow(batch, source, fp, |rows|, 1)]
  {
    hide WriteSource, LoadOk;
    FirstDelivery(batch, source, fp, rows, 1);
    var steps := [Delivery(batch, source, fp, rows, 1)];
    assert steps[..0] == [];
    assert ValidRun(files, []);
  }

  lemma OneRowReport(r: AuditRow, batch: string, fp: Fingerprint, count: nat)
    requires r.batch != batch && r.checksum == fp.checksum && Succeeded(r.status)
    ensures Report([r], batch, fp, count, false) == Skipped(r.batch)
  {
    hide Filter;
    FilterSingleton(r, AtFile(batch, fp.path));
    FilterSingleton(r, SucceededWithChecksum(fp.checksum));
  }

  /** A partition, once written, never changes and never disappears. */
  lemma {:induction false} PartitionsNeverChange(files: Files, steps: seq<Stamped>, i: nat, p: Partition)
    requires ValidRun(files, steps) && i <= |steps|
    requires p in RunSteps(steps[..i]).parts
    ensures p in RunSteps(steps).parts && RunSteps(steps).parts[p] == RunSteps(steps[..i]).parts[p]
  {
    hide AllowedBatch, TakeStep, LoadOk;
    var n := |steps| - 1;
    if i == |steps| {
      assert steps[..i] == steps;
    } else {
      assert steps[..n][..i] == steps[..i];
      PartitionsNeverChange(files, steps[..n], i, p);
      EveryRunIsSound(files, steps[..n]);
      StepKeepsSound(files, RunSteps(steps[..n]), LastStamp(steps[..n]), steps[n]);
    }
  }

  // ----- The naive store -----

  /** The store that writes every successful attempt's rows under its own batch. */
  function Naive(steps: seq<Stamped>): map<Partition, seq<Row>> {
    if steps == [] then map[]
    else
      var n := |steps| - 1;
      var before := Naive(steps[..n]);
      match steps[n].step
      case Later(_) => before
      case Ingest(batch, source, load, writeFails) =>
        if load.Loaded? && Succeeds(WriteSource(RunSteps(steps[..n]), batch, source, load, writeFails, steps[n].now).1)
        then before[(source, batch) := load.rows]
        else before
  }

  /** The naive store holds the content of the audit row of each of its partitions. */
  ghost predicate Holds(files: Files, naive: map<Partition, seq<Row>>, r: AuditRow) {
    (r.source, r.batch) in naive && naive[(r.source, r.batch)] == files.content(r.checksum)
  }

  ghost predicate NaiveMatches(files: Files, w: World, naive: map<Partition, seq<Row>>) {
    forall r :: r in w.db.rows && Succeeded(r.status) ==> Holds(files, naive, r)
  }

  /** Rows keep batch, source and checksum; a success was one before. */
  predicate NoNewSuccess(r: AuditRow, r': AuditRow) {
    r'.batch == r.batch && r'.source == r.source && r'.checksum == r.checksum
    && (Succeeded(r'.status) ==> Succeeded(r.status))
  }

  ghost predicate WasSuccess(rows: seq<AuditRow>, x: AuditRow) {
    exists r :: r in rows && Succeeded(r.status) && NoNewSuccess(r, x)
  }

  /** Only completing an ingestion makes a success. */
  lemma ExecSuccess(db: Db, c: Command, now: int, x: AuditRow)
    requires x in Exec(db, c, now).0.rows && Succeeded(x.status)
    ensures WasSuccess(db.rows, x) || (
      c.RecordIngestion? && Exec(db, c, now).1 == Done && x.batch == c.batch && x.path == c.path)
  {
    hide Filter, FindFile;
    var rows' := Exec(db, c, now).0.rows;
    var i :| 0 <= i < |rows'| && rows'[i] == x;
    if OnSource(c) {
      SourceCallSuccess(db, c, now, i);
    } else if i < |db.rows| {
      assert db.rows[i] in db.rows;
    }
  }

  lemma SourceCallSuccess(db: Db, c: Command, now: int, i: nat)
    requires OnSource(c) && i < |Exec(db, c, now).0.rows| && Succeeded(Exec(db, c, now).0.rows[i].status)
    ensures WasSuccess(db.rows, Exec(db, c, now).0.rows[i])
  {
    hide Filter;
    if c.MarkTransforming? {
      SourceUnblocked(db, c.batch, c.source, Transforming);
    } else if c.RecordSilver? {
      SourceUnblocked(db, c.batch, c.source, Transformed);
    }
    assert db.rows[i] in db.rows;
  }

  lemma WasSuccessBefore(db: Db, c: Command, now: int, x: AuditRow)
    requires WasSuccess(Exec(db, c, now).0.rows, x) && !c.RecordIngestion?
    ensures WasSuccess(db.rows, x)
  {
    hide Exec;
    var r :| r in Exec(db, c, now).0.rows && Succeeded(r.status) && NoNewSuccess(r, x);
    ExecSuccess(db, c, now, r);
    var o :| o in db.rows && Succeeded(o.status) && NoNewSuccess(o, r);
    assert NoNewSuccess(o, x);
  }

  /** In the tail of an attempt only the attempted file can become a success, and then the attempt succeeds. */
  lemma FinishMakesOneSuccess(
      w: World, batch: string, source: string, fp: Fingerprint, rows: seq<Row>, writeFails: bool, now: int, x: AuditRow)
    requires
      var w' := Finish(w, batch, source, fp, rows, writeFails, now).0;
      x in w'.db.rows && Succeeded(x.status)
    ensures WasSuccess(w.db.rows, x) || (
      Succeeds(Finish(w, batch, source, fp, rows, writeFails, now).1) && x.batch == batch && x.path == fp.path)
  {
    hide Exec, Prior, WasSuccess;
    var (started, began) := Exec(w.db, MarkIngesting(batch, fp.path), now);
    var result := Finish(w, batch, source, fp, rows, writeFails, now).1;
    var n := |rows|;
    var prior := Prior(w.db.rows, fp.checksum);
    var bronze := if prior.Some? && prior.value.batch != batch then Count(prior.value.bronzeRows) else n;
    if began.Raised? {
      ExecSuccess(w.db, MarkFailed(batch, fp.path, "bronze", ""), now, x);
    } else {
      if Succeeds(result) {
        ExecSuccess(started, RecordIngestion(batch, fp.path, n, bronze), now, x);
      } else {
        ExecSuccess(started, MarkFailed(batch, fp.path, "bronze", ""), now, x);
      }
      if WasSuccess(started.rows, x) {
        WasSuccessBefore(w.db, MarkIngesting(batch, fp.path), now, x);
      }
    }
  }

  /** In an attempt only the attempted file can become a success, and then the attempt succeeds. */
  lemma AttemptMakesOneSuccess(
      w: World, batch: string, source: string, load: Load, writeFails: bool, now: int, x: AuditRow)
    requires
      var w' := WriteSource(w, batch, source, load, writeFails, now).0;
      x in w'.db.rows && Succeeded(x.status)
    ensures WasSuccess(w.db.rows, x) || (
      load.Loaded? && Succeeds(WriteSource(w, batch, source, load, writeFails, now).1)
      && x.batch == batch && x.path == load.fingerprint.path)
  {
    hide Exec, Finish, WasSuccess;
    if !load.Loaded? {
      StillSuccess(w.db.rows, x);
    } else {
      var fp := load.fingerprint;
      var (db, registered) := Exec(w.db, RegisterFile(batch, source, fp), now);
      if registered.Raised? {
        StillSuccess(w.db.rows, x);
      } else {
        FinishMakesOneSuccess(w.(db := db), batch, source, fp, load.rows, writeFails, now, x);
        if WasSuccess(db.rows, x) {
          WasSuccessBefore(w.db, RegisterFile(batch, source, fp), now, x);
        }
      }
    }
  }

  lemma StillSuccess(rows: seq<AuditRow>, x: AuditRow)
    requires x in rows && Succeeded(x.status)
    ensures WasSuccess(rows, x)
  {
    assert NoNewSuccess(x, x);
  }

  lemma HeldBefore(files: Files, w: World, naive: map<Partition, seq<Row>>, x: AuditRow)
    requires NaiveMatches(files, w, naive)
    requires WasSuccess(w.db.rows, x)
    ensures Holds(files, naive, x)
  {
    var r :| r in w.db.rows && Succeeded(r.status) && NoNewSuccess(r, x);
    assert Holds(files, naive, r);
  }

  lemma SoundRowOk(files: Files, w: World, clock: int, x: AuditRow)
    requires Sound(files, w, clock) && x in w.db.rows
    ensures RowOk(files, x)
  {
  }

  /** An attempt keeps the naive store matching. */
  lemma AttemptMatches(
      files: Files, w: World, clock: int, batch: string, source: string, load: Load, writeFails: bool, now: int,
      naive: map<Partition, seq<Row>>, x: AuditRow)
    requires Sound(files, w, clock) && clock < now && AllowedBatch(w.db.rows, batch)
    requires LoadOk(files, batch, source, load) && PathsDistinct(files)
    requires NaiveMatches(files, w, naive)
    requires x in WriteSource(w, batch, source, load, writeFails, now).0.db.rows && Succeeded(x.status)
    ensures
      var wrote := load.Loaded? && Succeeds(WriteSource(w, batch, source, load, writeFails, now).1);
      Holds(files, if wrote then naive[(source, batch) := load.rows] else naive, x)
  {
    hide Sound, AllowedBatch, WriteSource, WasSuccess, NaiveMatches;
    var (w', result) := WriteSource(w, batch, source, load, writeFails, now);
    AttemptKeepsSound(files, w, clock, batch, source, load, writeFails, now);
    SoundRowOk(files, w', now, x);
    AttemptMakesOneSuccess(w, batch, source, load, writeFails, now, x);
    if load.Loaded? && Succeeds(result) {
      var r :| r in w'.db.rows && r.batch == batch && r.source == source && Succeeded(r.status)
        && files.content(r.checksum) == load.rows;
      if x.batch == batch && x.source == source {
        SoundIsTidy(files, w', now);
        SameBatchSourceSameRow(files, w', now, x, r);
      } else {
        assert !(x.batch == batch && x.path == load.fingerprint.path);
        HeldBefore(files, w, naive, x);
      }
    } else {
      HeldBefore(files, w, naive, x);
    }
  }

  lemma {:induction false} NaiveMatchesEveryRun(files: Files, steps: seq<Stamped>)
    requires ValidRun(files, steps) && PathsDistinct(files)
    ensures NaiveMatches(files, RunSteps(steps), Naive(steps))
  {
    if steps != [] {
      hide Sound, AllowedBatch, WriteSource, Exec, WasSuccess, LoadOk, Holds;
      var n := |steps| - 1;
      var w, naive := RunSteps(steps[..n]), Naive(steps[..n]);
      NaiveMatchesEveryRun(files, steps[..n]);
      EveryRunIsSound(files, steps[..n]);
      forall x | x in RunSteps(steps).db.rows && Succeeded(x.status) ensures Holds(files, Naive(steps), x) {
        match steps[n].step
        case Ingest(batch, source, load, writeFails) =>
          AttemptMatches(files, w, LastStamp(steps[..n]), batch, source, load, writeFails, steps[n].now, naive, x);
        case Later(c) =>
          ExecSuccess(w.db, c, steps[n].now, x);
          HeldBefore(files, w, naive, x);
      }
    }
  }

  /**
   * The deduplicated store refines the naive one: after any valid run, for every file whose audit row is
   * successful, reading through the resolver gives what the naive store holds for its batch and source.
   */
  lemma DedupAgreesWithNaive(files: Files, steps: seq<Stamped>, r: AuditRow)
    requires ValidRun(files, steps) && PathsDistinct(files)
    requires r in RunSteps(steps).db.rows && Succeeded(r.status)
    ensures (r.source, r.batch) in Naive(steps)
    ensures Read(RunSteps(steps), r.source, r.batch) == Naive(steps)[(r.source, r.batch)] == files.content(r.checksum)
  {
    hide Sound, Resolve, ValidRun, RunSteps, Naive;
    EveryRunIsSound(files, steps);
    NaiveMatchesEveryRun(files, steps);
    assert Holds(files, Naive(steps), r);
    ResolverIsExact(files, RunSteps(steps), LastStamp(steps), r);
  }

  // ----- Retrying -----

  /**
   * Retrying never heals: once a file of the batch has moved past registration, every later attempt on it
   * reports failure and leaves the partitions alone, and with the same bytes its audit row ends up failed.
   */
  lemma RetryNeverHeals(
      w: World, batch: string, source: string, fp: Fingerprint, rows: seq<Row>, writeFails: bool, now: int, r: AuditRow)
    requires Consistent(w.db) && r in w.db.rows
    requires r.batch == batch && r.path == fp.path && !r.status.Registered?
    ensures
      var (w', result) := WriteSource(w, batch, source, Loaded(fp, rows), writeFails, now);
      && result == NotWritten && w'.parts == w.parts
      && (if r.checksum == fp.checksum
          then FindFile(w'.db.rows, batch, fp.path) == Some(SetFailed("bronze", "", now)(r))
          else w'.db == w.db)
  {
    hide Filter, Explained, Prior;
    ConsistentKeys(w.db);
    OnlyRowAtFile(w.db.rows, r);
    FailedFromAnyStatus(w.db, r, "bronze", "", now);
  }

  // ----- Why batches must come one at a time -----

  /** Another success with the same bytes, from another batch than `r`, whose partition is on disk. */
  predicate Substitute(parts: map<Partition, seq<Row>>, o: AuditRow, r: AuditRow, x: AuditRow) {
    x != o && Succeeded(x.status) && x.checksum == r.checksum && x.batch != r.batch && (r.source, x.batch) in parts
  }

  lemma FailKeepsTidy(files: Files, w: World, clock: int, o: AuditRow, stage: string, message: string, now: int)
    requires Tidy(files, w, clock) && o in w.db.rows
    ensures Tidy(files, w.(db := Exec(w.db, MarkFailed(o.batch, o.path, stage, message), now).0), clock)
    ensures
      var rows' := Exec(w.db, MarkFailed(o.batch, o.path, stage, message), now).0.rows;
      && (forall x :: x in w.db.rows && x != o ==> x in rows')
      && (forall x :: x in rows' && Succeeded(x.status) ==> x in w.db.rows && x != o)
  {
    hide Consistent, Sequenced, Backed;
    var set_ := SetFailed(stage, Truncate(message), now);
    var db' := Exec(w.db, MarkFailed(o.batch, o.path, stage, message), now).0;
    ExecKeepsConsistent(w.db, MarkFailed(o.batch, o.path, stage, message), now);
    ConsistentKeys(w.db);
    UpdateAtFile(w.db, o, set_, FileFailed(stage, Truncate(message)), now);
    assert SameFiles(w.db.rows, db'.rows);
    SameFilesSequenced(w.db.rows, db'.rows, clock);
    SameFilesBacked(files, w, db');
    RowsAfterUpdate(w.db.rows, db'.rows, o, set_(o));
    assert RowOk(files, o);
  }

  /**
   * Failing a row of an earlier batch strands a file that was skipped in its favour exactly when no other
   * success with the same bytes has its partition on disk.
   */
  lemma LateFailureStrandsIff(
      files: Files, w: World, clock: int, o: AuditRow, r: AuditRow, stage: string, message: string, now: int)
    requires Tidy(files, w, clock)
    requires o in w.db.rows && r in w.db.rows && o != r
    requires Succeeded(r.status) && (r.source, r.batch) !in w.parts
    ensures
      var w' := w.(db := Exec(w.db, MarkFailed(o.batch, o.path, stage, message), now).0);
      Resolve(w', r.source, r.batch).None? <==> !exists x :: x in w.db.rows && Substitute(w.parts, o, r, x)
  {
    hide Tidy, Exec, CandidateBatches, FirstOnDisk, MostRecentForSource;
    var w' := w.(db := Exec(w.db, MarkFailed(o.batch, o.path, stage, message), now).0);
    FailKeepsTidy(files, w, clock, o, stage, message, now);
    CurrentAudit(files, w', clock, r);
    assert r.checksum != "" by { TidyRowOk(files, w, clock, r); }
    CandidatesAre(w'.db.rows, r.checksum, r.batch);
    FirstOnDiskIs(w.parts, r.source, CandidateBatches(w'.db.rows, r.checksum, r.batch));
    forall x | x in w.db.rows && Substitute(w.parts, o, r, x)
      ensures x.batch in CandidateBatches(w'.db.rows, r.checksum, r.batch)
    {
      assert InOtherBatch(r.batch, r.checksum)(x);
    }
  }

  lemma TidyRowOk(files: Files, w: World, clock: int, r: AuditRow)
    requires Tidy(files, w, clock) && r in w.db.rows
    ensures RowOk(files, r)
  {
  }
}
