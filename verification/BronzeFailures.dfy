/**
 * What failed files do to a batch: a retry that fails an earlier batch's file strands the files skipped in
 * its favour, and a failed skipped file is read back as an older delivery of its source.
 */
module BronzeFailures {
  import opened Wrappers
  import opened Sequences
  import opened Frames
  import opened AuditLog
  import opened BronzeStore
  import opened BronzeRuns
  import opened BronzeTheorems
  import AuditEffects

  // ----- Runs of deliveries, row by row -----

  lemma UpdateLast(front: seq<AuditRow>, r: AuditRow, p: AuditRow -> bool, set_: AuditRow -> AuditRow)
    requires p(r) && forall x :: x in front ==> !p(x)
    ensures Map(front + [r], Apply(p, set_)) == front + [set_(r)]
  {
    var apply := Apply(p, set_);
    forall i | 0 <= i < |front| ensures apply(front[i]) == front[i] {
      assert front[i] in front;
    }
  }

  /** Moving the last file, which shares its place with no other. */
  lemma MoveLastFile(
      db: Db, front: seq<AuditRow>, r: AuditRow, to: Status, set_: AuditRow -> AuditRow, body: Body, now: int)
    requires db.rows == front + [r] && Legal(r.status, to)
    requires forall x :: x in front ==> !(x.batch == r.batch && x.path == r.path)
    ensures
      var (db', outcome) := MoveFile(db, r.batch, r.path, to, set_, body, now);
      outcome == Done && db'.rows == front + [set_(r)]
  {
    hide Filter, Legal;
    var p := AtFile(r.batch, r.path);
    FilterLast(front, r, p);
    UpdateLast(front, r, p, set_);
  }

  /** The file has no row in the batch yet. */
  ghost predicate NewIn(rows: seq<AuditRow>, batch: string, path: string) {
    forall x :: x in rows ==> !(x.batch == batch && x.path == path)
  }

  /** The world after delivering a new file: one more ingested row, and its partition unless it was skipped. */
  function Delivered(w: World, batch: string, source: string, fp: Fingerprint, rows: seq<Row>, now: int)
    : (seq<AuditRow>, map<Partition, seq<Row>>)
  {
    (w.db.rows + [FirstRow(batch, source, fp, |rows|, now)],
     if Prior(w.db.rows, fp.checksum).Some? then w.parts else WriteParquet(w.parts, source, batch, rows))
  }

  lemma RegisterAppends(db: Db, batch: string, source: string, fp: Fingerprint, now: int)
    requires NewIn(db.rows, batch, fp.path)
    ensures Exec(db, RegisterFile(batch, source, fp), now).1 == Done
    ensures Exec(db, RegisterFile(batch, source, fp), now).0.rows == db.rows + [NewRow(batch, source, fp, now)]
  {
    FilterNone(db.rows, AtFile(batch, fp.path));
  }

  /** What a new file's attempt does once the file is registered. */
  lemma RegisteredAppends(
      w: World, front: seq<AuditRow>, batch: string, source: string, fp: Fingerprint, rows: seq<Row>, now: int)
    requires w.db.rows == front + [NewRow(batch, source, fp, now)] && NewIn(front, batch, fp.path)
    requires Prior(w.db.rows, fp.checksum) == Prior(front, fp.checksum)
    requires
      var prior := Prior(front, fp.checksum);
      prior.Some? ==> prior.value.batch != batch && Count(prior.value.bronzeRows) == |rows|
    ensures
      var w' := Finish(w, batch, source, fp, rows, false, now).0;
      && w'.db.rows == front + [FirstRow(batch, source, fp, |rows|, now)]
      && w'.parts ==
        if Prior(front, fp.checksum).Some? then w.parts else WriteParquet(w.parts, source, batch, rows)
  {
    hide Prior, MoveFile, WriteParquet, NewRow, SetIngesting, SetIngested;
    var n, row := |rows|, NewRow(batch, source, fp, now);
    NewRowFields(batch, source, fp, now);
    MoveLastFile(w.db, front, row, Ingesting, SetIngesting(now), IngestStarted, now);
    var started := Exec(w.db, MarkIngesting(batch, fp.path), now).0;
    MoveLastFile(started, front, SetIngesting(now)(row), Ingested, SetIngested(n, n), IngestFinished(n, n), now);
  }

  lemma NewRowFields(batch: string, source: string, fp: Fingerprint, now: int)
    ensures
      var row := NewRow(batch, source, fp, now);
      && row.batch == batch && row.path == fp.path && row.status.Registered?
      && SetIngesting(now)(row).batch == batch && SetIngesting(now)(row).path == fp.path
      && SetIngesting(now)(row).status.Ingesting?
  {
  }

  lemma DeliveryAppends(
      files: Files, w: World, clock: int, batch: string, source: string, fp: Fingerprint, rows: seq<Row>, now: int)
    requires Sound(files, w, clock) && clock < now && AllowedBatch(w.db.rows, batch)
    requires LoadOk(files, batch, source, Loaded(fp, rows)) && NewIn(w.db.rows, batch, fp.path)
    ensures
      var w' := WriteSource(w, batch, source, Loaded(fp, rows), false, now).0;
      (w'.db.rows, w'.parts) == Delivered(w, batch, source, fp, rows, now)
  {
    hide Prior, Finish, Exec, Sound, AllowedBatch, NewIn, NewRow, FirstRow;
    RegisterAppends(w.db, batch, source, fp, now);
    PriorAfterRegistration(w.db, batch, source, fp, now);
    PriorFound(w, fp.checksum);
    var prior := Prior(w.db.rows, fp.checksum);
    if prior.Some? {
      PriorCount(files, w, clock, prior.value);
      PriorInOtherBatch(files, w, clock, batch, source, fp, prior.value);
    }
    var db := Exec(w.db, RegisterFile(batch, source, fp), now).0;
    RegisteredAppends(w.(db := db), w.db.rows, batch, source, fp, rows, now);
  }

  /** A batch that does not have the file yet has not ingested its bytes. */
  lemma PriorInOtherBatch(
      files: Files, w: World, clock: int, batch: string, source: string, fp: Fingerprint, p: AuditRow)
    requires Sound(files, w, clock) && p in w.db.rows && p.checksum == fp.checksum
    requires files.owner(fp.checksum) == source && fp.path == files.path(batch, source)
    requires NewIn(w.db.rows, batch, fp.path)
    ensures p.batch != batch
  {
    SoundRowOk(files, w, clock, p);
  }

  // ----- What a failed attempt leaves behind -----

  /** The file's row says that Bronze failed it. */
  ghost predicate FailedInBronze(db: Db, batch: string, path: string, now: int) {
    exists r :: r in db.rows && r.batch == batch && r.path == path
      && r.status == Failed && r.errorStage == Some("bronze") && r.finishedAt == Some(now)
  }

  lemma FailRecords(db: Db, batch: string, path: string, now: int)
    requires Consistent(db) && HasRow(db.rows, batch, path)
    ensures FailedInBronze(Exec(db, MarkFailed(batch, path, "bronze", ""), now).0, batch, path, now)
  {
    hide Explained, Exec;
    var r :| r in db.rows && r.batch == batch && r.path == path;
    var i :| 0 <= i < |db.rows| && db.rows[i] == r;
    AuditEffects.FailureRecorded(db, i, "bronze", "", now);
    var db' := Exec(db, MarkFailed(batch, path, "bronze", ""), now).0;
    assert db'.rows[i] in db'.rows;
  }

  /** A call keeps every file's row. */
  lemma RowStays(db: Db, c: Command, now: int, batch: string, path: string)
    requires Consistent(db) && HasRow(db.rows, batch, path)
    ensures Consistent(Exec(db, c, now).0) && HasRow(Exec(db, c, now).0.rows, batch, path)
  {
    hide Consistent, Exec;
    ExecStep(db, c, now);
    var r :| r in db.rows && r.batch == batch && r.path == path;
    var i :| 0 <= i < |db.rows| && db.rows[i] == r;
    var db' := Exec(db, c, now).0;
    assert Advances(r, db'.rows[i]);
    assert db'.rows[i] in db'.rows;
  }

  lemma RegisteredHasRow(db: Db, batch: string, source: string, fp: Fingerprint, now: int)
    requires Consistent(db) && Exec(db, RegisterFile(batch, source, fp), now).1 == Done
    ensures
      var db' := Exec(db, RegisterFile(batch, source, fp), now).0;
      Consistent(db') && HasRow(db'.rows, batch, fp.path)
  {
    hide Explained, FindFile;
    ExecKeepsConsistent(db, RegisterFile(batch, source, fp), now);
    var db' := Exec(db, RegisterFile(batch, source, fp), now).0;
    AuditEffects.FileFound(db, batch, fp.path);
    if db' == db {
      var r :| r in db.rows && r.batch == batch && r.path == fp.path;
    } else {
      assert db'.rows[|db.rows|] == NewRow(batch, source, fp, now) && db'.rows[|db.rows|] in db'.rows;
    }
  }

  /** An attempt that gets past registration and reports failure leaves the file failed at the bronze stage. */
  lemma FailedAttemptIsRecorded(
      w: World, batch: string, source: string, fp: Fingerprint, rows: seq<Row>, writeFails: bool, now: int)
    requires Consistent(w.db) && Exec(w.db, RegisterFile(batch, source, fp), now).1 == Done
    requires WriteSource(w, batch, source, Loaded(fp, rows), writeFails, now).1 == NotWritten
    ensures FailedInBronze(
      WriteSource(w, batch, source, Loaded(fp, rows), writeFails, now).0.db, batch, fp.path, now)
  {
    hide Consistent, Exec, Prior, HasRow, FailedInBronze, WriteParquet;
    var path := fp.path;
    RegisteredHasRow(w.db, batch, source, fp, now);
    var db := Exec(w.db, RegisterFile(batch, source, fp), now).0;
    var started := Exec(db, MarkIngesting(batch, path), now).0;
    RowStays(db, MarkIngesting(batch, path), now, batch, path);
    FailRecords(db, batch, path, now);
    FailRecords(started, batch, path, now);
  }

  // ----- A retry of an earlier batch -----

  /** Retrying a started file with its own bytes does to the database what failing it does. */
  lemma RetryIsFailure(w: World, r: AuditRow, fp: Fingerprint, rows: seq<Row>, now: int)
    requires Consistent(w.db) && r in w.db.rows && !r.status.Registered?
    requires r.path == fp.path && r.checksum == fp.checksum
    ensures WriteSource(w, r.batch, r.source, Loaded(fp, rows), false, now) ==
      (w.(db := Exec(w.db, MarkFailed(r.batch, r.path, "bronze", ""), now).0), NotWritten)
  {
    hide Filter, Prior, Write;
    ConsistentKeys(w.db);
    OnlyRowAtFile(w.db.rows, r);
  }

  /** Two deliveries of the same rows, in batches `a` and `b`. */
  function Redelivered(
      a: string, b: string, source: string, fp: Fingerprint, again: Fingerprint, rows: seq<Row>): seq<Stamped>
  {
    [Delivery(a, source, fp, rows, 1), Delivery(b, source, again, rows, 2)]
  }

  lemma RedeliveredWorld(
      files: Files, a: string, b: string, source: string, fp: Fingerprint, again: Fingerprint, rows: seq<Row>)
    requires a != b && rows != [] && fp.checksum == again.checksum
    requires LoadOk(files, a, source, Loaded(fp, rows)) && LoadOk(files, b, source, Loaded(again, rows))
    ensures ValidRun(files, Redelivered(a, b, source, fp, again, rows))
    ensures
      var w := RunSteps(Redelivered(a, b, source, fp, again, rows));
      var n := |rows|;
      && w.db.rows == [FirstRow(a, source, fp, n, 1), FirstRow(b, source, again, n, 2)]
      && w.parts == map[(source, a) := rows]
  {
    hide Sound, WriteSource, Report, Prior, Resolve, LoadOk, Delivered;
    var first, ra := Delivery(a, source, fp, rows, 1), FirstRow(a, source, fp, |rows|, 1);
    RedeliveryIsSkipped(files, a, b, source, fp, again, rows);
    FirstIsValid(files, a, source, fp, rows);
    EveryRunIsSound(files, [first]);
    FirstWorld(files, a, source, fp, rows);
    var w := RunSteps([first]);
    DeliveryAppends(files, w, 1, b, source, again, rows, 2);
    PriorOfOne(ra);
    SecondWorld(w, ra, b, source, again, rows);
    var steps := Redelivered(a, b, source, fp, again, rows);
    assert steps[..1] == [first];
  }

  lemma PriorOfOne(r: AuditRow)
    requires Succeeded(r.status)
    ensures Prior([r], r.checksum) == Some(r)
  {
    FilterSingleton(r, SucceededWithChecksum(r.checksum));
  }

  lemma SecondWorld(w: World, r: AuditRow, batch: string, source: string, fp: Fingerprint, rows: seq<Row>)
    requires w.db.rows == [r] && Prior([r], fp.checksum).Some?
    ensures Delivered(w, batch, source, fp, rows, 2) == ([r, FirstRow(batch, source, fp, |rows|, 2)], w.parts)
  {
    hide Prior;
    var more := FirstRow(batch, source, fp, |rows|, 2);
    assert [r] + [more] == [r, more];
  }

  lemma FirstWorld(files: Files, a: string, source: string, fp: Fingerprint, rows: seq<Row>)
    requires rows != [] && LoadOk(files, a, source, Loaded(fp, rows))
    ensures
      var w := RunSteps([Delivery(a, source, fp, rows, 1)]);
      w.db.rows == [FirstRow(a, source, fp, |rows|, 1)] && w.parts == map[(source, a) := rows]
  {
    hide Sound, WriteSource, Prior, LoadOk, ValidRun;
    var w0 := World(EMPTY, map[]);
    EmptyIsSound(files);
    DeliveryAppends(files, w0, 0, a, source, fp, rows, 1);
    NoPrior(fp.checksum);
    assert [Delivery(a, source, fp, rows, 1)][..0] == [];
    assert RunSteps([]) == w0;
  }

  lemma NoPrior(checksum: string)
    ensures Prior([], checksum).None?
  {
  }

  lemma EmptyIsSound(files: Files)
    ensures Sound(files, World(EMPTY, map[]), 0)
  {
    EveryRunIsSound(files, []);
  }

  /**
   * Failure, shown: after delivering the same rows in `a` and `b`, a retry of batch `a` fails `a`'s file,
   * and from then on batch `b`, still ingested, resolves to nothing.
   */
  lemma RetryStrandsLaterBatch(
      files: Files, a: string, b: string, source: string, fp: Fingerprint, again: Fingerprint, rows: seq<Row>)
    requires a != b && rows != [] && fp.checksum == again.checksum
    requires LoadOk(files, a, source, Loaded(fp, rows)) && LoadOk(files, b, source, Loaded(again, rows))
    ensures
      var w := RunSteps(Redelivered(a, b, source, fp, again, rows));
      var (w', result) := WriteSource(w, a, source, Loaded(fp, rows), false, 3);
      var rb := FirstRow(b, source, again, |rows|, 2);
      && Resolve(w, source, b) == Some((source, a))
      && result == NotWritten && rb in w'.db.rows && rb.status.Ingested? && Resolve(w', source, b).None?
  {
    hide Sound, Consistent, WriteSource, Resolve, ValidRun, RunSteps, LoadOk, Exec, Tidy, Substitute;
    var steps := Redelivered(a, b, source, fp, again, rows);
    RedeliveredWorld(files, a, b, source, fp, again, rows);
    EveryRunIsSound(files, steps);
    var w, ra, rb := RunSteps(steps), FirstRow(a, source, fp, |rows|, 1), FirstRow(b, source, again, |rows|, 2);
    SoundIsTidy(files, w, 2);
    SoundConsistent(files, w, 2);
    assert w.db.rows[0] == ra && w.db.rows[1] == rb;
    assert LastStamp(steps) == 2;
    ResolverIsExact(files, w, 2, rb);
    assert files.content(rb.checksum) == rows by { LoadedContent(files, b, source, again, rows); }
    FindsOwnSource(w, source, b);
    RetryIsFailure(w, ra, fp, rows, 3);
    FailKeepsTidy(files, w, 2, ra, "bronze", "", 3);
    LateFailureStrandsIff(files, w, 2, ra, rb, "bronze", "", 3);
    NoSubstitute(w, ra, rb, source, a);
  }

  lemma NoSubstitute(w: World, ra: AuditRow, rb: AuditRow, source: string, a: string)
    requires w.db.rows == [ra, rb] && (forall p :: p in w.parts ==> p == (source, a))
    requires ra.batch == a && rb.batch != a
    ensures forall x :: x in w.db.rows ==> !Substitute(w.parts, ra, rb, x)
  {
  }

  lemma LoadedContent(files: Files, batch: string, source: string, fp: Fingerprint, rows: seq<Row>)
    requires LoadOk(files, batch, source, Loaded(fp, rows))
    ensures files.content(fp.checksum) == rows
  {
  }

  lemma FindsOwnSource(w: World, source: string, batch: string)
    ensures
      var found := Resolve(w, source, batch);
      found.Some? ==> found.value.0 == source && found.value in w.parts
  {
    hide CandidateBatches, MostRecentForSource;
    var current := MostRecentForSource(w.db.rows, source, batch);
    if current.Some? {
      FirstOnDiskIs(w.parts, source, CandidateBatches(w.db.rows, current.value.checksum, batch));
    }
  }

  /** The only thing wrong with that retry as a step of a valid run is that batch `a` is no longer the latest. */
  lemma RetryIsOutOfOrder(
      files: Files, a: string, b: string, source: string, fp: Fingerprint, again: Fingerprint, rows: seq<Row>)
    requires a != b && rows != [] && fp.checksum == again.checksum
    requires LoadOk(files, a, source, Loaded(fp, rows)) && LoadOk(files, b, source, Loaded(again, rows))
    ensures
      var steps := Redelivered(a, b, source, fp, again, rows);
      var retry := Delivery(a, source, fp, rows, 3);
      && ValidRun(files, steps) && LastStamp(steps) < retry.now
      && retry.step.Ingest? && LoadOk(files, retry.step.batch, retry.step.source, retry.step.load)
      && !AllowedBatch(RunSteps(steps).db.rows, StepBatch(retry.step)) && !ValidRun(files, steps + [retry])
  {
    hide Sound, RunSteps, LoadOk;
    var steps, retry := Redelivered(a, b, source, fp, again, rows), Delivery(a, source, fp, rows, 3);
    RedeliveredWorld(files, a, b, source, fp, again, rows);
    var w := RunSteps(steps);
    assert w.db.rows[0].batch == a && w.db.rows[0] in w.db.rows;
    assert w.db.rows[|w.db.rows| - 1].batch == b;
    assert (steps + [retry])[..2] == steps;
  }

  // ----- A stale read -----

  /** Three deliveries of one source: some rows, others, and the first ones again; then that one is retried. */
  datatype Story = Story(
    source: string, a: string, b: string, c: string, fpA: Fingerprint, fpB: Fingerprint, fpC: Fingerprint,
    first: seq<Row>, second: seq<Row>)
  {
    function Steps(): seq<Stamped> {
      [Delivery(a, source, fpA, first, 1), Delivery(b, source, fpB, second, 2), Delivery(c, source, fpC, first, 3),
       Delivery(c, source, fpC, first, 4)]
    }

    predicate Fits(files: Files) {
      && a != b && b != c && a != c && first != [] && second != [] && first != second
      && LoadOk(files, a, source, Loaded(fpA, first)) && LoadOk(files, b, source, Loaded(fpB, second))
      && LoadOk(files, c, source, Loaded(fpC, first)) && fpC.checksum == fpA.checksum
    }

    function RowA(): AuditRow {
      FirstRow(a, source, fpA, |first|, 1)
    }

    function RowB(): AuditRow {
      FirstRow(b, source, fpB, |second|, 2)
    }

    function RowC(): AuditRow {
      FirstRow(c, source, fpC, |first|, 3)
    }
  }

  lemma StepOnto(files: Files, steps: seq<Stamped>, s: Stamped)
    requires ValidRun(files, steps) && LastStamp(steps) < s.now
    requires s.step.Ingest? && LoadOk(files, s.step.batch, s.step.source, s.step.load)
    requires AllowedBatch(RunSteps(steps).db.rows, s.step.batch)
    ensures ValidRun(files, steps + [s]) && RunSteps(steps + [s]) == TakeStep(RunSteps(steps), s)
  {
    hide AllowedBatch, LoadOk, TakeStep;
    assert (steps + [s])[..|steps|] == steps;
  }

  /** One more delivery of a new file, in a batch that has no rows yet. */
  lemma DeliverNext(
      files: Files, steps: seq<Stamped>, batch: string, source: string, fp: Fingerprint, rows: seq<Row>, now: int)
    requires ValidRun(files, steps) && LastStamp(steps) < now
    requires LoadOk(files, batch, source, Loaded(fp, rows))
    requires forall x :: x in RunSteps(steps).db.rows ==> x.batch != batch
    ensures
      var w := RunSteps(steps + [Delivery(batch, source, fp, rows, now)]);
      && ValidRun(files, steps + [Delivery(batch, source, fp, rows, now)])
      && (w.db.rows, w.parts) == Delivered(RunSteps(steps), batch, source, fp, rows, now)
  {
    hide Sound, LoadOk, WriteSource, RunSteps, ValidRun, LastStamp;
    EveryRunIsSound(files, steps);
    StepOnto(files, steps, Delivery(batch, source, fp, rows, now));
    DeliveryAppends(files, RunSteps(steps), LastStamp(steps), batch, source, fp, rows, now);
  }

  lemma ThreeDeliveries(files: Files, t: Story)
    requires t.Fits(files)
    ensures
      var w := RunSteps(t.Steps()[..3]);
      && ValidRun(files, t.Steps()[..3]) && LastStamp(t.Steps()[..3]) == 3
      && w.db.rows == [t.RowA(), t.RowB(), t.RowC()]
      && w.parts == map[(t.source, t.a) := t.first, (t.source, t.b) := t.second]
  {
    hide LoadOk, Prior, ValidRun, RunSteps;
    var steps := t.Steps();
    FirstIsValid(files, t.a, t.source, t.fpA, t.first);
    FirstWorld(files, t.a, t.source, t.fpA, t.first);
    assert steps[..1] == [steps[0]] && steps[..2] == steps[..1] + [steps[1]] && steps[..3] == steps[..2] + [steps[2]];
    DeliverNext(files, steps[..1], t.b, t.source, t.fpB, t.second, 2);
    DifferentBytes(files, t);
    OnePrior(t.RowA(), t.fpB.checksum);
    assert [t.RowA()] + [t.RowB()] == [t.RowA(), t.RowB()];
    LastOf(steps, 2);
    DeliverNext(files, steps[..2], t.c, t.source, t.fpC, t.first, 3);
    TwoPrior(t.RowA(), t.RowB(), t.fpC.checksum);
    assert [t.RowA(), t.RowB()] + [t.RowC()] == [t.RowA(), t.RowB(), t.RowC()];
  }

  lemma LastOf(steps: seq<Stamped>, i: nat)
    requires 0 < i <= |steps|
    ensures LastStamp(steps[..i]) == steps[i - 1].now
  {
  }

  lemma DifferentBytes(files: Files, t: Story)
    requires t.Fits(files)
    ensures t.fpB.checksum != t.fpA.checksum
  {
  }

  lemma OnePrior(r: AuditRow, checksum: string)
    ensures Prior([r], checksum).Some? <==> Succeeded(r.status) && r.checksum == checksum
  {
    FilterSingleton(r, SucceededWithChecksum(checksum));
  }

  lemma TwoPrior(q: AuditRow, r: AuditRow, checksum: string)
    requires Succeeded(q.status) && q.checksum == checksum
    ensures Prior([q, r], checksum).Some?
  {
    PriorExists([q, r], checksum);
    assert q in [q, r];
  }

  /** The whole story is a valid run, and its last step only fails the third file. */
  lemma StoryEnds(files: Files, t: Story)
    requires t.Fits(files)
    ensures ValidRun(files, t.Steps()) && LastStamp(t.Steps()) == 4
    ensures
      var w := RunSteps(t.Steps());
      && w.db.rows == [t.RowA(), t.RowB(), SetFailed("bronze", "", 4)(t.RowC())]
      && w.parts == map[(t.source, t.a) := t.first, (t.source, t.b) := t.second]
  {
    hide Sound, LoadOk, WriteSource, RunSteps, ValidRun, Exec, Consistent;
    var steps, w := t.Steps(), RunSteps(t.Steps()[..3]);
    ThreeDeliveries(files, t);
    assert steps == steps[..3] + [steps[3]];
    assert w.db.rows[2] == t.RowC();
    StepOnto(files, steps[..3], steps[3]);
    EveryRunIsSound(files, steps[..3]);
    SoundConsistent(files, w, 3);
    RetryIsFailure(w, t.RowC(), t.fpC, t.first, 4);
    FailedThird(w, t);
    LastOf(steps, 4);
  }

  /**
   * A valid run with a stale read: the third delivery was skipped and its retry failed its file, and reading
   * the third batch now gives the second delivery's rows.
   */
  lemma StaleRead(files: Files, t: Story)
    requires t.Fits(files)
    ensures ValidRun(files, t.Steps())
    ensures
      var w := RunSteps(t.Steps());
      && SetFailed("bronze", "", 4)(t.RowC()) in w.db.rows
      && Read(w, t.source, t.c) == t.second != t.first
  {
    hide Sound, LoadOk, RunSteps, ValidRun, LastStamp, MostRecentForSource, Resolve;
    StoryEnds(files, t);
    var w := RunSteps(t.Steps());
    assert w.db.rows[2] == SetFailed("bronze", "", 4)(t.RowC());
    EveryRunIsSound(files, t.Steps());
    ResolverIsTotal(files, w, 4, t.source, t.c);
    CurrentIsSecond(t);
    LoadedContent(files, t.b, t.source, t.fpB, t.second);
  }

  lemma FailedThird(w: World, t: Story)
    requires w.db.rows == [t.RowA(), t.RowB(), t.RowC()] && t.a != t.c && t.b != t.c
    ensures Exec(w.db, MarkFailed(t.c, t.fpC.path, "bronze", ""), 4).0.rows ==
      [t.RowA(), t.RowB(), SetFailed("bronze", "", 4)(t.RowC())]
  {
    var apply := Apply(AtFile(t.c, t.fpC.path), SetFailed("bronze", Truncate(""), 4));
    assert Map(w.db.rows, apply) == [t.RowA(), t.RowB(), SetFailed("bronze", "", 4)(t.RowC())];
  }

  lemma FilterThree(x: AuditRow, y: AuditRow, z: AuditRow, p: AuditRow -> bool)
    ensures Filter([x, y, z], p) ==
      (if p(x) then [x] else []) + (if p(y) then [y] else []) + (if p(z) then [z] else [])
  {
    hide Filter;
    FilterSnoc([x, y], z, p);
    FilterSnoc([x], y, p);
    FilterSingleton(x, p);
    assert [x, y] + [z] == [x, y, z] && [x] + [y] == [x, y];
  }

  lemma CurrentIsSecond(t: Story)
    requires t.a != t.c && t.b != t.c
    ensures MostRecentForSource(
      [t.RowA(), t.RowB(), SetFailed("bronze", "", 4)(t.RowC())], t.source, t.c) == Some(t.RowB())
  {
    hide Filter, MostRecent;
    var x, y, z := t.RowA(), t.RowB(), SetFailed("bronze", "", 4)(t.RowC());
    FilterThree(x, y, z, SucceededOfSource(t.source));
    FilterThree(x, y, z, BronzeStore.InBatch(t.c));
    assert Filter([x, y, z], SucceededOfSource(t.source)) == [x, y];
    assert Filter([x, y, z], BronzeStore.InBatch(t.c)) == [z];
    assert MostRecent([z]).value == z;
    FilterSnoc([x], y, RegisteredBy(3));
    FilterSingleton(x, RegisteredBy(3));
    assert [x] + [y] == [x, y];
    var found := MostRecent([x, y]);
    assert y in [x, y] && found.value in [x, y];
  }
}
