/** The Bronze writer and runner as the code runs them, over the mutable DAO, lake and run table. */
module BronzeWriter {
  import opened Wrappers
  import opened Frames
  import opened AuditLog
  import opened AuditDao
  import opened BronzeStore
  import opened BronzeTheorems
  import opened PipelineRuns

  /** The Parquet lake; a write that raises leaves it alone. */
  class Lake {
    var parts: map<Partition, seq<Row>>

    constructor ()
      ensures parts == map[]
    {
      parts := map[];
    }

    /** `write_parquet(partition_by=["batch_id"], mode="overwrite")`: replace the partitions in the data only. */
    method Write(source: string, batch: string, rows: seq<Row>, fails: bool) returns (ok: bool)
      modifies this
      ensures ok == !fails
      ensures parts == if fails then old(parts) else WriteParquet(old(parts), source, batch, rows)
    {
      if fails {
        return false;
      }
      if |rows| > 0 {
        parts := parts - {(source, batch)};
        parts := parts[(source, batch) := rows];
      }
      ok := true;
    }
  }

  /**
   * `write_bronze_source`: only an engine error of the loader escapes; every failure after registration
   * marks the file failed.
   */
  method WriteBronzeSource(
      dao: Dao, lake: Lake, batch: string, source: string, load: Load, writeFails: bool, now: int)
    returns (result: WriteResult)
    requires Consistent(dao.Value())
    modifies dao, lake
    ensures (World(dao.Value(), lake.parts), result) ==
      WriteSource(old(World(dao.Value(), lake.parts)), batch, source, load, writeFails, now)
    ensures Consistent(dao.Value())
  {
    hide Consistent, Exec, Prior;
    if load.Missing? {
      return NotWritten;
    }
    if load.Crashes? {
      return Escaped;
    }
    var fp, rows := load.fingerprint, load.rows;
    ghost var db0 := dao.Value();
    ExecKeepsConsistent(db0, RegisterFile(batch, source, fp), now);
    var registered := dao.RegisterFile(batch, source, fp, now);
    if registered.Raised? {
      RaisedChangesNothing(db0, RegisterFile(batch, source, fp), now);
      return NotWritten;
    }
    result := FinishWrite(dao, lake, batch, source, fp, rows, writeFails, now);
  }

  lemma RaisedChangesNothing(db: Db, c: Command, now: int)
    requires Consistent(db) && Exec(db, c, now).1.Raised?
    ensures Exec(db, c, now).0 == db
  {
    ConsistentKeys(db);
    ExecGrows(db, c, now);
  }

  /** Phases 3 and 4: the duplicate check, then skip or write. */
  method FinishWrite(
      dao: Dao, lake: Lake, batch: string, source: string, fp: Fingerprint, rows: seq<Row>, writeFails: bool, now: int)
    returns (result: WriteResult)
    requires Consistent(dao.Value())
    modifies dao, lake
    ensures (World(dao.Value(), lake.parts), result) ==
      Finish(old(World(dao.Value(), lake.parts)), batch, source, fp, rows, writeFails, now)
    ensures Consistent(dao.Value())
  {
    hide Consistent, Exec, Prior;
    var prior := Prior(dao.rows, fp.checksum);
    ghost var db1 := dao.Value();
    ConsistentKeys(db1);
    ExecKeepsConsistent(db1, MarkIngesting(batch, fp.path), now);
    var began := dao.MarkIngesting(batch, fp.path, now);
    ghost var started := dao.Value();
    ConsistentKeys(started);
    var failed := began.Raised?;
    if failed {
      RaisedChangesNothing(db1, MarkIngesting(batch, fp.path), now);
    } else if prior.Some? && prior.value.batch != batch {
      var bronze := Count(prior.value.bronzeRows);
      ExecKeepsConsistent(started, RecordIngestion(batch, fp.path, |rows|, bronze), now);
      var ended := dao.RecordIngestionComplete(batch, fp.path, |rows|, bronze, now);
      if ended == Done {
        return Skipped(prior.value.batch);
      }
      RaisedChangesNothing(started, RecordIngestion(batch, fp.path, |rows|, bronze), now);
    } else {
      var ok := lake.Write(source, batch, rows, writeFails);
      if ok {
        ExecKeepsConsistent(started, RecordIngestion(batch, fp.path, |rows|, |rows|), now);
        var ended := dao.RecordIngestionComplete(batch, fp.path, |rows|, |rows|, now);
        if ended == Done {
          return Written(|rows|);
        }
        RaisedChangesNothing(started, RecordIngestion(batch, fp.path, |rows|, |rows|), now);
      }
    }
    ExecKeepsConsistent(dao.Value(), MarkFailed(batch, fp.path, "bronze", ""), now);
    dao.MarkFailed(batch, fp.path, "bronze", "", now);
    result := NotWritten;
  }

  // ----- The runner -----

  /** One registry source in one run: what its file loads to, and whether its write raises. */
  datatype Job = Job(source: string, load: Load, writeFails: bool)

  /** An exception has left the last attempt. */
  predicate Halted(results: seq<WriteResult>) {
    results != [] && results[|results| - 1].Escaped?
  }

  /** The attempts of one run, one after the other, until an exception escapes. */
  function Attempts(w: World, batch: string, jobs: seq<Job>, now: int): (World, seq<WriteResult>) {
    if jobs == [] then (w, [])
    else
      var n := |jobs| - 1;
      var (w', results) := Attempts(w, batch, jobs[..n], now);
      if Halted(results) then (w', results)
      else
        var (w'', result) := WriteSource(w', batch, jobs[n].source, jobs[n].load, jobs[n].writeFails, now + n);
        (w'', results + [result])
  }

  lemma {:induction false} HaltedStays(w: World, batch: string, jobs: seq<Job>, now: int, i: nat)
    requires i <= |jobs| && Halted(Attempts(w, batch, jobs[..i], now).1)
    ensures Attempts(w, batch, jobs, now) == Attempts(w, batch, jobs[..i], now)
  {
    hide WriteSource;
    if i == |jobs| {
      assert jobs[..i] == jobs;
    } else {
      var n := |jobs| - 1;
      assert jobs[..n][..i] == jobs[..i];
      HaltedStays(w, batch, jobs[..n], now, i);
    }
  }

  function RowsWritten(result: WriteResult): nat {
    if result.Written? then result.rows else 0
  }

  function TotalRows(results: seq<WriteResult>): nat {
    if results == [] then 0 else TotalRows(results[..|results| - 1]) + RowsWritten(results[|results| - 1])
  }

  /** How a layer ends; `LayerRaised` leaves its run row as started. */
  datatype LayerStatus = LayerSuccess | LayerFailed | LayerSkipped | LayerRaised

  lemma NoAttempts(w: World, batch: string, now: int)
    ensures Attempts(w, batch, [], now) == (w, [])
  {
  }

  lemma AttemptsStep(w: World, batch: string, jobs: seq<Job>, now: int, i: nat)
    requires i < |jobs|
    ensures
      var (w', results) := Attempts(w, batch, jobs[..i], now);
      Attempts(w, batch, jobs[..i + 1], now) ==
        if Halted(results) then (w', results)
        else
          var (w'', result) := WriteSource(w', batch, jobs[i].source, jobs[i].load, jobs[i].writeFails, now + i);
          (w'', results + [result])
  {
    hide WriteSource;
    assert jobs[..i + 1][..i] == jobs[..i];
  }

  /** `sum(r.rows_written for r in results)`. */
  method SumWritten(results: seq<WriteResult>) returns (total: nat)
    ensures total == TotalRows(results)
  {
    total := 0;
    for i := 0 to |results|
      invariant total == TotalRows(results[..i])
    {
      assert results[..i + 1][..i] == results[..i];
      total := total + RowsWritten(results[i]);
    }
    assert results[..|results|] == results;
  }

  /**
   * `run_bronze`: skip a batch that already succeeded; otherwise attempt every source and record the
   * verdict: one source not written or skipped fails the layer. An escaping exception ends the run without
   * a verdict.
   */
  method RunBronze(
      dao: Dao, lake: Lake, runs: Runs, batch: string, jobs: seq<Job>, skipIfSucceeded: bool, now: int)
    returns (status: LayerStatus, results: seq<WriteResult>)
    requires Consistent(dao.Value())
    modifies dao, lake, runs
    ensures
      var skip := skipIfSucceeded && old(runs.HasSucceeded(batch, "bronze"));
      if skip then
        && status == LayerSkipped && results == []
        && World(dao.Value(), lake.parts) == old(World(dao.Value(), lake.parts)) && runs.table == old(runs.table)
      else
        && (World(dao.Value(), lake.parts), results) == Attempts(old(World(dao.Value(), lake.parts)), batch, jobs, now)
        && (status == LayerRaised <==> Halted(results))
        && (status == LayerFailed <==> !Halted(results) && NotWritten in results)
        && (status == LayerSuccess <==> !Halted(results) && NotWritten !in results)
        && (batch, "bronze") in runs.table
        && (status == LayerRaised ==> runs.table[(batch, "bronze")].status.Running?)
        && (runs.HasSucceeded(batch, "bronze") <==> status == LayerSuccess)
        && (status == LayerSuccess ==> runs.table[(batch, "bronze")].rowsOut == Some(TotalRows(results)))
    ensures Consistent(dao.Value())
  {
    hide Consistent, WriteSource, Attempts, TotalRows;
    results := [];
    NoAttempts(World(dao.Value(), lake.parts), batch, now);
    if skipIfSucceeded && runs.HasSucceeded(batch, "bronze") {
      return LayerSkipped, [];
    }
    runs.MarkStarted(batch, "bronze", now);
    for i := 0 to |jobs|
      invariant |results| == i
      invariant (World(dao.Value(), lake.parts), results) ==
        Attempts(old(World(dao.Value(), lake.parts)), batch, jobs[..i], now)
      invariant Consistent(dao.Value())
      invariant !Halted(results)
      invariant (batch, "bronze") in runs.table && runs.table[(batch, "bronze")].status.Running?
    {
      AttemptsStep(old(World(dao.Value(), lake.parts)), batch, jobs, now, i);
      var result := WriteBronzeSource(dao, lake, batch, jobs[i].source, jobs[i].load, jobs[i].writeFails, now + i);
      results := results + [result];
      if result.Escaped? {
        HaltedStays(old(World(dao.Value(), lake.parts)), batch, jobs, now, i + 1);
        return LayerRaised, results;
      }
    }
    assert jobs[..|jobs|] == jobs;
    var total := SumWritten(results);
    if NotWritten in results {
      runs.MarkFailed(batch, "bronze", "", now + |jobs|);
      status := LayerFailed;
    } else {
      runs.MarkSuccess(batch, "bronze", total, total, now + |jobs|);
      status := LayerSuccess;
    }
  }

  // ----- Re-running a batch -----

  /** The file of the batch has moved past registration. */
  ghost predicate Started(db: Db, batch: string, path: string) {
    exists r :: r in db.rows && r.batch == batch && r.path == path && !r.status.Registered?
  }

  lemma StartedStays(db: Db, c: Command, now: int, batch: string, path: string)
    requires Consistent(db) && Started(db, batch, path)
    ensures Consistent(Exec(db, c, now).0) && Started(Exec(db, c, now).0, batch, path)
  {
    hide Consistent, Exec;
    ExecKeepsConsistent(db, c, now);
    ConsistentKeys(db);
    ExecGrows(db, c, now);
    var r :| r in db.rows && r.batch == batch && r.path == path && !r.status.Registered?;
    var i :| 0 <= i < |db.rows| && db.rows[i] == r;
    var r' := Exec(db, c, now).0.rows[i];
    assert Advances(r, r');
    assert r' in Exec(db, c, now).0.rows;
  }

  lemma StartedStaysInAttempt(
      w: World, batch: string, source: string, load: Load, writeFails: bool, now: int, path: string)
    requires Consistent(w.db) && Started(w.db, batch, path)
    ensures
      var w' := WriteSource(w, batch, source, load, writeFails, now).0;
      Consistent(w'.db) && Started(w'.db, batch, path)
  {
    hide Consistent, Exec, Prior, Started;
    if load.Loaded? {
      var fp, n := load.fingerprint, |load.rows|;
      StartedStays(w.db, RegisterFile(batch, source, fp), now, batch, path);
      var db := Exec(w.db, RegisterFile(batch, source, fp), now).0;
      var prior := Prior(db.rows, fp.checksum);
      StartedStays(db, MarkIngesting(batch, fp.path), now, batch, path);
      StartedStays(db, MarkFailed(batch, fp.path, "bronze", ""), now, batch, path);
      var started := Exec(db, MarkIngesting(batch, fp.path), now).0;
      var bronze := if prior.Some? && prior.value.batch != batch then Count(prior.value.bronzeRows) else n;
      StartedStays(started, RecordIngestion(batch, fp.path, n, bronze), now, batch, path);
      StartedStays(started, MarkFailed(batch, fp.path, "bronze", ""), now, batch, path);
    }
  }

  lemma {:induction false} StartedStaysInRun(w: World, batch: string, jobs: seq<Job>, now: int, path: string)
    requires Consistent(w.db) && Started(w.db, batch, path)
    ensures
      var w' := Attempts(w, batch, jobs, now).0;
      Consistent(w'.db) && Started(w'.db, batch, path)
  {
    hide Consistent, WriteSource, Started;
    if jobs != [] {
      var n := |jobs| - 1;
      StartedStaysInRun(w, batch, jobs[..n], now, path);
      StartedStaysInAttempt(
        Attempts(w, batch, jobs[..n], now).0, batch, jobs[n].source, jobs[n].load, jobs[n].writeFails, now + n, path);
    }
  }

  /**
   * Re-running a batch does not heal it: each source whose file had got past registration is reported as
   * not written if its turn comes, so unless the layer is skipped it does not succeed.
   */
  lemma {:induction false} RerunFailsAgain(w: World, batch: string, jobs: seq<Job>, now: int, i: nat)
    requires Consistent(w.db) && i < |jobs|
    requires jobs[i].load.Loaded? && Started(w.db, batch, jobs[i].load.fingerprint.path)
    ensures
      var results := Attempts(w, batch, jobs, now).1;
      && (i < |results| ==> results[i] == NotWritten)
      && (Halted(results) || NotWritten in results)
  {
    hide Consistent, WriteSource;
    var n := |jobs| - 1;
    ResultsLength(w, batch, jobs, now);
    ResultsLength(w, batch, jobs[..n], now);
    if i < n {
      RerunFailsAgain(w, batch, jobs[..n], now, i);
    } else if !Halted(Attempts(w, batch, jobs[..n], now).1) {
      var fp := jobs[n].load.fingerprint;
      StartedStaysInRun(w, batch, jobs[..n], now, fp.path);
      var w' := Attempts(w, batch, jobs[..n], now).0;
      var r :| r in w'.db.rows && r.batch == batch && r.path == fp.path && !r.status.Registered?;
      RetryNeverHeals(w', batch, jobs[n].source, fp, jobs[n].load.rows, jobs[n].writeFails, now + n, r);
    }
  }

  lemma {:induction false} ResultsLength(w: World, batch: string, jobs: seq<Job>, now: int)
    ensures
      var results := Attempts(w, batch, jobs, now).1;
      |results| <= |jobs| && (|results| == |jobs| || Halted(results))
  {
    hide WriteSource;
    if jobs != [] {
      ResultsLength(w, batch, jobs[..|jobs| - 1], now);
    }
  }

  /** The recorded total adds up the written rows; skipped and failed sources add nothing. */
  lemma {:induction false} TotalsAdd(a: seq<WriteResult>, b: seq<WriteResult>)
    ensures TotalRows(a + b) == TotalRows(a) + TotalRows(b)
  {
    if b == [] {
      assert a + b == a;
    } else {
      var n := |b| - 1;
      TotalsAdd(a, b[..n]);
      var ab := a + b;
      assert ab[..|ab| - 1] == a + b[..n] && ab[|ab| - 1] == b[n];
    }
  }

  lemma TotalOfOne(n: nat, prior: string)
    ensures TotalRows([]) == 0 && TotalRows([Written(n)]) == n
    ensures TotalRows([Skipped(prior)]) == TotalRows([NotWritten]) == TotalRows([Escaped]) == 0
  {
    assert [Written(n)][..0] == [] && [Skipped(prior)][..0] == [] && [NotWritten][..0] == [] && [Escaped][..0] == [];
  }
}
