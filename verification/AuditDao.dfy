/**
 * The audit DAO as the code writes it: two mutable tables, each writer a transaction that rolls both back
 * when it raises. Every method does what `AuditLog.Exec` says.
 */
module AuditDao {
  import opened Sequences
  import opened AuditLog

  class Dao {
    var rows: seq<AuditRow>
    var events: seq<Event>

    constructor ()
      ensures Value() == EMPTY
    {
      rows, events := [], [];
    }

    function Value(): Db
      reads this
    {
      Db(rows, events)
    }

    /** `_emit_event`: the insert fails when the file has no row. */
    method EmitEvent(batch: string, path: string, body: Body, now: int) returns (ok: bool)
      modifies this`events
      ensures ok == FindFile(rows, batch, path).Some?
      ensures events == if ok then old(events) + [Event(batch, path, body, now)] else old(events)
    {
      ok := FindFile(rows, batch, path).Some?;
      if ok {
        events := events + [Event(batch, path, body, now)];
      }
    }

    method RegisterFile(batch: string, source: string, fp: Fingerprint, now: int) returns (outcome: Outcome)
      modifies this
      ensures (Value(), outcome) == Exec(old(Value()), Command.RegisterFile(batch, source, fp), now)
    {
      hide Filter;
      var savedRows, savedEvents := rows, events;
      outcome := Done;
      var existing := FindFile(rows, batch, fp.path);
      if existing.Some? {
        if existing.value.checksum != fp.checksum {
          outcome := Raised(Conflict);
        }
      } else {
        rows := rows + [NewRow(batch, source, fp, now)];
        FindNewRow(savedRows, batch, source, fp, now);
        var ok := EmitEvent(batch, fp.path, FileRegistered(source, fp.size, fp.checksum), now);
        if ok && fp.vendorTime.None? {
          ok := EmitEvent(batch, fp.path, VendorTimestampUnavailable(fp.fsTime), now);
        }
        assert events == savedEvents + RegistrationEvents(batch, source, fp, now);
        if !ok {
          outcome := Raised(ForeignKeyViolation);
        }
      }
      if outcome.Raised? {
        rows, events := savedRows, savedEvents;
      }
    }

    /** `_current_status`, `_assert_transition`, UPDATE, event, COMMIT: the shape of the two file writers. */
    method MoveOneFile(
        batch: string, path: string, to: Status, set_: AuditRow -> AuditRow, body: Body, now: int)
      returns (outcome: Outcome)
      requires Distinct(Map(rows, KeyOf()))
      requires forall r :: set_(r).batch == r.batch && set_(r).path == r.path
      modifies this
      ensures (Value(), outcome) == MoveFile(old(Value()), batch, path, to, set_, body, now)
    {
      hide Filter;
      var savedRows, savedEvents := rows, events;
      outcome := Done;
      var current := FindFile(rows, batch, path);
      if current.None? {
        outcome := Raised(NotRegistered);
      } else if !Legal(current.value.status, to) {
        outcome := Raised(IllegalTransition);
      } else {
        rows := Update(rows, AtFile(batch, path), set_);
        StillThere(savedRows, AtFile(batch, path), set_, batch, path);
        var ok := EmitEvent(batch, path, body, now);
        if !ok {
          outcome := Raised(ForeignKeyViolation);
        }
        OneEvent(savedRows, batch, path, body, now);
      }
      if outcome.Raised? {
        rows, events := savedRows, savedEvents;
      }
    }

    method MarkIngesting(batch: string, path: string, now: int) returns (outcome: Outcome)
      requires Distinct(Map(rows, KeyOf()))
      modifies this
      ensures (Value(), outcome) == Exec(old(Value()), Command.MarkIngesting(batch, path), now)
    {
      outcome := MoveOneFile(batch, path, Ingesting, SetIngesting(now), IngestStarted, now);
    }

    method RecordIngestionComplete(batch: string, path: string, sourceRows: int, bronzeRows: int, now: int)
      returns (outcome: Outcome)
      requires Distinct(Map(rows, KeyOf()))
      modifies this
      ensures (Value(), outcome) == Exec(old(Value()), RecordIngestion(batch, path, sourceRows, bronzeRows), now)
    {
      outcome := MoveOneFile(
        batch, path, Ingested, SetIngested(sourceRows, bronzeRows), IngestFinished(sourceRows, bronzeRows), now);
    }

    /** The event loop of the source writers: one event for every selected file. */
    method EmitForFiles(files: seq<AuditRow>, body: Body, now: int) returns (ok: bool)
      requires forall f :: f in files ==> FindFile(rows, f.batch, f.path).Some?
      modifies this`events
      ensures ok && events == old(events) + Map(files, EventFor(body, now))
    {
      hide FindFile;
      ok := true;
      for i := 0 to |files|
        invariant ok
        invariant rows == old(rows)
        invariant events == old(events) + Map(files[..i], EventFor(body, now))
      {
        assert files[i] in files;
        ok := EmitEvent(files[i].batch, files[i].path, body, now);
        MapSnoc(files, i, EventFor(body, now));
      }
      assert files[..|files|] == files;
    }

    /** Select, check every file, UPDATE all, one event each: the shape of the two status writers on sources. */
    method MoveWholeSource(
        batch: string, source: string, to: Status, set_: AuditRow -> AuditRow, body: Body, now: int)
      returns (outcome: Outcome)
      requires forall r :: set_(r).batch == r.batch && set_(r).path == r.path
      modifies this
      ensures (Value(), outcome) == MoveSource(old(Value()), batch, source, to, set_, body, now)
    {
      hide Filter, FindFile, Legal, Update;
      var savedRows, savedEvents := rows, events;
      var files := Filter(rows, OfSource(batch, source));
      if |files| == 0 {
        return Raised(NoFiles);
      }
      for i := 0 to |files|
        invariant rows == savedRows && events == savedEvents
        invariant forall k :: 0 <= k < i ==> Legal(files[k].status, to)
      {
        if !Legal(files[i].status, to) {
          BlockedFile(files, i, to);
          rows, events := savedRows, savedEvents;
          return Raised(IllegalTransition);
        }
      }
      NoneBlocked(files, to);
      rows := Update(rows, OfSource(batch, source), set_);
      FilesStillThere(savedRows, OfSource(batch, source), OfSource(batch, source), set_);
      var _ := EmitForFiles(files, body, now);
      outcome := Done;
    }

    method MarkTransforming(batch: string, source: string, now: int) returns (outcome: Outcome)
      modifies this
      ensures (Value(), outcome) == Exec(old(Value()), Command.MarkTransforming(batch, source), now)
    {
      outcome := MoveWholeSource(batch, source, Transforming, SetTransforming(), SilverStarted, now);
    }

    method RecordSilverComplete(batch: string, source: string, silverRows: int, now: int) returns (outcome: Outcome)
      modifies this
      ensures (Value(), outcome) == Exec(old(Value()), RecordSilver(batch, source, silverRows), now)
    {
      outcome := MoveWholeSource(
        batch, source, Transformed, SetTransformed(silverRows, now), SilverFinished(silverRows), now);
    }

    /** Select, UPDATE all, one event each, without a status check. */
    method AnnotateWholeSource(batch: string, source: string, set_: AuditRow -> AuditRow, body: Body, now: int)
      returns (outcome: Outcome)
      requires forall r :: set_(r).batch == r.batch && set_(r).path == r.path
      modifies this
      ensures (Value(), outcome) == AnnotateSource(old(Value()), batch, source, set_, body, now)
    {
      hide Filter, FindFile;
      var savedRows := rows;
      var files := Filter(rows, OfSource(batch, source));
      if |files| == 0 {
        return Raised(NoFiles);
      }
      rows := Update(rows, OfSource(batch, source), set_);
      FilesStillThere(savedRows, OfSource(batch, source), OfSource(batch, source), set_);
      var _ := EmitForFiles(files, body, now);
      outcome := Done;
    }

    method RecordQuarantineCount(batch: string, source: string, rejected: int, now: int) returns (outcome: Outcome)
      modifies this
      ensures (Value(), outcome) == Exec(old(Value()), RecordQuarantine(batch, source, rejected), now)
    {
      outcome := AnnotateWholeSource(batch, source, SetRejected(rejected), DqCompleted(rejected), now);
    }

    method RecordGoldComplete(batch: string, source: string, goldRows: int, now: int) returns (outcome: Outcome)
      modifies this
      ensures (Value(), outcome) == Exec(old(Value()), RecordGold(batch, source, goldRows), now)
    {
      outcome := AnnotateWholeSource(batch, source, SetGold(goldRows, now), GoldFinished(goldRows), now);
    }

    /** Never raises: the foreign-key error on an unregistered file rolls the update back and is swallowed. */
    method MarkFailed(batch: string, path: string, stage: string, message: string, now: int)
      requires Distinct(Map(rows, KeyOf()))
      modifies this
      ensures Value() == Exec(old(Value()), Command.MarkFailed(batch, path, stage, message), now).0
    {
      hide Filter;
      var savedRows, savedEvents := rows, events;
      var truncated := Truncate(message);
      rows := Update(rows, AtFile(batch, path), SetFailed(stage, truncated, now));
      StillThere(savedRows, AtFile(batch, path), SetFailed(stage, truncated, now), batch, path);
      var ok := EmitEvent(batch, path, FileFailed(stage, truncated), now);
      if !ok {
        rows, events := savedRows, savedEvents;
        FailingUnregisteredDoesNothing(Value(), batch, path, stage, message, now);
        return;
      }
      OneEvent(savedRows, batch, path, FileFailed(stage, truncated), now);
    }

    method RecordDrift(batch: string, path: string, previous: string, current: string, now: int)
      returns (outcome: Outcome)
      modifies this
      ensures (Value(), outcome) == Exec(old(Value()), RecordSchemaDrift(batch, path, previous, current), now)
    {
      var ok := EmitEvent(batch, path, SchemaDrift(previous, current), now);
      outcome := if ok then Done else Raised(ForeignKeyViolation);
    }
  }

  // ----- Why the foreign key never fires on a registered file -----

  lemma FindNewRow(rows: seq<AuditRow>, batch: string, source: string, fp: Fingerprint, now: int)
    ensures FindFile(rows + [NewRow(batch, source, fp, now)], batch, fp.path).Some?
  {
    FilterSnoc(rows, NewRow(batch, source, fp, now), AtFile(batch, fp.path));
  }

  lemma StillThere(
      rows: seq<AuditRow>, where: AuditRow -> bool, set_: AuditRow -> AuditRow, batch: string, path: string)
    requires forall r :: set_(r).batch == r.batch && set_(r).path == r.path
    ensures FindFile(Update(rows, where, set_), batch, path).Some? == FindFile(rows, batch, path).Some?
  {
    hide Filter;
    FilterMap(rows, Apply(where, set_), AtFile(batch, path), AtFile(batch, path));
  }

  lemma FilesStillThere(
      rows: seq<AuditRow>, selected: AuditRow -> bool, where: AuditRow -> bool, set_: AuditRow -> AuditRow)
    requires forall r :: set_(r).batch == r.batch && set_(r).path == r.path
    ensures forall f :: f in Filter(rows, selected) ==> FindFile(Update(rows, where, set_), f.batch, f.path).Some?
  {
    hide Filter, Update;
    FilterIn(rows, selected);
    forall f | f in Filter(rows, selected) ensures FindFile(Update(rows, where, set_), f.batch, f.path).Some? {
      FilterIn(rows, AtFile(f.batch, f.path));
      assert f in Filter(rows, AtFile(f.batch, f.path));
      StillThere(rows, where, set_, f.batch, f.path);
    }
  }

  lemma OneEvent(rows: seq<AuditRow>, batch: string, path: string, body: Body, now: int)
    requires Distinct(Map(rows, KeyOf()))
    requires FindFile(rows, batch, path).Some?
    ensures Map(Filter(rows, AtFile(batch, path)), EventFor(body, now)) == [Event(batch, path, body, now)]
  {
    hide Filter;
    FilterIn(rows, AtFile(batch, path));
    var r := FindFile(rows, batch, path).value;
    assert r in Filter(rows, AtFile(batch, path));
    OnlyRowAtFile(rows, r);
  }

  lemma BlockedFile(files: seq<AuditRow>, i: nat, to: Status)
    requires i < |files| && !Legal(files[i].status, to)
    ensures Filter(files, Blocked(to)) != []
  {
    FilterIn(files, Blocked(to));
    assert files[i] in Filter(files, Blocked(to));
  }

  lemma NoneBlocked(files: seq<AuditRow>, to: Status)
    requires forall k :: 0 <= k < |files| ==> Legal(files[k].status, to)
    ensures Filter(files, Blocked(to)) == []
  {
    FilterNone(files, Blocked(to));
  }
}
