/**
 * Every run of the Bronze store: the resolver finds, for each successfully ingested file, a partition with
 * exactly that file's rows, through any chain of skips; and no partition ever changes once written.
 */
module BronzeRuns {
  import opened Wrappers
  import opened Sequences
  import opened Frames
  import opened AuditLog
  import opened BronzeStore

  /** The facts about files that deduplication relies on: a checksum fixes the rows and the source. */
  datatype Files = Files(
    content: string -> seq<Row>, owner: string -> string, path: (string, string) -> string)

  /** One file path for each batch and source. */
  ghost predicate PathsDistinct(files: Files) {
    forall b, s, s' :: files.path(b, s) == files.path(b, s') ==> s == s'
  }

  predicate RowOk(files: Files, r: AuditRow) {
    && r.source == files.owner(r.checksum)
    && r.path == files.path(r.batch, r.source)
    && r.checksum != ""
    && (Succeeded(r.status) ==>
      r.sourceRows == Some(|files.content(r.checksum)|) && r.bronzeRows == Some(|files.content(r.checksum)|))
  }

  /** Registration stamps increase, and the rows of a batch are contiguous. */
  ghost predicate Sequenced(rows: seq<AuditRow>, clock: int) {
    && (forall i :: 0 <= i < |rows| ==> rows[i].registeredAt <= clock)
    && (forall i, j :: 0 <= i < j < |rows| ==> rows[i].registeredAt < rows[j].registeredAt)
    && (forall i, j, k :: 0 <= i < j < k < |rows| && rows[i].batch == rows[k].batch ==> rows[j].batch == rows[i].batch)
  }

  /** The audit row behind a partition: registered for it, started, with the same content. */
  predicate Backs(files: Files, r: AuditRow, p: Partition, rows: seq<Row>) {
    r.source == p.0 && r.batch == p.1 && !r.status.Registered? && rows == files.content(r.checksum)
  }

  ghost predicate Backed(files: Files, w: World, p: Partition)
    requires p in w.parts
  {
    w.parts[p] != [] && exists r :: r in w.db.rows && Backs(files, r, p, w.parts[p])
  }

  /** The row whose partition holds the content of `r`: ingested no later, same bytes, on disk. */
  predicate Originates(parts: map<Partition, seq<Row>>, o: AuditRow, r: AuditRow) {
    Succeeded(o.status) && o.checksum == r.checksum && o.registeredAt <= r.registeredAt && (o.source, o.batch) in parts
  }

  ghost predicate HasOrigin(w: World, r: AuditRow) {
    exists o :: o in w.db.rows && Originates(w.parts, o, r)
  }

  /** Audit rows and partitions are in order, whatever has failed since. */
  ghost predicate Tidy(files: Files, w: World, clock: int) {
    && Consistent(w.db)
    && Sequenced(w.db.rows, clock)
    && (forall r :: r in w.db.rows ==> RowOk(files, r))
    && (forall p :: p in w.parts ==> Backed(files, w, p))
  }

  /** The invariant of every run: tidy, and every success has an origin. */
  ghost predicate Sound(files: Files, w: World, clock: int) {
    && Tidy(files, w, clock)
    && (forall r :: r in w.db.rows && Succeeded(r.status) && files.content(r.checksum) != [] ==> HasOrigin(w, r))
  }

  // ----- What soundness gives the resolver -----

  lemma SameBatchSourceSameRow(files: Files, w: World, clock: int, a: AuditRow, b: AuditRow)
    requires Tidy(files, w, clock)
    requires a in w.db.rows && b in w.db.rows && a.batch == b.batch && a.source == b.source
    ensures a == b
  {
    hide Consistent, Backed, HasOrigin, Sequenced;
    assert RowOk(files, a) && RowOk(files, b);
    assert Distinct(Map(w.db.rows, AuditLog.KeyOf())) by { ConsistentKeys(w.db); }
    var i :| 0 <= i < |w.db.rows| && w.db.rows[i] == a;
    var j :| 0 <= j < |w.db.rows| && w.db.rows[j] == b;
    var keys := Map(w.db.rows, AuditLog.KeyOf());
    assert keys[i] == keys[j];
  }

  /** Between a row and the last row of its batch there are only rows of that batch. */
  lemma BatchIsContiguous(rows: seq<AuditRow>, clock: int, r: AuditRow, x: AuditRow, last: AuditRow)
    requires Sequenced(rows, clock)
    requires r in rows && x in rows && last in rows && last.batch == r.batch
    requires r.registeredAt <= x.registeredAt <= last.registeredAt
    ensures x.batch == r.batch
  {
    var i :| 0 <= i < |rows| && rows[i] == r;
    var j :| 0 <= j < |rows| && rows[j] == x;
    var k :| 0 <= k < |rows| && rows[k] == last;
    assert i <= j <= k;
  }

  /** As of its own batch, a successfully ingested file is its source's most recent ingestion. */
  lemma CurrentAudit(files: Files, w: World, clock: int, r: AuditRow)
    requires Tidy(files, w, clock)
    requires r in w.db.rows && Succeeded(r.status)
    ensures MostRecentForSource(w.db.rows, r.source, r.batch) == Some(r)
  {
    hide Consistent, Backed, HasOrigin, Filter, RowOk;
    var rows := w.db.rows;
    var candidates := Filter(rows, SucceededOfSource(r.source));
    FilterIn(rows, SucceededOfSource(r.source));
    FilterIn(rows, BronzeStore.InBatch(r.batch));
    assert r in Filter(rows, BronzeStore.InBatch(r.batch));
    var last := MostRecent(Filter(rows, BronzeStore.InBatch(r.batch))).value;
    FilterIn(candidates, RegisteredBy(last.registeredAt));
    var eligible := Filter(candidates, RegisteredBy(last.registeredAt));
    assert r in eligible;
    var found := MostRecent(eligible).value;
    BatchIsContiguous(rows, clock, r, found, last);
    SameBatchSourceSameRow(files, w, clock, r, found);
  }

  lemma BackedPartition(files: Files, w: World, clock: int, p: Partition, r: AuditRow)
    requires Tidy(files, w, clock)
    requires p in w.parts && r in w.db.rows && r.source == p.0 && r.batch == p.1
    ensures w.parts[p] == files.content(r.checksum) && w.parts[p] != [] && !r.status.Registered?
  {
    hide Consistent, HasOrigin, Sequenced, RowOk;
    assert Backed(files, w, p);
    var b :| b in w.db.rows && Backs(files, b, p, w.parts[p]);
    SameBatchSourceSameRow(files, w, clock, r, b);
  }

  /**
   * Following a successful file's checksum from any batch without a partition of its own leads to a
   * partition with the file's rows, unless the file was empty, and then to none.
   */
  lemma ChecksumLeadsToRows(files: Files, w: World, clock: int, r: AuditRow, batch: string)
    requires Sound(files, w, clock)
    requires r in w.db.rows && Succeeded(r.status) && (r.source, batch) !in w.parts
    ensures
      var found := FirstOnDisk(w.parts, r.source, CandidateBatches(w.db.rows, r.checksum, batch));
      if files.content(r.checksum) == [] then found.None?
      else found.Some? && found.value in w.parts && w.parts[found.value] == files.content(r.checksum)
  {
    hide Consistent, Backed, HasOrigin, Sequenced, CandidateBatches, FirstOnDisk;
    assert RowOk(files, r);
    CandidatesAre(w.db.rows, r.checksum, batch);
    var batches := CandidateBatches(w.db.rows, r.checksum, batch);
    FirstOnDiskIs(w.parts, r.source, batches);
    forall b | b in batches && (r.source, b) in w.parts
      ensures w.parts[(r.source, b)] == files.content(r.checksum) != []
    {
      var x :| x in w.db.rows && InOtherBatch(batch, r.checksum)(x) && x.batch == b;
      assert RowOk(files, x);
      BackedPartition(files, w, clock, (r.source, b), x);
    }
    if files.content(r.checksum) != [] {
      OriginIsCandidate(files, w, clock, r, batch);
    }
  }

  lemma OriginIsCandidate(files: Files, w: World, clock: int, r: AuditRow, batch: string)
    requires Sound(files, w, clock)
    requires r in w.db.rows && Succeeded(r.status) && files.content(r.checksum) != []
    requires (r.source, batch) !in w.parts
    ensures exists b :: b in CandidateBatches(w.db.rows, r.checksum, batch) && (r.source, b) in w.parts
  {
    hide Consistent, Backed, Sequenced, CandidateBatches;
    var o :| o in w.db.rows && Originates(w.parts, o, r);
    assert RowOk(files, o) && RowOk(files, r);
    CandidatesAre(w.db.rows, r.checksum, batch);
    assert InOtherBatch(batch, r.checksum)(o);
    assert o.batch in CandidateBatches(w.db.rows, r.checksum, batch);
  }

  /**
   * The resolver is exact: for every successfully ingested file it finds a partition with the file's rows,
   * unless the file was empty, and then it finds none (an empty frame leaves no partition on disk).
   */
  lemma ResolverIsExact(files: Files, w: World, clock: int, r: AuditRow)
    requires Sound(files, w, clock)
    requires r in w.db.rows && Succeeded(r.status)
    ensures
      var found := Resolve(w, r.source, r.batch);
      if files.content(r.checksum) == [] then found.None?
      else found.Some? && found.value in w.parts && w.parts[found.value] == files.content(r.checksum)
  {
    hide Consistent, Backed, HasOrigin, Sequenced, CandidateBatches, FirstOnDisk, MostRecentForSource;
    var p := (r.source, r.batch);
    assert RowOk(files, r);
    if p in w.parts {
      BackedPartition(files, w, clock, p, r);
    } else {
      CurrentAudit(files, w, clock, r);
      ChecksumLeadsToRows(files, w, clock, r, r.batch);
    }
  }

  lemma CurrentIsSuccess(rows: seq<AuditRow>, source: string, batch: string)
    ensures
      var current := MostRecentForSource(rows, source, batch);
      current.Some? ==> current.value in rows && Succeeded(current.value.status) && current.value.source == source
  {
    hide Filter, MostRecent;
    var candidates := Filter(rows, SucceededOfSource(source));
    FilterIn(rows, SucceededOfSource(source));
    var last := MostRecent(Filter(rows, BronzeStore.InBatch(batch)));
    if last.Some? {
      FilterIn(candidates, RegisteredBy(last.value.registeredAt));
    }
  }

  /**
   * What the resolver does for any source and batch whatever: the batch's own partition if there is one;
   * otherwise the rows of the source's most recent successful file as of the batch, which need not be the
   * batch's own; nothing if there is no such file or it was empty.
   */
  lemma ResolverIsTotal(files: Files, w: World, clock: int, source: string, batch: string)
    requires Sound(files, w, clock)
    ensures
      var found, current := Resolve(w, source, batch), MostRecentForSource(w.db.rows, source, batch);
      if (source, batch) in w.parts then found == Some((source, batch))
      else if current.None? || files.content(current.value.checksum) == [] then found.None?
      else found.Some? && found.value in w.parts && w.parts[found.value] == files.content(current.value.checksum)
  {
    hide Consistent, Backed, HasOrigin, Sequenced, CandidateBatches, FirstOnDisk, MostRecentForSource;
    CurrentIsSuccess(w.db.rows, source, batch);
    var current := MostRecentForSource(w.db.rows, source, batch);
    if (source, batch) !in w.parts && current.Some? {
      assert RowOk(files, current.value);
      ChecksumLeadsToRows(files, w, clock, current.value, batch);
    }
  }

  // ----- Steps keep the invariant -----

  /** Same file, same stamp, and a started file stays started. */
  predicate SameFile(r: AuditRow, r': AuditRow) {
    && r'.batch == r.batch && r'.source == r.source && r'.path == r.path
    && r'.checksum == r.checksum && r'.registeredAt == r.registeredAt
    && (!r.status.Registered? ==> !r'.status.Registered?)
  }

  ghost predicate SameFiles(rows: seq<AuditRow>, rows': seq<AuditRow>) {
    |rows'| == |rows| && forall i :: 0 <= i < |rows| ==> SameFile(rows[i], rows'[i])
  }

  lemma SameFilesSequenced(rows: seq<AuditRow>, rows': seq<AuditRow>, clock: int)
    requires Sequenced(rows, clock) && SameFiles(rows, rows')
    ensures Sequenced(rows', clock)
  {
  }

  lemma SameFilesBacked(files: Files, w: World, db': Db)
    requires SameFiles(w.db.rows, db'.rows)
    requires forall p :: p in w.parts ==> Backed(files, w, p)
    ensures forall p :: p in w.parts ==> Backed(files, w.(db := db'), p)
  {
    forall p | p in w.parts ensures Backed(files, w.(db := db'), p) {
      assert Backed(files, w, p);
      var r :| r in w.db.rows && Backs(files, r, p, w.parts[p]);
      var i :| 0 <= i < |w.db.rows| && w.db.rows[i] == r;
      assert SameFile(r, db'.rows[i]);
      assert db'.rows[i] in db'.rows && Backs(files, db'.rows[i], p, w.parts[p]);
    }
  }

  /** If no success is lost, origins stay origins. */
  lemma OriginsKept(files: Files, w: World, db': Db)
    requires SameFiles(w.db.rows, db'.rows)
    requires forall i :: 0 <= i < |w.db.rows| && Succeeded(w.db.rows[i].status) ==> Succeeded(db'.rows[i].status)
    ensures forall i :: 0 <= i < |w.db.rows| && HasOrigin(w, w.db.rows[i]) ==> HasOrigin(w.(db := db'), db'.rows[i])
  {
    forall i | 0 <= i < |w.db.rows| && HasOrigin(w, w.db.rows[i]) ensures HasOrigin(w.(db := db'), db'.rows[i]) {
      var o :| o in w.db.rows && Originates(w.parts, o, w.db.rows[i]);
      var k :| 0 <= k < |w.db.rows| && w.db.rows[k] == o;
      assert SameFile(o, db'.rows[k]) && SameFile(w.db.rows[i], db'.rows[i]);
      assert db'.rows[k] in db'.rows && Originates(w.parts, db'.rows[k], db'.rows[i]);
    }
  }

  /** How a write may change a row without touching what Bronze relies on. */
  predicate Benign(r: AuditRow, r': AuditRow) {
    && SameFile(r, r') && r'.sourceRows == r.sourceRows && r'.bronzeRows == r.bronzeRows
    && Succeeded(r.status) == Succeeded(r'.status)
  }

  /** Starting, transforming, transforming done, counting: success is neither gained nor lost. */
  lemma BenignKeepsSound(files: Files, w: World, clock: int, db': Db)
    requires Sound(files, w, clock)
    requires Consistent(db')
    requires |db'.rows| == |w.db.rows| && forall i :: 0 <= i < |w.db.rows| ==> Benign(w.db.rows[i], db'.rows[i])
    ensures Sound(files, w.(db := db'), clock)
  {
    hide Consistent, Sequenced, Backed, HasOrigin;
    SameFilesSequenced(w.db.rows, db'.rows, clock);
    SameFilesBacked(files, w, db');
    OriginsKept(files, w, db');
    forall r' | r' in db'.rows
      ensures RowOk(files, r')
      ensures Succeeded(r'.status) && files.content(r'.checksum) != [] ==> HasOrigin(w.(db := db'), r')
    {
      var i :| 0 <= i < |db'.rows| && db'.rows[i] == r';
      assert Benign(w.db.rows[i], r') && w.db.rows[i] in w.db.rows;
      assert RowOk(files, w.db.rows[i]);
    }
  }

  lemma RegisteredIsSound(
      files: Files, w: World, clock: int, batch: string, source: string, fp: Fingerprint, now: int)
    requires Sound(files, w, clock) && clock < now
    requires AllowedBatch(w.db.rows, batch) && FindFile(w.db.rows, batch, fp.path).None?
    requires files.owner(fp.checksum) == source && fp.path == files.path(batch, source) && fp.checksum != ""
    ensures Sound(files, w.(db := Exec(w.db, RegisterFile(batch, source, fp), now).0), now)
    ensures AllowedBatch(Exec(w.db, RegisterFile(batch, source, fp), now).0.rows, batch)
  {
    hide Consistent, Backed, HasOrigin, FindFile, RegistrationEvents, Sequenced;
    ExecKeepsConsistent(w.db, RegisterFile(batch, source, fp), now);
    var db' := Exec(w.db, RegisterFile(batch, source, fp), now).0;
    var row := NewRow(batch, source, fp, now);
    assert db'.rows == w.db.rows + [row];
    SequencedSnoc(w.db.rows, clock, row, now);
    MoreRows(files, w, db');
  }

  lemma SoundLater(files: Files, w: World, clock: int, later: int)
    requires Sound(files, w, clock) && clock <= later
    ensures Sound(files, w, later)
  {
    hide Consistent, Backed, HasOrigin, RowOk;
  }

  /** Registering a file of a batch that is new or the latest. */
  lemma RegisterKeepsSound(files: Files, w: World, clock: int, batch: string, source: string, fp: Fingerprint, now: int)
    requires Sound(files, w, clock) && clock < now
    requires AllowedBatch(w.db.rows, batch)
    requires files.owner(fp.checksum) == source && fp.path == files.path(batch, source) && fp.checksum != ""
    ensures Sound(files, w.(db := Exec(w.db, RegisterFile(batch, source, fp), now).0), now)
    ensures AllowedBatch(Exec(w.db, RegisterFile(batch, source, fp), now).0.rows, batch)
  {
    hide Sound, FindFile, AllowedBatch;
    var existing := FindFile(w.db.rows, batch, fp.path);
    if existing.None? {
      RegisteredIsSound(files, w, clock, batch, source, fp, now);
    } else {
      SoundLater(files, w, clock, now);
    }
  }

  /** The batch of a step is the latest one, or has no rows yet. */
  ghost predicate AllowedBatch(rows: seq<AuditRow>, batch: string) {
    (forall r :: r in rows ==> r.batch != batch) || (rows != [] && rows[|rows| - 1].batch == batch)
  }

  lemma SequencedSnoc(rows: seq<AuditRow>, clock: int, row: AuditRow, now: int)
    requires Sequenced(rows, clock) && clock < now && row.registeredAt == now
    requires AllowedBatch(rows, row.batch)
    ensures Sequenced(rows + [row], now)
  {
    var more := rows + [row];
    forall i, j, k | 0 <= i < j < k < |more| && more[i].batch == more[k].batch ensures more[j].batch == more[i].batch {
      if k == |rows| {
        assert rows[i] in rows;
        assert rows[|rows| - 1].batch == row.batch;
        if j < |rows| - 1 {
          assert rows[i].batch == rows[|rows| - 1].batch;
        }
      }
    }
  }

  /** Adding a row takes nothing away. */
  lemma MoreRows(files: Files, w: World, db': Db)
    requires w.db.rows <= db'.rows
    ensures forall p :: p in w.parts && Backed(files, w, p) ==> Backed(files, w.(db := db'), p)
    ensures forall r :: HasOrigin(w, r) ==> HasOrigin(w.(db := db'), r)
  {
    forall r | r in w.db.rows ensures r in db'.rows {
      var i :| 0 <= i < |w.db.rows| && w.db.rows[i] == r;
      assert db'.rows[i] == r;
    }
    forall p | p in w.parts && Backed(files, w, p) ensures Backed(files, w.(db := db'), p) {
      var r :| r in w.db.rows && Backs(files, r, p, w.parts[p]);
      assert r in db'.rows;
    }
    forall r | HasOrigin(w, r) ensures HasOrigin(w.(db := db'), r) {
      var o :| o in w.db.rows && Originates(w.parts, o, r);
      assert o in db'.rows;
    }
  }

  /** Updating one file changes that row and no other. */
  lemma UpdateAtFile(db: Db, r: AuditRow, set_: AuditRow -> AuditRow, body: Body, now: int)
    requires Distinct(Map(db.rows, AuditLog.KeyOf())) && r in db.rows
    ensures
      var db' := Write(db, AtFile(r.batch, r.path), set_, body, now);
      && |db'.rows| == |db.rows|
      && forall i :: 0 <= i < |db.rows| ==> db'.rows[i] == if db.rows[i] == r then set_(r) else db.rows[i]
  {
    hide Filter;
    var i :| 0 <= i < |db.rows| && db.rows[i] == r;
    var keys := Map(db.rows, AuditLog.KeyOf());
    forall j | 0 <= j < |db.rows| && j != i ensures !AtFile(r.batch, r.path)(db.rows[j]) {
      assert keys[i] != keys[j];
    }
  }

  lemma RowsAfterUpdate(rows: seq<AuditRow>, rows': seq<AuditRow>, r: AuditRow, changed: AuditRow)
    requires |rows'| == |rows|
    requires forall i :: 0 <= i < |rows| ==> rows'[i] == if rows[i] == r then changed else rows[i]
    ensures forall x :: x in rows && x != r ==> x in rows'
    ensures forall x :: x in rows' ==> x == changed || (x in rows && x != r)
  {
    forall x | x in rows && x != r ensures x in rows' {
      var i :| 0 <= i < |rows| && rows[i] == x;
      assert rows'[i] == x;
    }
    forall x | x in rows' ensures x == changed || (x in rows && x != r) {
      var i :| 0 <= i < |rows| && rows'[i] == x;
      assert rows[i] in rows;
    }
  }

  /** Failing a file of the latest batch strands nobody: only later batches could depend on it. */
  lemma FailKeepsSound(files: Files, w: World, clock: int, r: AuditRow, stage: string, message: string, now: int)
    requires Sound(files, w, clock)
    requires r in w.db.rows && AllowedBatch(w.db.rows, r.batch)
    ensures Sound(files, w.(db := Exec(w.db, MarkFailed(r.batch, r.path, stage, message), now).0), clock)
  {
    hide Consistent, Sequenced, Backed, HasOrigin;
    var text := Truncate(message);
    var set_ := SetFailed(stage, text, now);
    var db' := Exec(w.db, MarkFailed(r.batch, r.path, stage, message), now).0;
    ExecKeepsConsistent(w.db, MarkFailed(r.batch, r.path, stage, message), now);
    ConsistentKeys(w.db);
    UpdateAtFile(w.db, r, set_, FileFailed(stage, text), now);
    assert SameFiles(w.db.rows, db'.rows);
    SameFilesSequenced(w.db.rows, db'.rows, clock);
    SameFilesBacked(files, w, db');
    RowsAfterUpdate(w.db.rows, db'.rows, r, set_(r));
    assert RowOk(files, r);
    assert RowOk(files, set_(r)) && !Succeeded(set_(r).status);
    forall x | x in db'.rows && Succeeded(x.status) && files.content(x.checksum) != []
      ensures HasOrigin(w.(db := db'), x)
    {
      OriginSurvives(files, w, clock, r, x, db');
    }
  }

  lemma LastIsLatest(rows: seq<AuditRow>, clock: int, r: AuditRow)
    requires Sequenced(rows, clock) && r in rows
    ensures rows[|rows| - 1] in rows && r.registeredAt <= rows[|rows| - 1].registeredAt
  {
  }

  /** A file of the latest batch is no origin for another successful file. */
  lemma LatestIsNoOrigin(files: Files, w: World, clock: int, failed: AuditRow, r: AuditRow)
    requires Sound(files, w, clock)
    requires failed in w.db.rows && AllowedBatch(w.db.rows, failed.batch)
    requires r in w.db.rows && r != failed
    ensures !Originates(w.parts, failed, r)
  {
    hide Consistent, Backed, Sequenced, HasOrigin;
    if Originates(w.parts, failed, r) {
      assert RowOk(files, failed) && RowOk(files, r);
      LastIsLatest(w.db.rows, clock, r);
      BatchIsContiguous(w.db.rows, clock, failed, r, w.db.rows[|w.db.rows| - 1]);
      SameBatchSourceSameRow(files, w, clock, failed, r);
    }
  }

  lemma OriginOfSuccess(files: Files, w: World, clock: int, r: AuditRow)
    requires Sound(files, w, clock)
    requires r in w.db.rows && Succeeded(r.status) && files.content(r.checksum) != []
    ensures HasOrigin(w, r)
  {
    hide HasOrigin, Tidy;
  }

  lemma OriginSurvives(files: Files, w: World, clock: int, failed: AuditRow, r: AuditRow, db': Db)
    requires Sound(files, w, clock)
    requires failed in w.db.rows && AllowedBatch(w.db.rows, failed.batch)
    requires r in w.db.rows && r != failed && Succeeded(r.status) && files.content(r.checksum) != []
    requires forall x :: x in w.db.rows && x != failed ==> x in db'.rows
    ensures HasOrigin(w.(db := db'), r)
  {
    hide Sound, Originates, AllowedBatch, HasOrigin;
    OriginOfSuccess(files, w, clock, r);
    LatestIsNoOrigin(files, w, clock, failed, r);
    OtherOrigin(w, failed, r, db');
  }

  lemma OtherOrigin(w: World, failed: AuditRow, r: AuditRow, db': Db)
    requires HasOrigin(w, r) && !Originates(w.parts, failed, r)
    requires forall x :: x in w.db.rows && x != failed ==> x in db'.rows
    ensures HasOrigin(w.(db := db'), r)
  {
    hide Originates;
    var o :| o in w.db.rows && Originates(w.parts, o, r);
  }

  /** `db'` is `db` with the counts of `r` completed. */
  ghost predicate Completes(db: Db, db': Db, r: AuditRow, n: int) {
    && |db'.rows| == |db.rows|
    && (forall i :: 0 <= i < |db.rows| ==> CompletesRow(db.rows[i], db'.rows[i], r, n))
  }

  predicate CompletesRow(x: AuditRow, x': AuditRow, r: AuditRow, n: int) {
    x' == if x == r then SetIngested(n, n)(r) else x
  }

  lemma CompletionRows(db: Db, r: AuditRow, n: int, now: int)
    requires Distinct(Map(db.rows, AuditLog.KeyOf()))
    requires r in db.rows && r.status.Ingesting?
    ensures Exec(db, RecordIngestion(r.batch, r.path, n, n), now).1 == Done
    ensures Completes(db, Exec(db, RecordIngestion(r.batch, r.path, n, n), now).0, r, n)
  {
    hide Filter;
    OnlyRowAtFile(db.rows, r);
    UpdateAtFile(db, r, SetIngested(n, n), IngestFinished(n, n), now);
  }

  /** Completing an ingestion whose content is on disk, its own or an earlier one's. */
  lemma CompleteKeepsSound(files: Files, w: World, clock: int, r: AuditRow, n: int, now: int)
    requires Sound(files, w, clock)
    requires r in w.db.rows && r.status.Ingesting?
    requires n == |files.content(r.checksum)|
    requires files.content(r.checksum) != [] ==> HasOrigin(w, r) || (r.source, r.batch) in w.parts
    ensures Exec(w.db, RecordIngestion(r.batch, r.path, n, n), now).1 == Done
    ensures Sound(files, w.(db := Exec(w.db, RecordIngestion(r.batch, r.path, n, n), now).0), clock)
  {
    hide Consistent, Sequenced, Backed, HasOrigin, Exec, RowOk, SetIngested;
    var db' := Exec(w.db, RecordIngestion(r.batch, r.path, n, n), now).0;
    ExecKeepsConsistent(w.db, RecordIngestion(r.batch, r.path, n, n), now);
    ConsistentKeys(w.db);
    CompletionRows(w.db, r, n, now);
    CompletionIsSameFiles(w.db, db', r, n);
    SameFilesSequenced(w.db.rows, db'.rows, clock);
    SameFilesBacked(files, w, db');
    OriginsKept(files, w, db');
    forall r' | r' in db'.rows
      ensures RowOk(files, r')
      ensures Succeeded(r'.status) && files.content(r'.checksum) != [] ==> HasOrigin(w.(db := db'), r')
    {
      var i :| 0 <= i < |db'.rows| && db'.rows[i] == r';
      assert CompletesRow(w.db.rows[i], r', r, n);
      CompletedRow(files, w, clock, r, n, db', w.db.rows[i], r');
    }
  }

  lemma CompletionIsSameFiles(db: Db, db': Db, r: AuditRow, n: int)
    requires Completes(db, db', r, n) && !r.status.Registered?
    ensures SameFiles(db.rows, db'.rows)
    ensures forall i :: 0 <= i < |db.rows| && Succeeded(db.rows[i].status) ==> Succeeded(db'.rows[i].status)
  {
    forall i | 0 <= i < |db.rows|
      ensures SameFile(db.rows[i], db'.rows[i]) && (Succeeded(db.rows[i].status) ==> Succeeded(db'.rows[i].status))
    {
      assert CompletesRow(db.rows[i], db'.rows[i], r, n);
    }
  }

  /** One row after the completion: as before, or the completed one. */
  lemma CompletedRow(
      files: Files, w: World, clock: int, r: AuditRow, n: int, db': Db, x: AuditRow, x': AuditRow)
    requires Sound(files, w, clock) && x in w.db.rows && x' in db'.rows
    requires n == |files.content(r.checksum)| && r.status.Ingesting?
    requires files.content(r.checksum) != [] ==> HasOrigin(w, r) || (r.source, r.batch) in w.parts
    requires CompletesRow(x, x', r, n)
    requires HasOrigin(w, x) ==> HasOrigin(w.(db := db'), x')
    ensures RowOk(files, x')
    ensures Succeeded(x'.status) && files.content(x'.checksum) != [] ==> HasOrigin(w.(db := db'), x')
  {
    hide Consistent, Sequenced, Backed, HasOrigin;
    assert RowOk(files, x);
    if x == r && (r.source, r.batch) in w.parts {
      OwnOrigin(w.(db := db'), x');
    }
  }

  lemma OwnOrigin(w: World, r: AuditRow)
    requires r in w.db.rows && Succeeded(r.status) && (r.source, r.batch) in w.parts
    ensures HasOrigin(w, r)
  {
    assert Originates(w.parts, r, r);
  }

  /** Writing the partition of a started file. */
  lemma WriteKeepsSound(files: Files, w: World, clock: int, r: AuditRow, rows: seq<Row>)
    requires Sound(files, w, clock)
    requires r in w.db.rows && r.status.Ingesting? && rows == files.content(r.checksum)
    ensures Sound(files, w.(parts := WriteParquet(w.parts, r.source, r.batch, rows)), clock)
  {
    hide Consistent, Sequenced;
    var w' := w.(parts := WriteParquet(w.parts, r.source, r.batch, rows));
    forall p | p in w'.parts ensures Backed(files, w', p) {
      if p == (r.source, r.batch) && rows != [] {
        assert Backs(files, r, p, rows);
      } else {
        assert Backed(files, w, p);
      }
    }
    forall x | x in w.db.rows && HasOrigin(w, x) ensures HasOrigin(w', x) {
      var o :| o in w.db.rows && Originates(w.parts, o, x);
      assert Originates(w'.parts, o, x);
    }
  }
}
