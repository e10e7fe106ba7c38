/**
 * The content-deduplicated Bronze store as a value: one write attempt, the partition resolver, and the
 * naive store that always writes. Module BronzeRuns proves that they agree.
 */
module BronzeStore {
  import opened Wrappers
  import opened Sequences
  import opened Ordering
  import opened Frames
  import opened AuditLog

  /** A partition directory: source and batch. */
  type Partition = (string, string)

  /** The audit database and the partitions on disk. */
  datatype World = World(db: Db, parts: map<Partition, seq<Row>>)

  /** What the loader does: report a loader error, let an engine error escape, or deliver the rows. */
  datatype Load = Missing | Crashes | Loaded(fingerprint: Fingerprint, rows: seq<Row>)

  /** `Escaped` is an exception that leaves the attempt. */
  datatype WriteResult = Written(rows: nat) | Skipped(prior: string) | NotWritten | Escaped

  predicate Succeeded(s: Status) {
    s.Ingested? || s.Transforming? || s.Transformed?
  }

  function SucceededWithChecksum(checksum: string): AuditRow -> bool {
    (r: AuditRow) => Succeeded(r.status) && r.checksum == checksum
  }

  function SucceededOfSource(source: string): AuditRow -> bool {
    (r: AuditRow) => Succeeded(r.status) && r.source == source
  }

  /** `ORDER BY registered_at DESC LIMIT 1`. */
  function MostRecent(rows: seq<AuditRow>): (r: Option<AuditRow>)
    ensures rows == [] <==> r.None?
    ensures r.Some? ==> r.value in rows && forall x :: x in rows ==> x.registeredAt <= r.value.registeredAt
  {
    if rows == [] then None
    else
      var n := |rows| - 1;
      var rest := MostRecent(rows[..n]);
      assert rows == rows[..n] + [rows[n]];
      if rest.Some? && rest.value.registeredAt >= rows[n].registeredAt then rest else Some(rows[n])
  }

  /** `find_previous_successful_ingestion`. */
  function Prior(rows: seq<AuditRow>, checksum: string): Option<AuditRow> {
    MostRecent(Filter(rows, SucceededWithChecksum(checksum)))
  }

  function InBatch(batch: string): AuditRow -> bool {
    (r: AuditRow) => r.batch == batch
  }

  function RegisteredBy(stamp: int): AuditRow -> bool {
    (r: AuditRow) => r.registeredAt <= stamp
  }

  /** `find_most_recent_ingestion_for_source` as of a batch: not registered after the batch's last file. */
  function MostRecentForSource(rows: seq<AuditRow>, source: string, batch: string): Option<AuditRow> {
    var candidates := Filter(rows, SucceededOfSource(source));
    var last := MostRecent(Filter(rows, InBatch(batch)));
    if last.None? then MostRecent(candidates)
    else MostRecent(Filter(candidates, RegisteredBy(last.value.registeredAt)))
  }

  function NewestRegistered(): (AuditRow, AuditRow) -> bool {
    (a: AuditRow, b: AuditRow) => a.registeredAt >= b.registeredAt
  }

  function InOtherBatch(batch: string, checksum: string): AuditRow -> bool {
    (r: AuditRow) => Succeeded(r.status) && r.checksum == checksum && r.batch != batch
  }

  /** Drop repeats, keeping first occurrences. */
  function Distinctly(s: seq<string>): seq<string> {
    if s == [] then []
    else
      var front := Distinctly(s[..|s| - 1]);
      if s[|s| - 1] in front then front else front + [s[|s| - 1]]
  }

  function BatchOf(): AuditRow -> string {
    (r: AuditRow) => r.batch
  }

  /** `_find_all_batches_with_checksum`: batches by their latest registration, newest first. */
  function CandidateBatches(rows: seq<AuditRow>, checksum: string, excluded: string): seq<string> {
    Distinctly(Map(Sort(NewestRegistered(), Filter(rows, InOtherBatch(excluded, checksum))), BatchOf()))
  }

  /** The first candidate batch with a partition of the source on disk. */
  function FirstOnDisk(parts: map<Partition, seq<Row>>, source: string, batches: seq<string>): Option<Partition> {
    if batches == [] then None
    else if (source, batches[0]) in parts then Some((source, batches[0]))
    else FirstOnDisk(parts, source, batches[1..])
  }

  /** `resolve_bronze_partition`. */
  function Resolve(w: World, source: string, batch: string): Option<Partition> {
    if (source, batch) in w.parts then Some((source, batch))
    else
      var current := MostRecentForSource(w.db.rows, source, batch);
      if current.None? || current.value.checksum == "" then None
      else FirstOnDisk(w.parts, source, CandidateBatches(w.db.rows, current.value.checksum, batch))
  }

  /** Partitioned overwrite replaces the partitions present in the data, so no rows means no partition. */
  function WriteParquet(parts: map<Partition, seq<Row>>, source: string, batch: string, rows: seq<Row>)
    : map<Partition, seq<Row>>
  {
    if rows == [] then parts else parts[(source, batch) := rows]
  }

  function Count(n: Option<int>): int {
    if n.None? then 0 else n.value
  }

  function Fail(w: World, batch: string, path: string, now: int): (World, WriteResult) {
    (w.(db := Exec(w.db, MarkFailed(batch, path, "bronze", ""), now).0), NotWritten)
  }

  /** The tail of an attempt on a registered file: skip when the bytes are known, otherwise write. */
  function Finish(
      w: World, batch: string, source: string, fp: Fingerprint, rows: seq<Row>, writeFails: bool, now: int)
    : (World, WriteResult)
  {
    var prior := Prior(w.db.rows, fp.checksum);
    var (started, began) := Exec(w.db, MarkIngesting(batch, fp.path), now);
    if began.Raised? then Fail(w, batch, fp.path, now)
    else if prior.Some? && prior.value.batch != batch then
      var (done, ended) := Exec(started, RecordIngestion(batch, fp.path, |rows|, Count(prior.value.bronzeRows)), now);
      if ended.Raised? then Fail(w.(db := started), batch, fp.path, now)
      else (w.(db := done), Skipped(prior.value.batch))
    else if writeFails then Fail(w.(db := started), batch, fp.path, now)
    else
      var written := World(started, WriteParquet(w.parts, source, batch, rows));
      var (done, ended) := Exec(started, RecordIngestion(batch, fp.path, |rows|, |rows|), now);
      if ended.Raised? then Fail(written, batch, fp.path, now)
      else (written.(db := done), Written(|rows|))
  }

  /**
   * `write_bronze_source`: one attempt for one source in one batch. `writeFails` says whether the Parquet
   * write raises; error messages are not modelled.
   */
  function WriteSource(w: World, batch: string, source: string, load: Load, writeFails: bool, now: int)
    : (World, WriteResult)
  {
    if load.Missing? then (w, NotWritten)
    else if load.Crashes? then (w, Escaped)
    else
      var (db, registered) := Exec(w.db, RegisterFile(batch, source, load.fingerprint), now);
      if registered.Raised? then (w, NotWritten)
      else Finish(w.(db := db), batch, source, load.fingerprint, load.rows, writeFails, now)
  }

  // ----- Finding the first candidate on disk -----

  lemma {:induction false} FirstOnDiskIs(parts: map<Partition, seq<Row>>, source: string, batches: seq<string>)
    ensures
      var found := FirstOnDisk(parts, source, batches);
      && (found.Some? ==> found.value.0 == source && found.value.1 in batches && found.value in parts)
      && (found.None? <==> forall b :: b in batches ==> (source, b) !in parts)
  {
    if batches != [] {
      FirstOnDiskIs(parts, source, batches[1..]);
      assert batches == [batches[0]] + batches[1..];
    }
  }

  lemma {:induction false} DistinctlyKeeps(s: seq<string>)
    ensures forall x :: x in Distinctly(s) <==> x in s
    ensures Distinct(Distinctly(s))
  {
    if s != [] {
      DistinctlyKeeps(s[..|s| - 1]);
      assert s == s[..|s| - 1] + [s[|s| - 1]];
    }
  }

  /** The candidates are exactly the other batches that ingested the checksum. */
  lemma CandidatesAre(rows: seq<AuditRow>, checksum: string, excluded: string)
    ensures forall b :: b in CandidateBatches(rows, checksum, excluded) <==>
      exists r :: r in rows && InOtherBatch(excluded, checksum)(r) && r.batch == b
  {
    hide Filter, Sort, Distinctly;
    var matches := Filter(rows, InOtherBatch(excluded, checksum));
    var sorted := Sort(NewestRegistered(), matches);
    var batches := Map(sorted, BatchOf());
    FilterIn(rows, InOtherBatch(excluded, checksum));
    DistinctlyKeeps(batches);
    forall b ensures b in batches <==> exists r :: r in rows && InOtherBatch(excluded, checksum)(r) && r.batch == b {
      if b in batches {
        var i :| 0 <= i < |batches| && batches[i] == b;
        assert sorted[i] in multiset(sorted);
        assert sorted[i] in multiset(matches);
      }
      if r :| r in rows && InOtherBatch(excluded, checksum)(r) && r.batch == b {
        assert r in multiset(matches);
        assert r in multiset(sorted);
        var i :| 0 <= i < |sorted| && sorted[i] == r;
        assert batches[i] == b;
      }
    }
  }

  // ----- Which ingestion is current -----

  /**
   * A successful file of the source that the batch may fall back on: registered no later than the batch's
   * own last file, where the batch has any.
   */
  ghost predicate Eligible(rows: seq<AuditRow>, source: string, batch: string, r: AuditRow) {
    && r in rows && r.source == source && r.status in {Ingested, Transforming, Transformed}
    && ((exists x :: x in rows && x.batch == batch) ==>
        exists x :: x in rows && x.batch == batch && r.registeredAt <= x.registeredAt)
  }

  /** The current ingestion is the latest eligible one, and there is none iff nothing is eligible. */
  lemma CurrentIsLatest(rows: seq<AuditRow>, source: string, batch: string)
    ensures
      var current := MostRecentForSource(rows, source, batch);
      && (current.Some? ==> Eligible(rows, source, batch, current.value))
      && (forall r :: Eligible(rows, source, batch, r) ==>
        current.Some? && r.registeredAt <= current.value.registeredAt)
  {
    hide Filter, MostRecent;
    var candidates, ofBatch := Filter(rows, SucceededOfSource(source)), Filter(rows, InBatch(batch));
    FilterIn(rows, SucceededOfSource(source));
    FilterIn(rows, InBatch(batch));
    var last := MostRecent(ofBatch);
    if last.Some? {
      FilterIn(candidates, RegisteredBy(last.value.registeredAt));
    } else {
      forall x | x in rows ensures x.batch != batch {
        assert x !in ofBatch;
      }
    }
  }

  /** The prior ingestion of some bytes is the latest successful file with their checksum. */
  lemma PriorIsLatest(rows: seq<AuditRow>, checksum: string)
    ensures
      var prior := Prior(rows, checksum);
      && (prior.Some? ==>
        prior.value in rows && prior.value.checksum == checksum
        && prior.value.status in {Ingested, Transforming, Transformed})
      && (forall r :: r in rows && r.checksum == checksum && r.status in {Ingested, Transforming, Transformed} ==>
        prior.Some? && r.registeredAt <= prior.value.registeredAt)
  {
    hide Filter, MostRecent;
    FilterIn(rows, SucceededWithChecksum(checksum));
  }

  /** `x` occurs in `s` before every occurrence of `y`. */
  ghost predicate Precedes(s: seq<string>, x: string, y: string) {
    exists p :: 0 <= p < |s| && s[p] == x && forall q :: 0 <= q < |s| && s[q] == y ==> p < q
  }

  /** Dropping repeats keeps the order of first occurrences. */
  lemma {:induction false} DistinctlyInOrder(s: seq<string>, i: nat, j: nat)
    requires i < j < |Distinctly(s)|
    ensures Precedes(s, Distinctly(s)[i], Distinctly(s)[j])
  {
    var n := |s| - 1;
    var front := Distinctly(s[..n]);
    DistinctlyKeeps(s[..n]);
    if j < |front| {
      DistinctlyInOrder(s[..n], i, j);
      var p :| 0 <= p < n && s[..n][p] == front[i] && forall q :: 0 <= q < n && s[..n][q] == front[j] ==> p < q;
      assert s[p] == front[i];
      forall q | 0 <= q < |s| && s[q] == front[j] ensures p < q {
        assert q < n ==> s[..n][q] == s[q];
      }
    } else {
      assert front[i] in front && front[i] in s[..n];
      var p :| 0 <= p < n && s[..n][p] == front[i];
      forall q | 0 <= q < n ensures s[q] != s[n] {
        assert s[..n][q] in s[..n];
      }
      assert s[p] == front[i] && Distinctly(s)[j] == s[n];
    }
  }

  /** Candidates come newest first: some ingestion of an earlier one is no older than any of a later one. */
  lemma CandidatesNewestFirst(rows: seq<AuditRow>, checksum: string, excluded: string, i: nat, j: nat)
    requires i < j < |CandidateBatches(rows, checksum, excluded)|
    ensures
      var found := CandidateBatches(rows, checksum, excluded);
      exists r :: r in rows && InOtherBatch(excluded, checksum)(r) && r.batch == found[i]
        && forall x :: x in rows && InOtherBatch(excluded, checksum)(x) && x.batch == found[j] ==>
          x.registeredAt <= r.registeredAt
  {
    hide Filter, Sort, Distinctly;
    var matches := Filter(rows, InOtherBatch(excluded, checksum));
    var sorted := Sort(NewestRegistered(), matches);
    var batches, found := Map(sorted, BatchOf()), CandidateBatches(rows, checksum, excluded);
    FilterIn(rows, InOtherBatch(excluded, checksum));
    NewestIsOrder();
    SortSorts(NewestRegistered(), matches);
    DistinctlyInOrder(batches, i, j);
    var p :| 0 <= p < |batches| && batches[p] == found[i]
      && forall q :: 0 <= q < |batches| && batches[q] == found[j] ==> p < q;
    hide CandidateBatches, NewestRegistered;
    var r := sorted[p];
    assert r in multiset(sorted) && r in multiset(matches);
    forall x | x in rows && InOtherBatch(excluded, checksum)(x) && x.batch == found[j]
      ensures x.registeredAt <= r.registeredAt
    {
      assert x in multiset(matches) && x in multiset(sorted);
      var q :| 0 <= q < |sorted| && sorted[q] == x;
      assert batches[q] == found[j];
      assert NewestRegistered()(sorted[p], sorted[q]);
      NewestMeans(sorted[p], sorted[q]);
    }
  }

  lemma NewestMeans(a: AuditRow, b: AuditRow)
    ensures NewestRegistered()(a, b) <==> b.registeredAt <= a.registeredAt
  {
  }

  lemma NewestIsOrder()
    ensures TotalPreorder(NewestRegistered())
  {
  }
}
