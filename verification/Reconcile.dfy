/** `reconcile_batch`: the row-count findings for every file of a batch, and the event it logs for each. */
module Reconcile {
  import opened Wrappers
  import opened Sequences
  import opened Ordering
  import opened Frames
  import opened AuditLog
  import opened AuditDao

  datatype Code =
    | BronzeInflated | RowCountDrift | CompleteSilverLoss
    | HighRejectRate | EmptySourceFile | NonTerminalStatus

  datatype Finding = Finding(batch: string, source: string, path: string, code: Code)

  predicate IsCritical(code: Code) {
    code.BronzeInflated? || code.RowCountDrift? || code.CompleteSilverLoss?
  }

  const HIGH_REJECT_RATE := 0.05

  /** When each rule fires. */
  predicate Fires(code: Code, f: AuditRow) {
    match code
    case BronzeInflated => f.bronzeRows.Some? && f.sourceRows.Some? && f.bronzeRows.value > f.sourceRows.value
    case RowCountDrift =>
      f.bronzeRows.Some? && f.rejectedRows.Some? && f.silverRows.Some?
      && f.silverRows.value != f.bronzeRows.value - f.rejectedRows.value
    case CompleteSilverLoss => f.bronzeRows.Some? && f.bronzeRows.value > 0 && f.silverRows == Some(0)
    case HighRejectRate =>
      f.bronzeRows.Some? && f.bronzeRows.value > 0 && f.rejectedRows.Some?
      && f.rejectedRows.value as real / f.bronzeRows.value as real > HIGH_REJECT_RATE
    case EmptySourceFile => f.bronzeRows == Some(0)
    case NonTerminalStatus => !f.status.Transformed? && !f.status.Failed?
  }

  const CODES: seq<Code> :=
    [BronzeInflated, RowCountDrift, CompleteSilverLoss, HighRejectRate, EmptySourceFile, NonTerminalStatus]

  function FiresFor(f: AuditRow): Code -> bool {
    (c: Code) => Fires(c, f)
  }

  function FindingFor(f: AuditRow): Code -> Finding {
    (c: Code) => Finding(f.batch, f.source, f.path, c)
  }

  function FileFindings(f: AuditRow): seq<Finding> {
    Map(Filter(CODES, FiresFor(f)), FindingFor(f))
  }

  function IsCriticalFinding(): Finding -> bool {
    (f: Finding) => IsCritical(f.code)
  }

  function CriticalCount(findings: seq<Finding>): nat {
    |Filter(findings, IsCriticalFinding())|
  }

  function ReconciledEvent(now: int): AuditRow -> Event {
    (f: AuditRow) =>
      var n, c := |FileFindings(f)|, CriticalCount(FileFindings(f));
      Event(f.batch, f.path, Reconciled(n, c, if c <= n then n - c else 0), now)
  }

  /** The writer call behind the event of a file. */
  function ReconcileCall(now: int): AuditRow -> Call {
    (f: AuditRow) =>
      var n, c := |FileFindings(f)|, CriticalCount(FileFindings(f));
      Call(RecordReconciled(f.batch, f.path, n, c, if c <= n then n - c else 0), now)
  }

  function AllFindings(files: seq<AuditRow>): seq<Finding> {
    if files == [] then []
    else AllFindings(files[..|files| - 1]) + FileFindings(files[|files| - 1])
  }

  function InBatch(batch: string): AuditRow -> bool {
    (r: AuditRow) => r.batch == batch
  }

  function BySourceAndPath(): (AuditRow, AuditRow) -> bool {
    (a: AuditRow, b: AuditRow) =>
      if a.source == b.source then LexLe(CharLe(), a.path, b.path) else LexLe(CharLe(), a.source, b.source)
  }

  /** `list_batch_files`. */
  function BatchFiles(rows: seq<AuditRow>, batch: string): seq<AuditRow> {
    Sort(BySourceAndPath(), Filter(rows, InBatch(batch)))
  }

  /** One file: its findings, and one `reconciled` event with their counts. */
  method ReconcileFile(dao: Dao, f: AuditRow, now: int) returns (findings: seq<Finding>)
    requires Consistent(dao.Value()) && FindFile(dao.rows, f.batch, f.path).Some?
    modifies dao
    ensures findings == FileFindings(f)
    ensures dao.rows == old(dao.rows) && dao.events == old(dao.events) + [ReconciledEvent(now)(f)]
    ensures dao.Value() == Exec(old(dao.Value()), ReconcileCall(now)(f).command, now).0
    ensures Consistent(dao.Value())
  {
    hide Consistent, FileFindings, CriticalCount, FindFile;
    findings := FileFindings(f);
    var critical := CriticalCount(findings);
    var warn := if critical <= |findings| then |findings| - critical else 0;
    ExecKeepsConsistent(dao.Value(), ReconcileCall(now)(f).command, now);
    var _ := dao.EmitEvent(f.batch, f.path, Reconciled(|findings|, critical, warn), now);
  }

  /** One finding list a file, in file order; one `reconciled` event a file; no row changes. */
  method ReconcileBatch(dao: Dao, batch: string, now: int) returns (findings: seq<Finding>)
    requires Consistent(dao.Value())
    modifies dao
    ensures findings == AllFindings(BatchFiles(old(dao.rows), batch))
    ensures dao.rows == old(dao.rows)
    ensures dao.events == old(dao.events) + Map(BatchFiles(old(dao.rows), batch), ReconciledEvent(now))
    ensures dao.Value() == ExecAll(old(dao.Value()), Map(BatchFiles(old(dao.rows), batch), ReconcileCall(now)))
    ensures Consistent(dao.Value())
  {
    hide Consistent, BatchFiles, FileFindings, CriticalCount, FindFile, Exec;
    findings := [];
    var files := BatchFiles(dao.rows, batch);
    FilesHaveRows(dao.Value(), batch);
    for i := 0 to |files|
      invariant dao.rows == old(dao.rows)
      invariant findings == AllFindings(files[..i])
      invariant dao.events == old(dao.events) + Map(files[..i], ReconciledEvent(now))
      invariant dao.Value() == ExecAll(old(dao.Value()), Map(files[..i], ReconcileCall(now)))
      invariant Consistent(dao.Value())
    {
      assert files[i] in files;
      assert files[..i + 1][..i] == files[..i];
      MapSnoc(files, i, ReconciledEvent(now));
      MapSnoc(files, i, ReconcileCall(now));
      var perFile := ReconcileFile(dao, files[i], now);
      findings := findings + perFile;
    }
    assert files[..|files|] == files;
  }

  lemma FilesHaveRows(db: Db, batch: string)
    requires Consistent(db)
    ensures forall f :: f in BatchFiles(db.rows, batch) ==> FindFile(db.rows, f.batch, f.path).Some?
  {
    hide Filter, Sort;
    FilterIn(db.rows, InBatch(batch));
    forall f | f in BatchFiles(db.rows, batch) ensures FindFile(db.rows, f.batch, f.path).Some? {
      assert f in multiset(Sort(BySourceAndPath(), Filter(db.rows, InBatch(batch))));
      assert f in multiset(Filter(db.rows, InBatch(batch)));
      OnlyRowAtFile(db.rows, f);
    }
  }

  /** A finding of a code is reported for a file exactly when its rule fires. */
  lemma FindingIff(f: AuditRow, code: Code)
    ensures FindingFor(f)(code) in FileFindings(f) <==> Fires(code, f)
  {
    hide Filter, Fires;
    FilterIn(CODES, FiresFor(f));
    var fired := Filter(CODES, FiresFor(f));
    assert code in CODES by {
      assert CODES[0] == BronzeInflated && CODES[1] == RowCountDrift && CODES[2] == CompleteSilverLoss;
      assert CODES[3] == HighRejectRate && CODES[4] == EmptySourceFile && CODES[5] == NonTerminalStatus;
    }
    if Fires(code, f) {
      var i :| 0 <= i < |fired| && fired[i] == code;
      assert FileFindings(f)[i] == FindingFor(f)(code);
    }
    if FindingFor(f)(code) in FileFindings(f) {
      var i :| 0 <= i < |FileFindings(f)| && FileFindings(f)[i] == FindingFor(f)(code);
      assert fired[i] in fired;
    }
  }

  // ----- What the rules say -----

  /** The file has these counts of rows in Bronze, rejected and in Silver. */
  predicate Counted(f: AuditRow, inFile: int, bronze: int, rejected: int, silver: int) {
    f.sourceRows == Some(inFile) && f.bronzeRows == Some(bronze) && f.rejectedRows == Some(rejected)
    && f.silverRows == Some(silver)
  }

  /** The code is reported for the file. */
  predicate Reports(f: AuditRow, code: Code) {
    Finding(f.batch, f.source, f.path, code) in FileFindings(f)
  }

  /** What is reported for a file with all its counts: each rule is one comparison of them. */
  lemma FindingsOfCounts(f: AuditRow, inFile: int, bronze: int, rejected: int, silver: int)
    requires Counted(f, inFile, bronze, rejected, silver)
    ensures Reports(f, BronzeInflated) <==> bronze > inFile
    ensures Reports(f, RowCountDrift) <==> bronze != rejected + silver
    ensures Reports(f, CompleteSilverLoss) <==> bronze > 0 && silver == 0
    ensures Reports(f, HighRejectRate) <==> bronze > 0 && 20 * rejected > bronze
    ensures Reports(f, EmptySourceFile) <==> bronze == 0
    ensures Reports(f, NonTerminalStatus) <==> f.status != Transformed && f.status != Failed
  {
    hide FileFindings;
    FindingIff(f, BronzeInflated);
    FindingIff(f, RowCountDrift);
    FindingIff(f, CompleteSilverLoss);
    FindingIff(f, HighRejectRate);
    FindingIff(f, EmptySourceFile);
    FindingIff(f, NonTerminalStatus);
    if bronze > 0 {
      Twentieth(rejected as real, bronze as real);
    }
  }

  lemma Twentieth(rejected: real, bronze: real)
    requires bronze > 0.0
    ensures rejected / bronze > 0.05 <==> 20.0 * rejected > bronze
  {
    var share := rejected / bronze;
    assert share * bronze == rejected;
    if share > 0.05 {
      assert (share - 0.05) * bronze > 0.0;
    } else {
      assert (0.05 - share) * bronze >= 0.0;
    }
  }

  /** A rule whose counts are missing does not fire. */
  lemma NothingWithoutCounts(f: AuditRow)
    ensures f.bronzeRows.None? ==>
      forall code :: Reports(f, code) ==> code == NonTerminalStatus
    ensures f.rejectedRows.None? ==> !Reports(f, RowCountDrift) && !Reports(f, HighRejectRate)
    ensures f.silverRows.None? ==> !Reports(f, RowCountDrift) && !Reports(f, CompleteSilverLoss)
  {
    hide FileFindings;
    forall code ensures Reports(f, code) <==> Fires(code, f) {
      FindingIff(f, code);
    }
  }

  /** The positions of the critical findings. */
  ghost function CriticalAt(findings: seq<Finding>): set<nat> {
    set k: nat | k < |findings| && findings[k].code in {BronzeInflated, RowCountDrift, CompleteSilverLoss}
  }

  lemma {:induction false} CriticalsCounted(findings: seq<Finding>)
    ensures CriticalCount(findings) == |CriticalAt(findings)|
  {
    if findings == [] {
      assert CriticalAt(findings) == {};
    } else {
      var n := |findings| - 1;
      CriticalsCounted(findings[..n]);
      CriticalsOneMore(findings);
    }
  }

  lemma CriticalsOneMore(findings: seq<Finding>)
    requires findings != []
    ensures
      var n := |findings| - 1;
      |CriticalAt(findings)| == |CriticalAt(findings[..n])| + (if IsCritical(findings[n].code) then 1 else 0)
  {
    var n := |findings| - 1;
    var earlier := CriticalAt(findings[..n]);
    assert forall k :: 0 <= k < n ==> findings[..n][k] == findings[k];
    assert CriticalAt(findings) == if IsCritical(findings[n].code) then earlier + {n} else earlier;
  }

  /** The event of a file carries how many findings it has, how many are critical, and the rest as warnings. */
  lemma EventCounts(f: AuditRow, now: int)
    ensures
      var findings := FileFindings(f);
      var critical := |CriticalAt(findings)|;
      && critical <= |findings|
      && ReconciledEvent(now)(f) == Event(f.batch, f.path, Reconciled(|findings|, critical, |findings| - critical), now)
  {
    hide FileFindings;
    CriticalsCounted(FileFindings(f));
    hide CriticalAt;
  }

  /** The files are exactly those of the batch, by source and then by path. */
  lemma FilesInOrder(rows: seq<AuditRow>, batch: string)
    ensures
      var files := BatchFiles(rows, batch);
      && (forall r :: multiset(files)[r] == if r.batch == batch then multiset(rows)[r] else 0)
      && forall i, j :: 0 <= i < j < |files| ==>
        if files[i].source == files[j].source then LexLe(CharLe(), files[i].path, files[j].path)
        else LexLe(CharLe(), files[i].source, files[j].source)
  {
    hide Filter, Sort, LexLe;
    forall r ensures multiset(BatchFiles(rows, batch))[r] == if r.batch == batch then multiset(rows)[r] else 0 {
      FilterCount(rows, InBatch(batch), r);
    }
    SourceAndPathOrder();
    SortSorts(BySourceAndPath(), Filter(rows, InBatch(batch)));
  }

  lemma SourceAndPathOrder()
    ensures TotalPreorder(BySourceAndPath())
  {
    TextIsOrdered();
    hide LexLe;
    var le := BySourceAndPath();
    forall a, b ensures le(a, b) || le(b, a) {
      TextTotal(a.source, b.source);
      TextTotal(a.path, b.path);
    }
    forall a, b, c | le(a, b) && le(b, c) ensures le(a, c) {
      TextTotal(a.source, b.source);
      TextChain(a.source, b.source, c.source);
      TextChain(a.path, b.path, c.path);
      TextTotal(b.source, c.source);
    }
  }

  lemma TextIsOrdered()
    ensures TotalOrder(CharLe())
  {
  }

  lemma TextTotal(s: string, t: string)
    ensures LexLe(CharLe(), s, t) || LexLe(CharLe(), t, s)
    ensures LexLe(CharLe(), s, t) && LexLe(CharLe(), t, s) ==> s == t
  {
    LexTotal(CharLe(), s, t);
  }

  lemma TextChain(s: string, t: string, u: string)
    ensures LexLe(CharLe(), s, t) && LexLe(CharLe(), t, u) ==> LexLe(CharLe(), s, u)
  {
    if LexLe(CharLe(), s, t) && LexLe(CharLe(), t, u) {
      LexTransitive(CharLe(), s, t, u);
    }
  }

  /** Where a code stands in a file's list of findings. */
  function Place(code: Code): nat {
    match code
    case BronzeInflated => 0
    case RowCountDrift => 1
    case CompleteSilverLoss => 2
    case HighRejectRate => 3
    case EmptySourceFile => 4
    case NonTerminalStatus => 5
  }

  /** Findings of a file come in that order, critical ones first, each at most once, all naming the file. */
  lemma FindingsInOrder(f: AuditRow)
    ensures forall x :: x in FileFindings(f) ==> x.batch == f.batch && x.source == f.source && x.path == f.path
    ensures forall i, j :: 0 <= i < j < |FileFindings(f)| ==>
      Place(FileFindings(f)[i].code) < Place(FileFindings(f)[j].code)
  {
    hide Fires, Filter;
    var ks := FilterLists(CODES, FiresFor(f));
    assert forall k :: 0 <= k < |CODES| ==> Place(CODES[k]) == k;
  }
}
