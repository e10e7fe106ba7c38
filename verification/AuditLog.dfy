/**
 * The audit database as a value: the file table, the event log, and what each writer does to both.
 * The table always equals a fold of the log, and every file's events follow the lifecycle.
 */
module AuditLog {
  import opened Wrappers
  import opened Sequences

  datatype Status = Registered | Ingesting | Ingested | Transforming | Transformed | Failed

  datatype Fingerprint = Fingerprint(
    path: string, size: int, checksum: string, schemaHash: string,
    fsTime: string, vendorTime: Option<string>, vendorSource: Option<string>)

  datatype AuditRow = AuditRow(
    batch: string, source: string, path: string, size: int, checksum: string, schemaHash: string,
    vendorTime: Option<string>, fsTime: string, vendorSource: string,
    sourceRows: Option<int>, bronzeRows: Option<int>, silverRows: Option<int>, rejectedRows: Option<int>,
    goldRows: Option<int>, status: Status, registeredAt: int, startedAt: Option<int>, finishedAt: Option<int>,
    errorMessage: Option<string>, errorStage: Option<string>)

  /** An event's type with its payload. */
  datatype Body =
    | FileRegistered(source: string, size: int, checksum: string)
    | VendorTimestampUnavailable(fsTime: string)
    | IngestStarted
    | IngestFinished(sourceRows: int, bronzeRows: int)
    | DqCompleted(rejectedRows: int)
    | SilverStarted
    | SilverFinished(silverRows: int)
    | GoldFinished(goldRows: int)
    | FileFailed(stage: string, error: string)
    | SchemaDrift(previous: string, current: string)
    | Reconciled(findings: nat, critical: nat, warn: nat)

  datatype Event = Event(batch: string, path: string, body: Body, at: int)

  /** `file_audit` and `file_audit_events`. */
  datatype Db = Db(rows: seq<AuditRow>, events: seq<Event>)

  const EMPTY := Db([], [])

  const MAX_MESSAGE: nat := 4000

  datatype Error = Conflict | NotRegistered | NoFiles | IllegalTransition | ForeignKeyViolation

  datatype Outcome = Done | Raised(error: Error)

  datatype Command =
    | RegisterFile(batch: string, source: string, fingerprint: Fingerprint)
    | MarkIngesting(batch: string, path: string)
    | RecordIngestion(batch: string, path: string, sourceRows: int, bronzeRows: int)
    | RecordQuarantine(batch: string, source: string, rejectedRows: int)
    | MarkTransforming(batch: string, source: string)
    | RecordSilver(batch: string, source: string, silverRows: int)
    | RecordGold(batch: string, source: string, goldRows: int)
    | MarkFailed(batch: string, path: string, stage: string, message: string)
    | RecordSchemaDrift(batch: string, path: string, previous: string, current: string)
    | RecordReconciled(batch: string, path: string, findings: nat, critical: nat, warn: nat)

  // ----- Queries and updates -----

  function AtFile(batch: string, path: string): AuditRow -> bool {
    (r: AuditRow) => r.batch == batch && r.path == path
  }

  function OfSource(batch: string, source: string): AuditRow -> bool {
    (r: AuditRow) => r.batch == batch && r.source == source
  }

  function Apply(where: AuditRow -> bool, set_: AuditRow -> AuditRow): AuditRow -> AuditRow {
    (r: AuditRow) => if where(r) then set_(r) else r
  }

  /** `UPDATE ... SET set_ WHERE where`. */
  function Update(rows: seq<AuditRow>, where: AuditRow -> bool, set_: AuditRow -> AuditRow): seq<AuditRow> {
    Map(rows, Apply(where, set_))
  }

  function EventFor(body: Body, now: int): AuditRow -> Event {
    (r: AuditRow) => Event(r.batch, r.path, body, now)
  }

  /** Update the matching rows and log one event for each. */
  function Write(db: Db, where: AuditRow -> bool, set_: AuditRow -> AuditRow, body: Body, now: int): Db {
    Db(Update(db.rows, where, set_), db.events + Map(Filter(db.rows, where), EventFor(body, now)))
  }

  function FindFile(rows: seq<AuditRow>, batch: string, path: string): Option<AuditRow> {
    var found := Filter(rows, AtFile(batch, path));
    if found == [] then None else Some(found[0])
  }

  /** `_LEGAL_TRANSITIONS`. */
  predicate Legal(from: Status, to: Status) {
    match from
    case Registered => to == Ingesting
    case Ingesting => to == Ingested
    case Ingested => to == Transforming
    case Transforming => to == Transformed
    case Transformed => false
    case Failed => false
  }

  /** Files that may not move to the target status. */
  function Blocked(to: Status): AuditRow -> bool {
    (r: AuditRow) => !Legal(r.status, to)
  }

  function NewRow(batch: string, source: string, fp: Fingerprint, now: int): AuditRow {
    AuditRow(
      batch, source, fp.path, fp.size, fp.checksum, fp.schemaHash, fp.vendorTime, fp.fsTime,
      if fp.vendorSource.Some? && fp.vendorSource.value != "" then fp.vendorSource.value else "filesystem_only",
      None, None, None, None, None, Registered, now, None, None, None, None)
  }

  function RegistrationEvents(batch: string, source: string, fp: Fingerprint, now: int): seq<Event> {
    [Event(batch, fp.path, FileRegistered(source, fp.size, fp.checksum), now)]
    + (if fp.vendorTime.None? then [Event(batch, fp.path, VendorTimestampUnavailable(fp.fsTime), now)] else [])
  }

  function SetIngesting(now: int): AuditRow -> AuditRow {
    (r: AuditRow) => r.(status := Ingesting, startedAt := Some(now))
  }

  function SetIngested(sourceRows: int, bronzeRows: int): AuditRow -> AuditRow {
    (r: AuditRow) => r.(status := Ingested, sourceRows := Some(sourceRows), bronzeRows := Some(bronzeRows))
  }

  function SetRejected(n: int): AuditRow -> AuditRow {
    (r: AuditRow) => r.(rejectedRows := Some(n))
  }

  function SetTransforming(): AuditRow -> AuditRow {
    (r: AuditRow) => r.(status := Transforming)
  }

  function SetTransformed(n: int, now: int): AuditRow -> AuditRow {
    (r: AuditRow) => r.(status := Transformed, silverRows := Some(n), finishedAt := Some(now))
  }

  function SetGold(n: int, now: int): AuditRow -> AuditRow {
    (r: AuditRow) => r.(goldRows := Some(n), finishedAt := Some(now))
  }

  function SetFailed(stage: string, message: string, now: int): AuditRow -> AuditRow {
    (r: AuditRow) => r.(
      status := Failed, errorMessage := Some(message), errorStage := Some(stage), finishedAt := Some(now))
  }

  function Truncate(message: string): string {
    if |message| <= MAX_MESSAGE then message else message[..MAX_MESSAGE]
  }

  /** A writer on one file: legality check, update, event. */
  function MoveFile(
      db: Db, batch: string, path: string, to: Status, set_: AuditRow -> AuditRow, body: Body, now: int): (Db, Outcome)
  {
    var row := FindFile(db.rows, batch, path);
    if row.None? then (db, Raised(NotRegistered))
    else if !Legal(row.value.status, to) then (db, Raised(IllegalTransition))
    else (Write(db, AtFile(batch, path), set_, body, now), Done)
  }

  /** A status writer on all files of a source: every file is checked before any moves. */
  function MoveSource(
      db: Db, batch: string, source: string, to: Status, set_: AuditRow -> AuditRow, body: Body, now: int)
    : (Db, Outcome)
  {
    var files := Filter(db.rows, OfSource(batch, source));
    if files == [] then (db, Raised(NoFiles))
    else if Filter(files, Blocked(to)) != [] then (db, Raised(IllegalTransition))
    else (Write(db, OfSource(batch, source), set_, body, now), Done)
  }

  /** A count writer on all files of a source: no status check. */
  function AnnotateSource(
      db: Db, batch: string, source: string, set_: AuditRow -> AuditRow, body: Body, now: int): (Db, Outcome)
  {
    if Filter(db.rows, OfSource(batch, source)) == [] then (db, Raised(NoFiles))
    else (Write(db, OfSource(batch, source), set_, body, now), Done)
  }

  /** A writer of one event: the foreign key refuses it when the file has no row. */
  function AppendEvent(db: Db, batch: string, path: string, body: Body, now: int): (Db, Outcome) {
    if FindFile(db.rows, batch, path).None? then (db, Raised(ForeignKeyViolation))
    else (db.(events := db.events + [Event(batch, path, body, now)]), Done)
  }

  /** What each writer does to the database, and whether it raises. */
  function Exec(db: Db, c: Command, now: int): (Db, Outcome) {
    match c
    case RegisterFile(batch, source, fp) =>
      var existing := FindFile(db.rows, batch, fp.path);
      if existing.None? then
        (Db(db.rows + [NewRow(batch, source, fp, now)], db.events + RegistrationEvents(batch, source, fp, now)), Done)
      else if existing.value.checksum == fp.checksum then (db, Done)
      else (db, Raised(Conflict))
    case MarkIngesting(batch, path) => MoveFile(db, batch, path, Ingesting, SetIngesting(now), IngestStarted, now)
    case RecordIngestion(batch, path, s, b) =>
      MoveFile(db, batch, path, Ingested, SetIngested(s, b), IngestFinished(s, b), now)
    case RecordQuarantine(batch, source, n) => AnnotateSource(db, batch, source, SetRejected(n), DqCompleted(n), now)
    case MarkTransforming(batch, source) =>
      MoveSource(db, batch, source, Transforming, SetTransforming(), SilverStarted, now)
    case RecordSilver(batch, source, n) =>
      MoveSource(db, batch, source, Transformed, SetTransformed(n, now), SilverFinished(n), now)
    case RecordGold(batch, source, n) => AnnotateSource(db, batch, source, SetGold(n, now), GoldFinished(n), now)
    case MarkFailed(batch, path, stage, message) =>
      // No status check; on an unregistered file the event violates the foreign key, and that is swallowed.
      var text := Truncate(message);
      (Write(db, AtFile(batch, path), SetFailed(stage, text, now), FileFailed(stage, text), now), Done)
    case RecordSchemaDrift(batch, path, previous, current) =>
      AppendEvent(db, batch, path, SchemaDrift(previous, current), now)
    case RecordReconciled(batch, path, n, critical, warn) =>
      AppendEvent(db, batch, path, Reconciled(n, critical, warn), now)
  }

  // ----- The fold -----

  /** The part of a row that the log determines. */
  datatype View = View(
    source: string, size: int, checksum: string, status: Status,
    sourceRows: Option<int>, bronzeRows: Option<int>, silverRows: Option<int>, rejectedRows: Option<int>,
    goldRows: Option<int>, errorMessage: Option<string>, errorStage: Option<string>)

  function ViewOf(r: AuditRow): View {
    View(r.source, r.size, r.checksum, r.status, r.sourceRows, r.bronzeRows, r.silverRows, r.rejectedRows,
      r.goldRows, r.errorMessage, r.errorStage)
  }

  /** The effect of one event on a file's view. */
  function Replay(view: Option<View>, body: Body): Option<View> {
    if body.FileRegistered? then
      Some(View(body.source, body.size, body.checksum, Registered, None, None, None, None, None, None, None))
    else if view.None? then None
    else
      var v := view.value;
      Some(match body
        case IngestStarted => v.(status := Ingesting)
        case IngestFinished(s, b) => v.(status := Ingested, sourceRows := Some(s), bronzeRows := Some(b))
        case DqCompleted(n) => v.(rejectedRows := Some(n))
        case SilverStarted => v.(status := Transforming)
        case SilverFinished(n) => v.(status := Transformed, silverRows := Some(n))
        case GoldFinished(n) => v.(goldRows := Some(n))
        case FileFailed(stage, error) => v.(status := Failed, errorMessage := Some(error), errorStage := Some(stage))
        case _ => v)
  }

  function ForFile(batch: string, path: string): Event -> bool {
    (e: Event) => e.batch == batch && e.path == path
  }

  /** One file's timeline. */
  function Timeline(events: seq<Event>, batch: string, path: string): seq<Event> {
    Filter(events, ForFile(batch, path))
  }

  function Fold(timeline: seq<Event>): Option<View> {
    if timeline == [] then None
    else Replay(Fold(timeline[..|timeline| - 1]), timeline[|timeline| - 1].body)
  }

  // ----- The lifecycle -----

  const LIFECYCLE: seq<Status> := [Registered, Ingesting, Ingested, Transforming, Transformed]

  /** The status an event moves its file to, if it is a status event. */
  function Target(body: Body): Option<Status> {
    match body
    case FileRegistered(_, _, _) => Some(Registered)
    case IngestStarted => Some(Ingesting)
    case IngestFinished(_, _) => Some(Ingested)
    case SilverStarted => Some(Transforming)
    case SilverFinished(_) => Some(Transformed)
    case FileFailed(_, _) => Some(Failed)
    case _ => None
  }

  /** The statuses a timeline runs through. */
  function Statuses(timeline: seq<Event>): seq<Status> {
    if timeline == [] then []
    else
      var n := |timeline| - 1;
      var to := Target(timeline[n].body);
      Statuses(timeline[..n]) + (if to.Some? then [to.value] else [])
  }

  /** A non-empty prefix of the lifecycle, then only failures; the last status is the row's. */
  ghost predicate FollowsLifecycle(statuses: seq<Status>, status: Status) {
    && statuses != [] && statuses[|statuses| - 1] == status
    && exists n :: PrefixThenFailures(statuses, n)
  }

  predicate PrefixThenFailures(statuses: seq<Status>, n: int) {
    && 1 <= n <= |LIFECYCLE| && n <= |statuses|
    && statuses[..n] == LIFECYCLE[..n]
    && forall i :: n <= i < |statuses| ==> statuses[i] == Failed
  }

  predicate Succeeding(s: Status) {
    s.Ingested? || s.Transforming? || s.Transformed?
  }

  /** Counts arrive in order: ingested files have source and bronze counts, and silver counts come later. */
  predicate CountsInOrder(r: AuditRow) {
    && (Succeeding(r.status) ==> r.sourceRows.Some? && r.bronzeRows.Some?)
    && (r.silverRows.Some? ==> r.sourceRows.Some? && r.bronzeRows.Some?)
  }

  // ----- The invariant -----

  function KeyOf(): AuditRow -> (string, string) {
    (r: AuditRow) => (r.batch, r.path)
  }

  /** A row is what its timeline says. */
  ghost predicate Explained(events: seq<Event>, r: AuditRow) {
    var timeline := Timeline(events, r.batch, r.path);
    && Fold(timeline) == Some(ViewOf(r))
    && FollowsLifecycle(Statuses(timeline), r.status)
    && CountsInOrder(r)
  }

  ghost predicate HasRow(rows: seq<AuditRow>, batch: string, path: string) {
    exists r :: r in rows && r.batch == batch && r.path == path
  }

  ghost predicate Consistent(db: Db) {
    && Distinct(Map(db.rows, KeyOf()))
    && (forall r :: r in db.rows ==> Explained(db.events, r))
    && (forall e :: e in db.events ==> HasRow(db.rows, e.batch, e.path))
  }

  /** With distinct keys a row is the only one at its file. */
  lemma OnlyRowAtFile(rows: seq<AuditRow>, r: AuditRow)
    requires Distinct(Map(rows, KeyOf())) && r in rows
    ensures Filter(rows, AtFile(r.batch, r.path)) == [r]
    ensures FindFile(rows, r.batch, r.path) == Some(r)
  {
    hide Filter;
    var i :| 0 <= i < |rows| && rows[i] == r;
    var keys := Map(rows, KeyOf());
    forall j | 0 <= j < |rows| && j != i ensures !AtFile(r.batch, r.path)(rows[j]) {
      assert keys[i] != keys[j];
    }
    FilterOne(rows, AtFile(r.batch, r.path), i);
  }

  /** The events a write adds to one file's timeline: one if the row matched, none otherwise. */
  lemma NewEventsOfRow(
      rows: seq<AuditRow>, where: AuditRow -> bool, body: Body, now: int, r: AuditRow)
    requires Distinct(Map(rows, KeyOf())) && r in rows
    ensures Timeline(Map(Filter(rows, where), EventFor(body, now)), r.batch, r.path) ==
      if where(r) then [EventFor(body, now)(r)] else []
  {
    hide Filter;
    var p := AtFile(r.batch, r.path);
    FilterMap(Filter(rows, where), EventFor(body, now), ForFile(r.batch, r.path), p);
    FilterCommute(rows, where, p);
    OnlyRowAtFile(rows, r);
    FilterSnoc([], r, where);
    assert [] + [r] == [r];
    assert Filter([], where) == [] by { FilterNone([], where); }
  }

  lemma TimelineConcat(events: seq<Event>, more: seq<Event>, batch: string, path: string)
    ensures Timeline(events + more, batch, path) == Timeline(events, batch, path) + Timeline(more, batch, path)
  {
    FilterConcat(events, more, ForFile(batch, path));
  }

  /** What a writer must respect for its event to explain its update. */
  ghost predicate Faithful(r: AuditRow, r': AuditRow, body: Body) {
    && r'.batch == r.batch && r'.path == r.path
    && Replay(Some(ViewOf(r)), body) == Some(ViewOf(r'))
    && (Target(body).None? ==> r'.status == r.status)
    && (Target(body).Some? ==> Target(body).value == r'.status && (Legal(r.status, r'.status) || r'.status == Failed))
    && (CountsInOrder(r) ==> CountsInOrder(r'))
  }

  lemma StatusesSnoc(timeline: seq<Event>, e: Event)
    ensures
      var to := Target(e.body);
      Statuses(timeline + [e]) == Statuses(timeline) + (if to.Some? then [to.value] else [])
    ensures Fold(timeline + [e]) == Replay(Fold(timeline), e.body)
  {
    assert (timeline + [e])[..|timeline|] == timeline;
  }

  lemma LifecycleStep(statuses: seq<Status>, status: Status, to: Status)
    requires FollowsLifecycle(statuses, status)
    requires Legal(status, to) || to == Failed
    ensures FollowsLifecycle(statuses + [to], to)
  {
    var n :| PrefixThenFailures(statuses, n);
    if to == Failed {
      assert (statuses + [to])[..n] == statuses[..n];
      assert PrefixThenFailures(statuses + [to], n);
    } else {
      assert n == |statuses|;
      assert statuses == LIFECYCLE[..n] && status == LIFECYCLE[n - 1];
      assert to == LIFECYCLE[n];
      assert (statuses + [to])[..n + 1] == LIFECYCLE[..n] + [to] == LIFECYCLE[..n + 1];
      assert PrefixThenFailures(statuses + [to], n + 1);
    }
  }

  lemma ExplainedStep(events: seq<Event>, more: seq<Event>, r: AuditRow, r': AuditRow, body: Body, now: int)
    requires Explained(events, r) && Faithful(r, r', body)
    requires Timeline(more, r.batch, r.path) == [Event(r.batch, r.path, body, now)]
    ensures Explained(events + more, r')
  {
    hide Timeline, FollowsLifecycle;
    TimelineConcat(events, more, r.batch, r.path);
    var timeline := Timeline(events, r.batch, r.path);
    StatusesSnoc(timeline, Event(r.batch, r.path, body, now));
    if Target(body).Some? {
      LifecycleStep(Statuses(timeline), r.status, r'.status);
    } else {
      assert Statuses(timeline) + [] == Statuses(timeline);
    }
  }

  lemma ExplainedUnaffected(events: seq<Event>, more: seq<Event>, r: AuditRow)
    requires Explained(events, r)
    requires Timeline(more, r.batch, r.path) == []
    ensures Explained(events + more, r)
  {
    hide Timeline, FollowsLifecycle;
    TimelineConcat(events, more, r.batch, r.path);
    assert Timeline(events, r.batch, r.path) + [] == Timeline(events, r.batch, r.path);
  }

  /** Any faithful write keeps table and log consistent. */
  lemma WriteKeepsConsistent(
      db: Db, where: AuditRow -> bool, set_: AuditRow -> AuditRow, body: Body, now: int)
    requires Consistent(db)
    requires forall r :: r in db.rows && where(r) ==> Faithful(r, set_(r), body)
    ensures Consistent(Write(db, where, set_, body, now))
  {
    hide Filter, Explained, Timeline;
    var db' := Write(db, where, set_, body, now);
    var more := Map(Filter(db.rows, where), EventFor(body, now));
    FilterIn(db.rows, where);
    assert Map(db'.rows, KeyOf()) == Map(db.rows, KeyOf()) by {
      forall i | 0 <= i < |db.rows| ensures KeyOf()(db'.rows[i]) == KeyOf()(db.rows[i]) {
        assert db.rows[i] in db.rows;
      }
    }
    forall r' | r' in db'.rows ensures Explained(db'.events, r') {
      var i :| 0 <= i < |db'.rows| && db'.rows[i] == r';
      var r := db.rows[i];
      assert r in db.rows;
      NewEventsOfRow(db.rows, where, body, now, r);
      if where(r) {
        ExplainedStep(db.events, more, r, r', body, now);
      } else {
        ExplainedUnaffected(db.events, more, r);
      }
    }
    forall e | e in db'.events ensures HasRow(db'.rows, e.batch, e.path) {
      if e in db.events {
        assert HasRow(db.rows, e.batch, e.path);
      } else {
        var k :| 0 <= k < |more| && more[k] == e;
        assert Filter(db.rows, where)[k] in db.rows;
      }
      var r :| r in db.rows && r.batch == e.batch && r.path == e.path;
      var i :| 0 <= i < |db.rows| && db.rows[i] == r;
      assert db'.rows[i] in db'.rows;
    }
  }

  lemma RegistrationExplained(batch: string, source: string, fp: Fingerprint, now: int)
    ensures Explained(RegistrationEvents(batch, source, fp, now), NewRow(batch, source, fp, now))
  {
    hide Filter, Fold, Statuses;
    var events := RegistrationEvents(batch, source, fp, now);
    FilterAll(events, ForFile(batch, fp.path));
    RegistrationFolds(batch, source, fp, now);
    assert PrefixThenFailures([Registered], 1);
  }

  lemma RegistrationFolds(batch: string, source: string, fp: Fingerprint, now: int)
    ensures
      var events := RegistrationEvents(batch, source, fp, now);
      Fold(events) == Some(ViewOf(NewRow(batch, source, fp, now))) && Statuses(events) == [Registered]
  {
    var events := RegistrationEvents(batch, source, fp, now);
    var first := [events[0]];
    assert first[..0] == [];
    assert Fold(first) == Replay(Fold([]), events[0].body);
    assert Statuses(first) == Statuses([]) + [Registered];
    if |events| == 2 {
      assert events[..1] == first;
    } else {
      assert events == first;
    }
  }

  lemma RegisterKeepsConsistent(db: Db, batch: string, source: string, fp: Fingerprint, now: int)
    requires Consistent(db)
    requires FindFile(db.rows, batch, fp.path).None?
    ensures
      Consistent(Db(db.rows + [NewRow(batch, source, fp, now)], db.events + RegistrationEvents(batch, source, fp, now)))
  {
    hide Filter, Explained, NewRow;
    var row := NewRow(batch, source, fp, now);
    assert row.batch == batch && row.path == fp.path by { NewRowKey(batch, source, fp, now); }
    var more := RegistrationEvents(batch, source, fp, now);
    FilterIn(db.rows, AtFile(batch, fp.path));
    var found := Filter(db.rows, AtFile(batch, fp.path));
    assert found == [];
    assert forall r :: r in db.rows ==> !AtFile(batch, fp.path)(r);
    var keys := Map(db.rows, KeyOf());
    assert Map(db.rows + [row], KeyOf()) == keys + [(batch, fp.path)];
    forall r | r in db.rows ensures Explained(db.events + more, r) {
      FilterNone(more, ForFile(r.batch, r.path));
      ExplainedUnaffected(db.events, more, r);
    }
    NoTimeline(db, batch, fp.path);
    RegistrationExplained(batch, source, fp, now);
    TimelineConcat(db.events, more, batch, fp.path);
    assert [] + Timeline(more, batch, fp.path) == Timeline(more, batch, fp.path);
    assert Explained(db.events + more, row) by { SameTimeline(db.events + more, more, row); }
    forall e | e in db.events + more ensures HasRow(db.rows + [row], e.batch, e.path) {
      if e in db.events {
        var r :| r in db.rows && r.batch == e.batch && r.path == e.path;
        assert r in db.rows + [row];
      } else {
        assert e in more && row in db.rows + [row];
      }
    }
  }

  lemma NewRowKey(batch: string, source: string, fp: Fingerprint, now: int)
    ensures NewRow(batch, source, fp, now).batch == batch && NewRow(batch, source, fp, now).path == fp.path
  {
  }

  lemma SameTimeline(a: seq<Event>, b: seq<Event>, r: AuditRow)
    requires Explained(b, r) && Timeline(a, r.batch, r.path) == Timeline(b, r.batch, r.path)
    ensures Explained(a, r)
  {
  }

  lemma NoTimeline(db: Db, batch: string, path: string)
    requires Consistent(db) && !HasRow(db.rows, batch, path)
    ensures Timeline(db.events, batch, path) == []
  {
    FilterNone(db.events, ForFile(batch, path));
  }

  /** The calls that select one file, those that select all files of a source, and those that only append. */
  predicate OnFile(c: Command) {
    c.MarkIngesting? || c.RecordIngestion? || c.MarkFailed?
  }

  predicate OnSource(c: Command) {
    c.RecordQuarantine? || c.MarkTransforming? || c.RecordSilver? || c.RecordGold?
  }

  lemma FileCallConsistent(db: Db, c: Command, now: int)
    requires Consistent(db) && OnFile(c)
    ensures Consistent(Exec(db, c, now).0)
  {
    hide Consistent, MoveFile, Write, FindFile;
    match c
    case MarkIngesting(batch, path) =>
      MoveFileConsistent(db, batch, path, Ingesting, SetIngesting(now), IngestStarted, now);
    case RecordIngestion(batch, path, s, b) =>
      MoveFileConsistent(db, batch, path, Ingested, SetIngested(s, b), IngestFinished(s, b), now);
    case MarkFailed(batch, path, stage, message) =>
      var text := Truncate(message);
      WriteKeepsConsistent(db, AtFile(batch, path), SetFailed(stage, text, now), FileFailed(stage, text), now);
  }

  lemma SourceCallConsistent(db: Db, c: Command, now: int)
    requires Consistent(db) && OnSource(c)
    ensures Consistent(Exec(db, c, now).0)
  {
    hide Consistent, MoveSource, Write, Filter;
    match c
    case RecordQuarantine(batch, source, n) =>
      WriteKeepsConsistent(db, OfSource(batch, source), SetRejected(n), DqCompleted(n), now);
    case MarkTransforming(batch, source) =>
      MoveSourceConsistent(db, batch, source, Transforming, SetTransforming(), SilverStarted, now);
    case RecordSilver(batch, source, n) =>
      MoveSourceConsistent(db, batch, source, Transformed, SetTransformed(n, now), SilverFinished(n), now);
    case RecordGold(batch, source, n) =>
      WriteKeepsConsistent(db, OfSource(batch, source), SetGold(n, now), GoldFinished(n), now);
  }

  lemma AppendCallConsistent(db: Db, c: Command, now: int)
    requires Consistent(db) && !OnFile(c) && !OnSource(c)
    ensures Consistent(Exec(db, c, now).0)
  {
    hide Consistent, FindFile;
    match c
    case RegisterFile(batch, source, fp) =>
      if FindFile(db.rows, batch, fp.path).None? {
        RegisterKeepsConsistent(db, batch, source, fp, now);
      }
    case RecordSchemaDrift(batch, path, previous, current) =>
      if FindFile(db.rows, batch, path).Some? {
        DriftConsistent(db, batch, path, SchemaDrift(previous, current), now);
      }
    case RecordReconciled(batch, path, n, critical, warn) =>
      if FindFile(db.rows, batch, path).Some? {
        DriftConsistent(db, batch, path, Reconciled(n, critical, warn), now);
      }
  }

  /** Every writer, on every input, keeps table and log consistent. */
  lemma ExecKeepsConsistent(db: Db, c: Command, now: int)
    requires Consistent(db)
    ensures Consistent(Exec(db, c, now).0)
  {
    hide Consistent, Exec;
    if OnFile(c) {
      FileCallConsistent(db, c, now);
    } else if OnSource(c) {
      SourceCallConsistent(db, c, now);
    } else {
      AppendCallConsistent(db, c, now);
    }
  }

  lemma MoveFileConsistent(
      db: Db, batch: string, path: string, to: Status, set_: AuditRow -> AuditRow, body: Body, now: int)
    requires Consistent(db)
    requires forall r: AuditRow :: Legal(r.status, to) ==> Faithful(r, set_(r), body)
    ensures Consistent(MoveFile(db, batch, path, to, set_, body, now).0)
  {
    hide Filter, Faithful, Explained;
    FilterIn(db.rows, AtFile(batch, path));
    var row := FindFile(db.rows, batch, path);
    if row.Some? && Legal(row.value.status, to) {
      forall r | r in db.rows && AtFile(batch, path)(r) ensures Faithful(r, set_(r), body) {
        OnlyRowAtFile(db.rows, r);
      }
      WriteKeepsConsistent(db, AtFile(batch, path), set_, body, now);
    }
  }

  lemma MoveSourceConsistent(
      db: Db, batch: string, source: string, to: Status, set_: AuditRow -> AuditRow, body: Body, now: int)
    requires Consistent(db)
    requires forall r: AuditRow :: Legal(r.status, to) ==> Faithful(r, set_(r), body)
    ensures Consistent(MoveSource(db, batch, source, to, set_, body, now).0)
  {
    hide Filter, Faithful, Consistent;
    var files := Filter(db.rows, OfSource(batch, source));
    FilterIn(db.rows, OfSource(batch, source));
    FilterIn(files, Blocked(to));
    if Filter(files, Blocked(to)) == [] {
      forall r | r in db.rows && OfSource(batch, source)(r) ensures Faithful(r, set_(r), body) {
        assert r in files && r !in Filter(files, Blocked(to));
      }
      WriteKeepsConsistent(db, OfSource(batch, source), set_, body, now);
    }
  }

  /** An event that is no status event and changes no count leaves every row explained. */
  lemma DriftConsistent(db: Db, batch: string, path: string, body: Body, now: int)
    requires Consistent(db)
    requires FindFile(db.rows, batch, path).Some?
    requires body.SchemaDrift? || body.Reconciled?
    ensures Consistent(db.(events := db.events + [Event(batch, path, body, now)]))
  {
    hide Explained, Filter;
    var more := [Event(batch, path, body, now)];
    FilterIn(db.rows, AtFile(batch, path));
    var file := FindFile(db.rows, batch, path).value;
    assert file in Filter(db.rows, AtFile(batch, path));
    assert HasRow(db.rows, batch, path);
    forall r | r in db.rows ensures Explained(db.events + more, r) {
      if r.batch == batch && r.path == path {
        FilterAll(more, ForFile(batch, path));
        ExplainedStep(db.events, more, r, r, body, now);
      } else {
        FilterNone(more, ForFile(r.batch, r.path));
        ExplainedUnaffected(db.events, more, r);
      }
    }
  }

  // ----- Runs -----

  /** A writer call with the clock reading it used. */
  datatype Call = Call(command: Command, now: int)

  /** The calls one after the other. */
  function ExecAll(db: Db, calls: seq<Call>): Db {
    if calls == [] then db
    else
      var last := calls[|calls| - 1];
      Exec(ExecAll(db, calls[..|calls| - 1]), last.command, last.now).0
  }

  function RunCalls(calls: seq<Call>): Db {
    ExecAll(EMPTY, calls)
  }

  /** Calls made on a reached state are part of a longer run. */
  lemma {:induction false} RunContinues(calls: seq<Call>, more: seq<Call>)
    ensures RunCalls(calls + more) == ExecAll(RunCalls(calls), more)
  {
    hide Exec;
    if more == [] {
      assert calls + more == calls;
    } else {
      var n := |more| - 1;
      RunContinues(calls, more[..n]);
      var all := calls + more;
      assert all[..|all| - 1] == calls + more[..n] && all[|all| - 1] == more[n];
    }
  }

  /**
   * In every reachable state the table is the fold of the log, each file's events follow the lifecycle,
   * and no event lacks a row.
   */
  lemma {:induction false} EveryRunIsConsistent(calls: seq<Call>)
    ensures Consistent(RunCalls(calls))
  {
    hide Exec;
    if calls == [] {
      assert RunCalls(calls) == EMPTY;
    } else {
      var n := |calls| - 1;
      EveryRunIsConsistent(calls[..n]);
      ExecKeepsConsistent(RunCalls(calls[..n]), calls[n].command, calls[n].now);
    }
  }

  function Rank(s: Status): nat {
    match s
    case Registered => 0
    case Ingesting => 1
    case Ingested => 2
    case Transforming => 3
    case Transformed => 4
    case Failed => 5
  }

  /** Identity, checksum and registration stamp are fixed, and the status only moves forward. */
  predicate Advances(r: AuditRow, r': AuditRow) {
    && r'.batch == r.batch && r'.path == r.path && r'.source == r.source
    && r'.checksum == r.checksum && r'.registeredAt == r.registeredAt
    && Rank(r.status) <= Rank(r'.status)
  }

  /** Rows keep their place and advance, and the log only grows. */
  ghost predicate Grows(db: Db, db': Db) {
    && |db.rows| <= |db'.rows|
    && (forall i :: 0 <= i < |db.rows| ==> Advances(db.rows[i], db'.rows[i]))
    && db.events <= db'.events
  }

  lemma FileCallGrows(db: Db, c: Command, now: int)
    requires Distinct(Map(db.rows, KeyOf())) && OnFile(c)
    ensures Grows(db, Exec(db, c, now).0)
    ensures Exec(db, c, now).1.Raised? ==> Exec(db, c, now).0 == db
  {
    hide Filter, FindFile, Write, Grows;
    NothingGrows(db);
    FileAdvances(db, c.batch, c.path);
    match c
    case MarkIngesting(batch, path) =>
      WriteGrows(db, AtFile(batch, path), SetIngesting(now), IngestStarted, now);
    case RecordIngestion(batch, path, s, b) =>
      WriteGrows(db, AtFile(batch, path), SetIngested(s, b), IngestFinished(s, b), now);
    case MarkFailed(batch, path, stage, message) =>
      WriteGrows(db, AtFile(batch, path), SetFailed(stage, Truncate(message), now),
        FileFailed(stage, Truncate(message)), now);
  }

  lemma SourceCallGrows(db: Db, c: Command, now: int)
    requires OnSource(c)
    ensures Grows(db, Exec(db, c, now).0)
    ensures Exec(db, c, now).1.Raised? ==> Exec(db, c, now).0 == db
  {
    hide Filter, Write, Grows;
    NothingGrows(db);
    match c
    case RecordQuarantine(batch, source, n) =>
      WriteGrows(db, OfSource(batch, source), SetRejected(n), DqCompleted(n), now);
    case MarkTransforming(batch, source) =>
      SourceUnblocked(db, batch, source, Transforming);
      WriteGrows(db, OfSource(batch, source), SetTransforming(), SilverStarted, now);
    case RecordSilver(batch, source, n) =>
      SourceUnblocked(db, batch, source, Transformed);
      WriteGrows(db, OfSource(batch, source), SetTransformed(n, now), SilverFinished(n), now);
    case RecordGold(batch, source, n) =>
      WriteGrows(db, OfSource(batch, source), SetGold(n, now), GoldFinished(n), now);
  }

  lemma AppendCallGrows(db: Db, c: Command, now: int)
    requires !OnFile(c) && !OnSource(c)
    ensures Grows(db, Exec(db, c, now).0)
    ensures Exec(db, c, now).1.Raised? ==> Exec(db, c, now).0 == db
  {
    hide Grows, FindFile;
    NothingGrows(db);
    assert db.rows + [] == db.rows;
    match c
    case RegisterFile(batch, source, fp) =>
      AppendGrows(db, [NewRow(batch, source, fp, now)], RegistrationEvents(batch, source, fp, now));
    case RecordSchemaDrift(batch, path, previous, current) =>
      AppendGrows(db, [], [Event(batch, path, SchemaDrift(previous, current), now)]);
    case RecordReconciled(batch, path, n, critical, warn) =>
      AppendGrows(db, [], [Event(batch, path, Reconciled(n, critical, warn), now)]);
  }

  /** One writer call never moves a file back, forgets a row, or edits the log; if it raises, it changes nothing. */
  lemma ExecGrows(db: Db, c: Command, now: int)
    requires Distinct(Map(db.rows, KeyOf()))
    ensures Grows(db, Exec(db, c, now).0)
    ensures Exec(db, c, now).1.Raised? ==> Exec(db, c, now).0 == db
  {
    hide Grows, Exec;
    if OnFile(c) {
      FileCallGrows(db, c, now);
    } else if OnSource(c) {
      SourceCallGrows(db, c, now);
    } else {
      AppendCallGrows(db, c, now);
    }
  }

  lemma NothingGrows(db: Db)
    ensures Grows(db, db)
  {
  }

  lemma AppendGrows(db: Db, rows: seq<AuditRow>, events: seq<Event>)
    ensures Grows(db, Db(db.rows + rows, db.events + events))
  {
  }

  lemma WriteGrows(db: Db, where: AuditRow -> bool, set_: AuditRow -> AuditRow, body: Body, now: int)
    ensures (forall r :: r in db.rows && where(r) ==> Advances(r, set_(r))) ==>
      Grows(db, Write(db, where, set_, body, now))
  {
    hide Filter;
  }

  lemma FileAdvances(db: Db, batch: string, path: string)
    requires Distinct(Map(db.rows, KeyOf()))
    ensures forall r :: r in db.rows && AtFile(batch, path)(r) ==> FindFile(db.rows, batch, path) == Some(r)
  {
    hide Filter;
    forall r | r in db.rows && AtFile(batch, path)(r) ensures FindFile(db.rows, batch, path) == Some(r) {
      OnlyRowAtFile(db.rows, r);
    }
  }

  lemma SourceUnblocked(db: Db, batch: string, source: string, to: Status)
    ensures
      var files := Filter(db.rows, OfSource(batch, source));
      Filter(files, Blocked(to)) == [] <==>
        forall r :: r in db.rows && OfSource(batch, source)(r) ==> Legal(r.status, to)
  {
    hide Filter;
    var files := Filter(db.rows, OfSource(batch, source));
    var blocked := Filter(files, Blocked(to));
    FilterIn(db.rows, OfSource(batch, source));
    FilterIn(files, Blocked(to));
    if blocked != [] {
      assert blocked[0] in blocked;
    } else {
      forall r | r in db.rows && OfSource(batch, source)(r) ensures Legal(r.status, to) {
        assert r in files && r !in blocked;
      }
    }
  }

  lemma GrowsTransitive(a: Db, b: Db, c: Db)
    requires Grows(a, b) && Grows(b, c)
    ensures Grows(a, c)
  {
    forall i | 0 <= i < |a.rows| ensures Advances(a.rows[i], c.rows[i]) {
      assert Advances(a.rows[i], b.rows[i]) && Advances(b.rows[i], c.rows[i]);
    }
  }

  lemma ConsistentKeys(db: Db)
    requires Consistent(db)
    ensures Distinct(Map(db.rows, KeyOf()))
  {
  }

  lemma ExecStep(db: Db, c: Command, now: int)
    requires Consistent(db)
    ensures Consistent(Exec(db, c, now).0) && Grows(db, Exec(db, c, now).0)
  {
    hide Exec, Grows;
    ExecKeepsConsistent(db, c, now);
    ExecGrows(db, c, now);
  }

  /**
   * Between any two points of a run: every file keeps its row, its identity and its checksum, its status
   * never falls, and what the log held it still holds.
   */
  lemma {:induction false} RunGrows(calls: seq<Call>, more: seq<Call>)
    ensures Grows(RunCalls(calls), RunCalls(calls + more))
  {
    hide Exec, Grows, Consistent;
    if more == [] {
      assert calls + more == calls;
      NothingGrows(RunCalls(calls));
    } else {
      var n := |more| - 1;
      var before := calls + more[..n];
      assert (calls + more)[..|calls + more| - 1] == before;
      RunGrows(calls, more[..n]);
      EveryRunIsConsistent(before);
      ExecStep(RunCalls(before), more[n].command, more[n].now);
      GrowsTransitive(RunCalls(calls), RunCalls(before), RunCalls(calls + more));
    }
  }

  /** `mark_transforming` moves all of a source's files, or raises and moves none. */
  lemma TransformingIsAllOrNothing(db: Db, batch: string, source: string, now: int)
    ensures
      var (db', outcome) := Exec(db, MarkTransforming(batch, source), now);
      var some := exists r :: r in db.rows && OfSource(batch, source)(r);
      && (outcome == Done <==> some && forall r :: r in db.rows && OfSource(batch, source)(r) ==> r.status == Ingested)
      && (outcome == Done ==> forall r :: r in db'.rows && OfSource(batch, source)(r) ==> r.status == Transforming)
      && (outcome != Done ==> db' == db)
  {
    hide Filter;
    var files := Filter(db.rows, OfSource(batch, source));
    SourceUnblocked(db, batch, source, Transforming);
    FilterIn(db.rows, OfSource(batch, source));
    if files != [] {
      assert files[0] in files;
    }
  }

  /** `mark_failed` also fails files that are already transformed: the code has no guard for it. */
  lemma FailedFromAnyStatus(db: Db, r: AuditRow, stage: string, message: string, now: int)
    requires Distinct(Map(db.rows, KeyOf())) && r in db.rows
    ensures
      var (db', outcome) := Exec(db, MarkFailed(r.batch, r.path, stage, message), now);
      && outcome == Done
      && FindFile(db'.rows, r.batch, r.path) == Some(SetFailed(stage, Truncate(message), now)(r))
      && |db'.events| == |db.events| + 1
  {
    hide Filter;
    var set_ := SetFailed(stage, Truncate(message), now);
    var p := AtFile(r.batch, r.path);
    OnlyRowAtFile(db.rows, r);
    FilterMap(db.rows, Apply(p, set_), p, p);
  }

  /** On a file that was never registered `mark_failed` leaves the database as it was. */
  lemma FailingUnregisteredDoesNothing(db: Db, batch: string, path: string, stage: string, message: string, now: int)
    requires FindFile(db.rows, batch, path).None?
    ensures Exec(db, MarkFailed(batch, path, stage, message), now) == (db, Done)
  {
    FilterIn(db.rows, AtFile(batch, path));
    var text := Truncate(message);
    hide Filter;
    assert Filter(db.rows, AtFile(batch, path)) == [];
    assert Update(db.rows, AtFile(batch, path), SetFailed(stage, text, now)) == db.rows;
    assert db.events + [] == db.events;
  }
}
