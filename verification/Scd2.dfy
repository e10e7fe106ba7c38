/**
 * The SCD Type 2 merge. `Merge` follows the code join by join; `Scd2Merge` is the code with its
 * initial-load path and growing list of parts; `MergeByCategory` is the definition a reader has in
 * mind, row by row, and `JoinsImplementCategories` connects the two.
 */
module Scd2 {
  import opened Wrappers
  import opened Sequences
  import opened Ordering
  import opened Frames
  import opened Hashing

  /** A calendar day, written as its date key YYYYMMDD. Module Calendar relates it to ISO text. */
  type Day = int

  const FAR_FUTURE: Day := 99991231

  /** One row of the dimension: the source attributes and the SCD2 bookkeeping columns. */
  datatype Version = Version(sk: int, row: Row, eff: Day, end: Day, current: bool)

  datatype MergeSpec = MergeSpec(naturalKey: seq<string>, tracked: seq<string>, hash: HashSpec)

  datatype Stats = Stats(added: nat, changed: nat, same: nat, historical: nat, total: nat)

  datatype MergeError =
    | EmptyNaturalKey
    | EmptyTrackedColumns
    | MissingNaturalKey(columns: seq<string>)
    | MissingTracked(columns: seq<string>)

  function KeyOf(spec: MergeSpec, r: Row): seq<Value> {
    Project(spec.naturalKey, r)
  }

  function VersionKeyOf(spec: MergeSpec): Version -> seq<Value> {
    (v: Version) => KeyOf(spec, v.row)
  }

  function HashOf(spec: MergeSpec, r: Row): string {
    RowHash(spec.hash, Project(spec.tracked, r))
  }

  function SkOf(): Version -> int {
    (v: Version) => v.sk
  }

  function IsCurrent(): Version -> bool {
    (v: Version) => v.current
  }

  function Current(dim: seq<Version>): seq<Version> {
    Filter(dim, IsCurrent())
  }

  // ----- The joins of the code -----

  function SkIn(sks: seq<int>): Version -> bool {
    (v: Version) => v.sk in sks
  }

  function SkNotIn(sks: seq<int>): Version -> bool {
    (v: Version) => v.sk !in sks
  }

  function KeyNotIn(spec: MergeSpec, keys: seq<seq<Value>>): Row -> bool {
    (r: Row) => KeyOf(spec, r) !in keys
  }

  function HasKey(spec: MergeSpec, k: seq<Value>): Version -> bool {
    (v: Version) => KeyOf(spec, v.row) == k
  }

  function PairWith(r: Row): Version -> (Row, Version) {
    (v: Version) => (r, v)
  }

  /** Inner join on the natural key: left order, and right order within one left row. */
  function InnerJoin(spec: MergeSpec, rows: seq<Row>, versions: seq<Version>): seq<(Row, Version)> {
    if rows == [] then []
    else
      var r := rows[|rows| - 1];
      InnerJoin(spec, rows[..|rows| - 1], versions) + Map(Filter(versions, HasKey(spec, KeyOf(spec, r))), PairWith(r))
  }

  function HashesDiffer(spec: MergeSpec): ((Row, Version)) -> bool {
    (p: (Row, Version)) => HashOf(spec, p.0) != HashOf(spec, p.1.row)
  }

  function HashesEqual(spec: MergeSpec): ((Row, Version)) -> bool {
    (p: (Row, Version)) => HashOf(spec, p.0) == HashOf(spec, p.1.row)
  }

  function Left(): ((Row, Version)) -> Row {
    (p: (Row, Version)) => p.0
  }

  function RightSk(): ((Row, Version)) -> int {
    (p: (Row, Version)) => p.1.sk
  }

  function CloseAt(ts: Day): Version -> Version {
    (v: Version) => v.(end := ts, current := false)
  }

  function Historical(dim: seq<Version>): seq<Version> {
    Filter(dim, SkNotIn(Map(Current(dim), SkOf())))
  }

  function NewRows(spec: MergeSpec, dim: seq<Version>, rows: seq<Row>): seq<Row> {
    Filter(rows, KeyNotIn(spec, Map(Current(dim), VersionKeyOf(spec))))
  }

  function ChangedPairs(spec: MergeSpec, dim: seq<Version>, rows: seq<Row>): seq<(Row, Version)> {
    Filter(InnerJoin(spec, rows, Current(dim)), HashesDiffer(spec))
  }

  function UnchangedPairs(spec: MergeSpec, dim: seq<Version>, rows: seq<Row>): seq<(Row, Version)> {
    Filter(InnerJoin(spec, rows, Current(dim)), HashesEqual(spec))
  }

  function Unchanged(spec: MergeSpec, dim: seq<Version>, rows: seq<Row>): seq<Version> {
    Filter(Current(dim), SkIn(Map(UnchangedPairs(spec, dim, rows), RightSk())))
  }

  function ClosedOut(spec: MergeSpec, dim: seq<Version>, rows: seq<Row>, ts: Day): seq<Version> {
    Map(Filter(Current(dim), SkIn(Map(ChangedPairs(spec, dim, rows), RightSk()))), CloseAt(ts))
  }

  /** `_next_surrogate_key`: the largest surrogate key plus one. */
  function NextSk(dim: seq<Version>): (sk: int)
    ensures forall v :: v in dim ==> v.sk < sk
    ensures sk >= 1
  {
    if dim == [] then 1
    else
      var n := |dim| - 1;
      var rest := NextSk(dim[..n]);
      assert forall v :: v in dim ==> v in dim[..n] || v == dim[n];
      if dim[n].sk >= rest then dim[n].sk + 1 else rest
  }

  function Fresh(sk: int, r: Row, ts: Day): Version {
    Version(sk, r, ts, FAR_FUTURE, true)
  }

  /** `_build_new_versions`: surrogate keys in natural-key order from `start`. */
  function NewVersions(spec: MergeSpec, rows: seq<Row>, ts: Day, start: int): (vs: seq<Version>)
    ensures |vs| == |rows|
  {
    var sorted := Sort(RowLe(spec.naturalKey), rows);
    seq(|sorted|, i requires 0 <= i < |sorted| => Fresh(start + i, sorted[i], ts))
  }

  /** The five parts of the output, in the order the code appends them. */
  datatype Parts = Parts(
    historical: seq<Version>, kept: seq<Version>, closed: seq<Version>,
    revised: seq<Version>, added: seq<Version>)
  {
    function All(): seq<Version> {
      historical + kept + closed + revised + added
    }

    /** With no part at all the code returns the dimension it was given. */
    function Output(dim: seq<Version>): seq<Version> {
      if All() == [] then dim else All()
    }
  }

  function JoinParts(spec: MergeSpec, dim: seq<Version>, rows: seq<Row>, ts: Day): Parts {
    var changed := ChangedPairs(spec, dim, rows);
    Parts(
      Historical(dim),
      Unchanged(spec, dim, rows),
      ClosedOut(spec, dim, rows, ts),
      NewVersions(spec, Map(changed, Left()), ts, NextSk(dim)),
      NewVersions(spec, NewRows(spec, dim, rows), ts, NextSk(dim) + |changed|))
  }

  function Merge(spec: MergeSpec, dim: seq<Version>, rows: seq<Row>, ts: Day): seq<Version> {
    JoinParts(spec, dim, rows, ts).Output(dim)
  }

  function MergeStats(spec: MergeSpec, dim: seq<Version>, rows: seq<Row>, ts: Day): Stats {
    Stats(
      |NewRows(spec, dim, rows)|, |ChangedPairs(spec, dim, rows)|, |UnchangedPairs(spec, dim, rows)|,
      |Historical(dim)|, |Merge(spec, dim, rows, ts)|)
  }

  function ColumnMissingIn(frame: Frame): string -> bool {
    (c: string) => c !in frame.columns
  }

  function Validate(spec: MergeSpec, incoming: Frame): Option<MergeError> {
    var missingKey := Filter(spec.naturalKey, ColumnMissingIn(incoming));
    var missingTracked := Filter(spec.tracked, ColumnMissingIn(incoming));
    if spec.naturalKey == [] then Some(EmptyNaturalKey)
    else if spec.tracked == [] then Some(EmptyTrackedColumns)
    else if missingKey != [] then Some(MissingNaturalKey(missingKey))
    else if missingTracked != [] then Some(MissingTracked(missingTracked))
    else None
  }

  /** A frame is accepted iff key and tracked columns are configured and present. */
  lemma ValidateMeans(spec: MergeSpec, incoming: Frame)
    ensures Validate(spec, incoming).None? <==>
      spec.naturalKey != [] && spec.tracked != []
      && HasColumns(incoming, spec.naturalKey) && HasColumns(incoming, spec.tracked)
    ensures spec.naturalKey == [] ==> Validate(spec, incoming) == Some(EmptyNaturalKey)
    ensures spec.naturalKey != [] && spec.tracked == [] ==> Validate(spec, incoming) == Some(EmptyTrackedColumns)
    ensures Validate(spec, incoming).Some? && Validate(spec, incoming).value.MissingNaturalKey? ==>
      forall c :: c in Validate(spec, incoming).value.columns <==> c in spec.naturalKey && c !in incoming.columns
    ensures Validate(spec, incoming).Some? && Validate(spec, incoming).value.MissingTracked? ==>
      && HasColumns(incoming, spec.naturalKey)
      && forall c :: c in Validate(spec, incoming).value.columns <==> c in spec.tracked && c !in incoming.columns
  {
    FilterIn(spec.naturalKey, ColumnMissingIn(incoming));
    FilterIn(spec.tracked, ColumnMissingIn(incoming));
    hide Filter;
    var missingKey := Filter(spec.naturalKey, ColumnMissingIn(incoming));
    var missingTracked := Filter(spec.tracked, ColumnMissingIn(incoming));
    assert missingKey != [] ==> missingKey[0] in missingKey;
    assert missingTracked != [] ==> missingTracked[0] in missingTracked;
  }

  // ----- The code -----

  method BuildNewVersions(spec: MergeSpec, rows: seq<Row>, ts: Day, start: int) returns (versions: seq<Version>)
    ensures versions == NewVersions(spec, rows, ts, start)
  {
    var sorted := Sort(RowLe(spec.naturalKey), rows);
    versions := [];
    for i := 0 to |sorted|
      invariant |versions| == i
      invariant forall j :: 0 <= j < i ==> versions[j] == Fresh(start + j, sorted[j], ts)
    {
      versions := versions + [Version(start + i, sorted[i], ts, FAR_FUTURE, true)];
    }
  }

  method Scd2Merge(existing: Option<seq<Version>>, incoming: Frame, spec: MergeSpec, ts: Day)
    returns (result: Result<(seq<Version>, Stats), MergeError>)
    ensures Validate(spec, incoming).Some? ==> result == Failure(Validate(spec, incoming).value)
    ensures Validate(spec, incoming).None? ==>
      var dim := if existing.Some? then existing.value else [];
      result == Success((Merge(spec, dim, incoming.rows, ts), MergeStats(spec, dim, incoming.rows, ts)))
  {
    var problem := Validate(spec, incoming);
    if problem.Some? {
      return Failure(problem.value);
    }
    var rows := incoming.rows;
    if existing.None? || |existing.value| == 0 {
      InitialLoadIsMerge(spec, rows, ts);
      if |rows| == 0 {
        return Success(([], Stats(0, 0, 0, 0, 0)));
      }
      var loaded := BuildNewVersions(spec, rows, ts, 1);
      return Success((loaded, Stats(|rows|, 0, 0, 0, |rows|)));
    }

    var merged, stats := MergeIntoExisting(spec, existing.value, rows, ts);
    result := Success((merged, stats));
  }

  /** The branch for a non-empty dimension: parts are appended one by one, empty ones skipped. */
  method MergeIntoExisting(spec: MergeSpec, dim: seq<Version>, rows: seq<Row>, ts: Day)
    returns (merged: seq<Version>, stats: Stats)
    ensures merged == Merge(spec, dim, rows, ts)
    ensures stats == MergeStats(spec, dim, rows, ts)
  {
    hide Historical, Unchanged, ClosedOut, NewRows, ChangedPairs, UnchangedPairs, NewVersions, NextSk;
    var historical := Historical(dim);
    var newRows := NewRows(spec, dim, rows);
    var changed := ChangedPairs(spec, dim, rows);
    var same := UnchangedPairs(spec, dim, rows);
    var nextSk := NextSk(dim);
    EmptyParts(spec, dim, rows, ts);

    ghost var parts := JoinParts(spec, dim, rows, ts);
    var output := AppendPart([], historical, |historical|);
    assert output == parts.historical;
    output := AppendPart(output, Unchanged(spec, dim, rows), |same|);
    output := AppendPart(output, ClosedOut(spec, dim, rows, ts), |changed|);
    var revised := BuildNewVersions(spec, Map(changed, Left()), ts, nextSk);
    output := AppendPart(output, revised, |changed|);
    nextSk := nextSk + |changed|;
    var added := BuildNewVersions(spec, newRows, ts, nextSk);
    output := AppendPart(output, added, |newRows|);
    assert output == parts.All();
    merged := if |output| == 0 then dim else output;
    stats := Stats(|newRows|, |changed|, |same|, |historical|, |merged|);
  }

  /** `if count > 0: output_parts.append(part)`. */
  method AppendPart(output: seq<Version>, part: seq<Version>, count: nat) returns (extended: seq<Version>)
    requires count == 0 ==> part == []
    ensures extended == output + part
  {
    extended := output;
    if count > 0 {
      extended := extended + part;
    }
  }

  /** A part whose count is zero contributes nothing, so skipping it is harmless. */
  lemma EmptyParts(spec: MergeSpec, dim: seq<Version>, rows: seq<Row>, ts: Day)
    ensures UnchangedPairs(spec, dim, rows) == [] ==> Unchanged(spec, dim, rows) == []
    ensures ChangedPairs(spec, dim, rows) == [] ==> ClosedOut(spec, dim, rows, ts) == []
  {
    FilterIn(Current(dim), SkIn(Map(UnchangedPairs(spec, dim, rows), RightSk())));
    FilterIn(Current(dim), SkIn(Map(ChangedPairs(spec, dim, rows), RightSk())));
    if ChangedPairs(spec, dim, rows) == [] {
      FilterNone(Current(dim), SkIn(Map(ChangedPairs(spec, dim, rows), RightSk())));
    }
    if UnchangedPairs(spec, dim, rows) == [] {
      FilterNone(Current(dim), SkIn(Map(UnchangedPairs(spec, dim, rows), RightSk())));
    }
  }

  lemma {:induction false} JoinWithNothing(spec: MergeSpec, rows: seq<Row>)
    ensures InnerJoin(spec, rows, []) == []
  {
    if rows != [] {
      JoinWithNothing(spec, rows[..|rows| - 1]);
    }
  }

  lemma NothingMatches(spec: MergeSpec, rows: seq<Row>)
    ensures ChangedPairs(spec, [], rows) == [] && UnchangedPairs(spec, [], rows) == []
    ensures NewRows(spec, [], rows) == rows
  {
    JoinWithNothing(spec, rows);
    FilterAll(rows, KeyNotIn(spec, Map(Current([]), VersionKeyOf(spec))));
  }

  /** `_initial_load` is the general merge into an empty dimension. */
  lemma InitialLoadIsMerge(spec: MergeSpec, rows: seq<Row>, ts: Day)
    ensures Merge(spec, [], rows, ts) == NewVersions(spec, rows, ts, 1)
    ensures MergeStats(spec, [], rows, ts) == Stats(|rows|, 0, 0, 0, |rows|)
  {
    hide InnerJoin, Sort;
    NothingMatches(spec, rows);
    EmptyParts(spec, [], rows, ts);
    var parts := JoinParts(spec, [], rows, ts);
    assert parts.historical == [] && parts.kept == [] && parts.closed == [];
    assert parts.revised == [];
    assert parts.added == NewVersions(spec, rows, ts, 1);
    assert parts.All() == parts.added;
  }

  // ----- What the joins mean -----

  /** The merge's contract on its inputs: unique surrogate keys, one current row a key, unique incoming keys. */
  ghost predicate WellKeyed(spec: MergeSpec, dim: seq<Version>, rows: seq<Row>) {
    && Distinct(Map(dim, SkOf()))
    && Distinct(Map(Current(dim), VersionKeyOf(spec)))
    && KeyUnique(spec.naturalKey, rows)
  }

  function IsHistorical(): Version -> bool {
    (v: Version) => !v.current
  }

  /** The incoming row for a version's key, if any. */
  function Incoming(spec: MergeSpec, rows: seq<Row>, k: seq<Value>): Option<Row> {
    var i := FindRow(spec.naturalKey, rows, k);
    if i < 0 then None else Some(rows[i])
  }

  function FindVersion(spec: MergeSpec, versions: seq<Version>, k: seq<Value>): (i: int)
    ensures -1 <= i < |versions|
    ensures i >= 0 ==> KeyOf(spec, versions[i].row) == k
    ensures i < 0 ==> forall j :: 0 <= j < |versions| ==> KeyOf(spec, versions[j].row) != k
  {
    if versions == [] then -1
    else
      var n := |versions| - 1;
      var earlier := FindVersion(spec, versions[..n], k);
      if earlier >= 0 then earlier
      else if KeyOf(spec, versions[n].row) == k then n
      else -1
  }

  /** The current version of a key, if any. */
  function CurrentFor(spec: MergeSpec, dim: seq<Version>, k: seq<Value>): Option<Version> {
    var i := FindVersion(spec, Current(dim), k);
    if i < 0 then None else Some(Current(dim)[i])
  }

  /** UNCHANGED: a current version whose incoming row has the same hash. */
  function Kept(spec: MergeSpec, rows: seq<Row>): Version -> bool {
    (v: Version) => v.current
      && var r := Incoming(spec, rows, KeyOf(spec, v.row)); r.Some? && HashOf(spec, r.value) == HashOf(spec, v.row)
  }

  /** CHANGED, existing side: a current version whose incoming row has another hash. */
  function Superseded(spec: MergeSpec, rows: seq<Row>): Version -> bool {
    (v: Version) => v.current
      && var r := Incoming(spec, rows, KeyOf(spec, v.row)); r.Some? && HashOf(spec, r.value) != HashOf(spec, v.row)
  }

  /** CHANGED, incoming side. */
  function Revises(spec: MergeSpec, dim: seq<Version>): Row -> bool {
    (r: Row) => var v := CurrentFor(spec, dim, KeyOf(spec, r)); v.Some? && HashOf(spec, r) != HashOf(spec, v.value.row)
  }

  /** UNCHANGED, incoming side. */
  function Repeats(spec: MergeSpec, dim: seq<Version>): Row -> bool {
    (r: Row) => var v := CurrentFor(spec, dim, KeyOf(spec, r)); v.Some? && HashOf(spec, r) == HashOf(spec, v.value.row)
  }

  /** NEW. */
  function Introduces(spec: MergeSpec, dim: seq<Version>): Row -> bool {
    (r: Row) => CurrentFor(spec, dim, KeyOf(spec, r)).None?
  }

  /** The five output parts, each by a test on single rows. */
  function Categorise(spec: MergeSpec, dim: seq<Version>, rows: seq<Row>, ts: Day): Parts {
    var revising := Filter(rows, Revises(spec, dim));
    Parts(
      Filter(dim, IsHistorical()),
      Filter(dim, Kept(spec, rows)),
      Map(Filter(dim, Superseded(spec, rows)), CloseAt(ts)),
      NewVersions(spec, revising, ts, NextSk(dim)),
      NewVersions(spec, Filter(rows, Introduces(spec, dim)), ts, NextSk(dim) + |revising|))
  }

  function MergeByCategory(spec: MergeSpec, dim: seq<Version>, rows: seq<Row>, ts: Day): seq<Version> {
    Categorise(spec, dim, rows, ts).Output(dim)
  }

  lemma {:induction false} JoinMembers(spec: MergeSpec, rows: seq<Row>, versions: seq<Version>)
    ensures forall p :: p in InnerJoin(spec, rows, versions) <==>
      p.0 in rows && p.1 in versions && KeyOf(spec, p.0) == KeyOf(spec, p.1.row)
  {
    if rows != [] {
      var n := |rows| - 1;
      var matches := Filter(versions, HasKey(spec, KeyOf(spec, rows[n])));
      JoinMembers(spec, rows[..n], versions);
      FilterIn(versions, HasKey(spec, KeyOf(spec, rows[n])));
      assert rows == rows[..n] + [rows[n]];
      var paired := Map(matches, PairWith(rows[n]));
      forall p ensures p in paired <==> p.0 == rows[n] && p.1 in matches {
        if p.0 == rows[n] && p.1 in matches {
          var i :| 0 <= i < |matches| && matches[i] == p.1;
          assert paired[i] == p;
        }
      }
    }
  }

  /** With one version a key at most, a row joins with the version found for its key, or with none. */
  lemma MatchesOfRow(spec: MergeSpec, r: Row, versions: seq<Version>)
    requires Distinct(Map(versions, VersionKeyOf(spec)))
    ensures
      var i := FindVersion(spec, versions, KeyOf(spec, r));
      Filter(versions, HasKey(spec, KeyOf(spec, r))) == if i < 0 then [] else [versions[i]]
  {
    var i := FindVersion(spec, versions, KeyOf(spec, r));
    var p := HasKey(spec, KeyOf(spec, r));
    if i < 0 {
      FilterNone(versions, p);
    } else {
      var keys := Map(versions, VersionKeyOf(spec));
      forall j | 0 <= j < |versions| && j != i ensures !p(versions[j]) {
        assert keys[i] != keys[j];
      }
      FilterOne(versions, p, i);
    }
  }

  lemma JoinOneRow(
      spec: MergeSpec, r: Row, versions: seq<Version>, keep: ((Row, Version)) -> bool, keepRow: bool)
    requires Distinct(Map(versions, VersionKeyOf(spec)))
    requires keepRow <==> var i := FindVersion(spec, versions, KeyOf(spec, r)); i >= 0 && keep((r, versions[i]))
    ensures
      var paired := Map(Filter(versions, HasKey(spec, KeyOf(spec, r))), PairWith(r));
      Map(Filter(paired, keep), Left()) == if keepRow then [r] else []
  {
    hide Filter;
    MatchesOfRow(spec, r, versions);
    var paired := Map(Filter(versions, HasKey(spec, KeyOf(spec, r))), PairWith(r));
    var i := FindVersion(spec, versions, KeyOf(spec, r));
    assert paired == if i < 0 then [] else [(r, versions[i])];
    if i >= 0 {
      FilterSingleton((r, versions[i]), keep);
    } else {
      FilterNone(paired, keep);
    }
  }

  /** So the rows of a filtered join are a filter of the rows. */
  lemma {:induction false} JoinRows(
      spec: MergeSpec, rows: seq<Row>, versions: seq<Version>, keep: ((Row, Version)) -> bool, keepRow: Row -> bool)
    requires Distinct(Map(versions, VersionKeyOf(spec)))
    requires forall r :: keepRow(r) <==>
      var i := FindVersion(spec, versions, KeyOf(spec, r)); i >= 0 && keep((r, versions[i]))
    ensures Map(Filter(InnerJoin(spec, rows, versions), keep), Left()) == Filter(rows, keepRow)
  {
    hide FindVersion, KeyOf, Map;
    if rows == [] {
      FilterNone([], keep);
      assert Map(Filter(InnerJoin(spec, rows, versions), keep), Left()) == [];
    } else {
      var n := |rows| - 1;
      var r := rows[n];
      JoinRows(spec, rows[..n], versions, keep, keepRow);
      var front := InnerJoin(spec, rows[..n], versions);
      var paired := Map(Filter(versions, HasKey(spec, KeyOf(spec, r))), PairWith(r));
      FilterConcat(front, paired, keep);
      MapConcat(Filter(front, keep), Filter(paired, keep), Left());
      JoinOneRow(spec, r, versions, keep, keepRow(r));
    }
  }

  /** Under unique surrogate keys, a semi-join of the current rows on surrogate keys is a per-row test. */
  lemma SemiJoinIsFilter(
      spec: MergeSpec, dim: seq<Version>, rows: seq<Row>, keep: ((Row, Version)) -> bool, keepVersion: Version -> bool)
    requires WellKeyed(spec, dim, rows)
    requires forall v :: keepVersion(v) <==>
      v.current && var r := Incoming(spec, rows, KeyOf(spec, v.row)); r.Some? && keep((r.value, v))
    ensures
      var pairs := Filter(InnerJoin(spec, rows, Current(dim)), keep);
      Filter(Current(dim), SkIn(Map(pairs, RightSk()))) == Filter(dim, keepVersion)
  {
    hide Filter, InnerJoin, FindRow;
    var pairs := Filter(InnerJoin(spec, rows, Current(dim)), keep);
    var p := SkIn(Map(pairs, RightSk()));
    FilterFilter(dim, IsCurrent(), p);
    var both := Both(IsCurrent(), p);
    forall v | v in dim ensures both(v) == keepVersion(v) {
      SemiJoinTest(spec, dim, rows, keep, keepVersion, v);
    }
    FilterSame(dim, both, keepVersion);
  }

  lemma SemiJoinTest(
      spec: MergeSpec, dim: seq<Version>, rows: seq<Row>, keep: ((Row, Version)) -> bool,
      keepVersion: Version -> bool, v: Version)
    requires WellKeyed(spec, dim, rows)
    requires keepVersion(v) <==>
      v.current && var r := Incoming(spec, rows, KeyOf(spec, v.row)); r.Some? && keep((r.value, v))
    requires v in dim
    ensures
      var pairs := Filter(InnerJoin(spec, rows, Current(dim)), keep);
      (v.current && v.sk in Map(pairs, RightSk())) == keepVersion(v)
  {
    var joined := InnerJoin(spec, rows, Current(dim));
    var pairs := Filter(joined, keep);
    var sks := Map(pairs, RightSk());
    FilterIn(joined, keep);
    JoinMembers(spec, rows, Current(dim));
    FilterIn(dim, IsCurrent());
    if v.current && v.sk in sks {
      var i :| 0 <= i < |sks| && sks[i] == v.sk;
      var pair := pairs[i];
      assert pair in joined && keep(pair);
      SameSkSameVersion(dim, v, pair.1);
      SameKeySameRow(spec, rows, pair.0);
      assert pair == (pair.0, v);
    }
    if keepVersion(v) {
      var r := Incoming(spec, rows, KeyOf(spec, v.row)).value;
      var pair := (r, v);
      assert pair in joined && pair in pairs;
      var i :| 0 <= i < |pairs| && pairs[i] == pair;
      assert sks[i] == v.sk;
    }
  }

  lemma SameSkSameVersion(dim: seq<Version>, v: Version, w: Version)
    requires Distinct(Map(dim, SkOf()))
    requires v in dim && w in dim && v.sk == w.sk
    ensures v == w
  {
    var i :| 0 <= i < |dim| && dim[i] == v;
    var j :| 0 <= j < |dim| && dim[j] == w;
    var sks := Map(dim, SkOf());
    assert sks[i] == sks[j];
  }

  lemma SameKeySameRow(spec: MergeSpec, rows: seq<Row>, r: Row)
    requires KeyUnique(spec.naturalKey, rows)
    requires r in rows
    ensures Incoming(spec, rows, KeyOf(spec, r)) == Some(r)
  {
    var i :| 0 <= i < |rows| && rows[i] == r;
    var j := FindRow(spec.naturalKey, rows, KeyOf(spec, r));
    var keys := Map(rows, ProjectOf(spec.naturalKey));
    assert keys[i] == keys[j];
  }

  lemma HistoricalIsNotCurrent(dim: seq<Version>)
    requires Distinct(Map(dim, SkOf()))
    ensures Historical(dim) == Filter(dim, IsHistorical())
  {
    var sks := Map(Current(dim), SkOf());
    FilterIn(dim, IsCurrent());
    forall v | v in dim ensures SkNotIn(sks)(v) == IsHistorical()(v) {
      if v.current {
        var i :| 0 <= i < |Current(dim)| && Current(dim)[i] == v;
        assert sks[i] == v.sk;
      } else if v.sk in sks {
        var i :| 0 <= i < |sks| && sks[i] == v.sk;
        assert Current(dim)[i] in Current(dim);
        SameSkSameVersion(dim, v, Current(dim)[i]);
      }
    }
    FilterSame(dim, SkNotIn(sks), IsHistorical());
  }

  lemma ChangedRowsByKey(spec: MergeSpec, dim: seq<Version>, rows: seq<Row>)
    requires WellKeyed(spec, dim, rows)
    ensures Map(ChangedPairs(spec, dim, rows), Left()) == Filter(rows, Revises(spec, dim))
    ensures |ChangedPairs(spec, dim, rows)| == |Filter(rows, Revises(spec, dim))|
  {
    JoinRows(spec, rows, Current(dim), HashesDiffer(spec), Revises(spec, dim));
  }

  lemma UnchangedRowsByKey(spec: MergeSpec, dim: seq<Version>, rows: seq<Row>)
    requires WellKeyed(spec, dim, rows)
    ensures Map(UnchangedPairs(spec, dim, rows), Left()) == Filter(rows, Repeats(spec, dim))
    ensures |UnchangedPairs(spec, dim, rows)| == |Filter(rows, Repeats(spec, dim))|
  {
    JoinRows(spec, rows, Current(dim), HashesEqual(spec), Repeats(spec, dim));
  }

  lemma VersionsByKey(spec: MergeSpec, dim: seq<Version>, rows: seq<Row>, ts: Day)
    requires WellKeyed(spec, dim, rows)
    ensures Unchanged(spec, dim, rows) == Filter(dim, Kept(spec, rows))
    ensures ClosedOut(spec, dim, rows, ts) == Map(Filter(dim, Superseded(spec, rows)), CloseAt(ts))
  {
    hide Filter, InnerJoin, FindRow;
    SemiJoinIsFilter(spec, dim, rows, HashesEqual(spec), Kept(spec, rows));
    SemiJoinIsFilter(spec, dim, rows, HashesDiffer(spec), Superseded(spec, rows));
  }

  /** The joins of the code sort rows into exactly the documented categories. */
  lemma JoinsImplementCategories(spec: MergeSpec, dim: seq<Version>, rows: seq<Row>, ts: Day)
    requires WellKeyed(spec, dim, rows)
    ensures JoinParts(spec, dim, rows, ts) == Categorise(spec, dim, rows, ts)
    ensures Merge(spec, dim, rows, ts) == MergeByCategory(spec, dim, rows, ts)
  {
    hide Historical, Unchanged, ClosedOut, NewRows, ChangedPairs, NewVersions, NextSk, Filter, Revises, Introduces;
    HistoricalIsNotCurrent(dim);
    VersionsByKey(spec, dim, rows, ts);
    ChangedRowsByKey(spec, dim, rows);
    NewRowsByKey(spec, dim, rows);
    var p, q := JoinParts(spec, dim, rows, ts), Categorise(spec, dim, rows, ts);
    assert p.historical == q.historical && p.kept == q.kept && p.closed == q.closed;
    assert p.revised == q.revised && p.added == q.added;
    assert p == q;
  }

  lemma NewRowsByKey(spec: MergeSpec, dim: seq<Version>, rows: seq<Row>)
    ensures NewRows(spec, dim, rows) == Filter(rows, Introduces(spec, dim))
  {
    var keys := Map(Current(dim), VersionKeyOf(spec));
    forall r | r in rows ensures KeyNotIn(spec, keys)(r) == Introduces(spec, dim)(r) {
      var i := FindVersion(spec, Current(dim), KeyOf(spec, r));
      if i >= 0 {
        assert keys[i] == KeyOf(spec, r);
      }
    }
    FilterSame(rows, KeyNotIn(spec, keys), Introduces(spec, dim));
  }
}
