/**
 * `build_dim_players`: PII tokenisation before the merge. Tokenising columns that are neither key nor
 * tracked commutes with the merge, so tokenisation never looks like a change, over whole runs.
 */
module DimPlayers {
  import opened Wrappers
  import opened Sequences
  import opened Ordering
  import opened Frames
  import opened Scd2
  import opened Scd2History
  import opened Scd2Runs

  const TOKEN_PREFIX: string := "pii_"
  const TOKEN_HEX_LENGTH: nat := 8

  /** The tokeniser's settings; `str()` and SHA-256 are parameters. */
  datatype Pii = Pii(columns: seq<string>, salt: string, str: Value -> string, sha256: string -> string)

  /** `get_salt`: an enabled tokeniser needs a salt. */
  predicate Salted(pii: Option<Pii>) {
    pii.Some? ==> pii.value.salt != ""
  }

  /** What a build raises. */
  datatype BuildError = EmptySalt | MergeRaised(error: MergeError)

  function Prefix(s: string, n: nat): string {
    if |s| <= n then s else s[..n]
  }

  /** `tokenize_value`: missing stays missing. */
  function TokenizeValue(pii: Pii, v: Value): Value {
    if v.Null? then Null
    else Text(TOKEN_PREFIX + Prefix(pii.sha256(pii.salt + pii.str(v)), TOKEN_HEX_LENGTH))
  }

  function TokenizeCell(pii: Pii, column: string): Row -> Row {
    (r: Row) => if column in r then r[column := TokenizeValue(pii, r[column])] else r
  }

  /** One row after the first columns of the list have been tokenised, left to right. */
  function TokenizeColumns(pii: Pii, columns: seq<string>, r: Row): Row {
    if columns == [] then r
    else
      var n := |columns| - 1;
      TokenizeCell(pii, columns[n])(TokenizeColumns(pii, columns[..n], r))
  }

  function TokenizeRow(pii: Pii): Row -> Row {
    (r: Row) => TokenizeColumns(pii, pii.columns, r)
  }

  // ----- What a tokenised row holds -----

  /** `t` is the token of `v`: missing for missing, otherwise `pii_` and eight digits of the salted digest. */
  predicate IsToken(pii: Pii, v: Value, t: Value) {
    if v.Null? then t.Null?
    else
      var digest := pii.sha256(pii.salt + pii.str(v));
      t == Text("pii_" + (if |digest| <= 8 then digest else digest[..8]))
  }

  /** The listed columns that the row has hold tokens of their values; everything else is as it was. */
  ghost predicate Protects(pii: Pii, r: Row, t: Row) {
    && t.Keys == r.Keys
    && forall c :: c in r ==> if c in pii.columns then IsToken(pii, r[c], t[c]) else t[c] == r[c]
  }

  /** Some row of the file has this protected form. */
  ghost predicate ProtectsSome(pii: Pii, rows: seq<Row>, t: Row) {
    exists r :: r in rows && Protects(pii, r, t)
  }

  lemma {:induction false} ColumnsProtected(pii: Pii, columns: seq<string>, r: Row)
    requires Distinct(columns)
    ensures
      var t := TokenizeColumns(pii, columns, r);
      && t.Keys == r.Keys
      && forall c :: c in r ==> if c in columns then IsToken(pii, r[c], t[c]) else t[c] == r[c]
  {
    hide IsToken, TokenizeValue;
    if columns != [] {
      var n := |columns| - 1;
      var before := TokenizeColumns(pii, columns[..n], r);
      ColumnsProtected(pii, columns[..n], r);
      assert columns == columns[..n] + [columns[n]];
      assert columns[n] !in columns[..n];
      if columns[n] in r {
        ValueTokenized(pii, r[columns[n]]);
      }
    }
  }

  lemma ValueTokenized(pii: Pii, v: Value)
    ensures IsToken(pii, v, TokenizeValue(pii, v))
  {
  }

  lemma RowProtected(pii: Pii, r: Row)
    requires Distinct(pii.columns)
    ensures Protects(pii, r, TokenizeRow(pii)(r))
  {
    ColumnsProtected(pii, pii.columns, r);
  }

  /** `tokenize_columns_in_dataframe`: column by column over the frame, skipping absent columns. */
  method TokenizeFrame(pii: Pii, rows: seq<Row>) returns (result: Result<seq<Row>, BuildError>)
    ensures pii.salt == "" ==> result == Failure(EmptySalt)
    ensures pii.salt != "" ==> result == Success(Map(rows, TokenizeRow(pii)))
    ensures result.Success? && Distinct(pii.columns) ==>
      forall i :: 0 <= i < |rows| ==> Protects(pii, rows[i], result.value[i])
  {
    if |pii.salt| == 0 {
      return Failure(EmptySalt);
    }
    var tokenized := rows;
    for i := 0 to |pii.columns|
      invariant |tokenized| == |rows|
      invariant forall r :: 0 <= r < |rows| ==> tokenized[r] == TokenizeColumns(pii, pii.columns[..i], rows[r])
    {
      tokenized := Map(tokenized, TokenizeCell(pii, pii.columns[i]));
      assert pii.columns[..i + 1][..i] == pii.columns[..i];
    }
    assert pii.columns[..|pii.columns|] == pii.columns;
    assert tokenized == Map(rows, TokenizeRow(pii));
    result := Success(tokenized);
    if Distinct(pii.columns) {
      forall i | 0 <= i < |rows| ensures Protects(pii, rows[i], tokenized[i]) {
        RowProtected(pii, rows[i]);
      }
    }
  }

  /** The tokenised columns are neither key nor tracked columns. */
  predicate Untracked(spec: MergeSpec, pii: Pii) {
    forall c :: c in pii.columns ==> c !in spec.naturalKey && c !in spec.tracked
  }

  /** `build_dim_players`, after the per-row country and position columns have been added. */
  method BuildDimPlayers(
      spec: MergeSpec, pii: Option<Pii>, players: Frame, existing: seq<Version>, batchDay: Day)
    returns (result: Result<(seq<Version>, Stats), BuildError>)
    ensures !Salted(pii) ==> result == Failure(EmptySalt)
    ensures Salted(pii) && Validate(spec, players).None? ==>
      var rows := if pii.Some? then Map(players.rows, TokenizeRow(pii.value)) else players.rows;
      var ts := EffectiveDay(existing, batchDay);
      result == Success((Merge(spec, existing, rows, ts), MergeStats(spec, existing, rows, ts)))
    ensures Salted(pii) && Validate(spec, players).Some? ==>
      result == Failure(MergeRaised(Validate(spec, players).value))
    ensures result.Success? && pii.Some? && Distinct(pii.value.columns) ==>
      forall v :: v in result.value.0 && v.sk >= NextSk(existing) ==> ProtectsSome(pii.value, players.rows, v.row)
  {
    hide Merge, MergeStats, Validate, Protects;
    var rows := players.rows;
    if pii.Some? {
      var tokenized := TokenizeFrame(pii.value, rows);
      if tokenized.Failure? {
        return Failure(tokenized.error);
      }
      rows := tokenized.value;
    }
    var projected := Frame(players.columns, rows);
    var effective := if existing == [] then FAR_PAST else batchDay;
    ValidateIgnoresRows(spec, players, projected);
    var merged := Scd2Merge(if existing == [] then None else Some(existing), projected, spec, effective);
    result := if merged.Success? then Success(merged.value) else Failure(MergeRaised(merged.error));
    if result.Success? && pii.Some? && Distinct(pii.value.columns) {
      OpenedProtected(spec, pii.value, existing, players.rows, EffectiveDay(existing, batchDay));
    }
  }

  /** Every version that a merge of tokenised rows opens carries the tokens of a row of the file. */
  lemma OpenedProtected(spec: MergeSpec, pii: Pii, existing: seq<Version>, rows: seq<Row>, ts: Day)
    requires Distinct(pii.columns)
    ensures
      var merged := Merge(spec, existing, Map(rows, TokenizeRow(pii)), ts);
      forall v :: v in merged && v.sk >= NextSk(existing) ==> ProtectsSome(pii, rows, v.row)
  {
    hide Merge, NextSk, TokenizeRow, Protects;
    var tokenized := Map(rows, TokenizeRow(pii));
    var merged := Merge(spec, existing, tokenized, ts);
    forall v | v in merged && v.sk >= NextSk(existing) ensures ProtectsSome(pii, rows, v.row) {
      OpenedFromBatch(spec, existing, tokenized, ts, v);
      var i :| 0 <= i < |tokenized| && tokenized[i] == v.row;
      RowProtected(pii, rows[i]);
      assert rows[i] in rows;
    }
  }

  lemma ValidateIgnoresRows(spec: MergeSpec, a: Frame, b: Frame)
    requires a.columns == b.columns
    ensures Validate(spec, a) == Validate(spec, b)
  {
    FilterSame(spec.naturalKey, ColumnMissingIn(a), ColumnMissingIn(b));
    FilterSame(spec.tracked, ColumnMissingIn(a), ColumnMissingIn(b));
  }

  // ----- Any row change that leaves key and hash alone commutes with the merge -----

  ghost predicate Harmless(spec: MergeSpec, f: Row -> Row) {
    forall r :: KeyOf(spec, f(r)) == KeyOf(spec, r) && HashOf(spec, f(r)) == HashOf(spec, r)
  }

  function OnVersion(f: Row -> Row): Version -> Version {
    (v: Version) => v.(row := f(v.row))
  }

  function OnPair(f: Row -> Row): ((Row, Version)) -> (Row, Version) {
    (p: (Row, Version)) => (f(p.0), OnVersion(f)(p.1))
  }

  lemma SkUnaffected(dim: seq<Version>, f: Row -> Row)
    ensures Map(Map(dim, OnVersion(f)), SkOf()) == Map(dim, SkOf())
  {
  }

  lemma CurrentCommutes(dim: seq<Version>, f: Row -> Row)
    ensures Current(Map(dim, OnVersion(f))) == Map(Current(dim), OnVersion(f))
  {
    FilterMap(dim, OnVersion(f), IsCurrent(), IsCurrent());
  }

  lemma HistoricalCommutes(dim: seq<Version>, f: Row -> Row)
    ensures Historical(Map(dim, OnVersion(f))) == Map(Historical(dim), OnVersion(f))
  {
    hide Filter;
    CurrentCommutes(dim, f);
    SkUnaffected(Current(dim), f);
    var keep := SkNotIn(Map(Current(dim), SkOf()));
    FilterMap(dim, OnVersion(f), keep, keep);
  }

  lemma {:induction false} JoinCommutes(spec: MergeSpec, rows: seq<Row>, versions: seq<Version>, f: Row -> Row)
    requires Harmless(spec, f)
    ensures InnerJoin(spec, Map(rows, f), Map(versions, OnVersion(f))) ==
      Map(InnerJoin(spec, rows, versions), OnPair(f))
  {
    if rows != [] {
      var n := |rows| - 1;
      var r := rows[n];
      JoinCommutes(spec, rows[..n], versions, f);
      assert Map(rows, f)[..n] == Map(rows[..n], f);
      var p := HasKey(spec, KeyOf(spec, r));
      assert HasKey(spec, KeyOf(spec, f(r))) == p;
      FilterMap(versions, OnVersion(f), p, p);
      var matches := Filter(versions, p);
      assert Map(Map(matches, OnVersion(f)), PairWith(f(r))) == Map(Map(matches, PairWith(r)), OnPair(f));
      MapConcat(InnerJoin(spec, rows[..n], versions), Map(matches, PairWith(r)), OnPair(f));
    }
  }

  lemma PairsCommute(spec: MergeSpec, dim: seq<Version>, rows: seq<Row>, f: Row -> Row)
    requires Harmless(spec, f)
    ensures ChangedPairs(spec, Map(dim, OnVersion(f)), Map(rows, f)) == Map(ChangedPairs(spec, dim, rows), OnPair(f))
    ensures UnchangedPairs(spec, Map(dim, OnVersion(f)), Map(rows, f)) ==
      Map(UnchangedPairs(spec, dim, rows), OnPair(f))
  {
    hide Filter, InnerJoin, HashOf, KeyOf;
    CurrentCommutes(dim, f);
    JoinCommutes(spec, rows, Current(dim), f);
    var joined := InnerJoin(spec, rows, Current(dim));
    FilterMap(joined, OnPair(f), HashesDiffer(spec), HashesDiffer(spec));
    FilterMap(joined, OnPair(f), HashesEqual(spec), HashesEqual(spec));
  }

  lemma OldPartsCommute(spec: MergeSpec, dim: seq<Version>, rows: seq<Row>, f: Row -> Row, ts: Day)
    requires Harmless(spec, f)
    ensures Unchanged(spec, Map(dim, OnVersion(f)), Map(rows, f)) == Map(Unchanged(spec, dim, rows), OnVersion(f))
    ensures ClosedOut(spec, Map(dim, OnVersion(f)), Map(rows, f), ts) ==
      Map(ClosedOut(spec, dim, rows, ts), OnVersion(f))
  {
    hide Filter, InnerJoin, HashOf, KeyOf, ChangedPairs, UnchangedPairs, Current;
    CurrentCommutes(dim, f);
    PairsCommute(spec, dim, rows, f);
    var changed, same := ChangedPairs(spec, dim, rows), UnchangedPairs(spec, dim, rows);
    assert Map(Map(changed, OnPair(f)), RightSk()) == Map(changed, RightSk());
    assert Map(Map(same, OnPair(f)), RightSk()) == Map(same, RightSk());
    FilterMap(Current(dim), OnVersion(f), SkIn(Map(changed, RightSk())), SkIn(Map(changed, RightSk())));
    FilterMap(Current(dim), OnVersion(f), SkIn(Map(same, RightSk())), SkIn(Map(same, RightSk())));
    var superseded := Filter(Current(dim), SkIn(Map(changed, RightSk())));
    assert Map(Map(superseded, OnVersion(f)), CloseAt(ts)) == Map(Map(superseded, CloseAt(ts)), OnVersion(f));
  }

  lemma NewRowsCommute(spec: MergeSpec, dim: seq<Version>, rows: seq<Row>, f: Row -> Row)
    requires Harmless(spec, f)
    ensures NewRows(spec, Map(dim, OnVersion(f)), Map(rows, f)) == Map(NewRows(spec, dim, rows), f)
  {
    hide Filter, HashOf, Current;
    CurrentCommutes(dim, f);
    assert Map(Map(Current(dim), OnVersion(f)), VersionKeyOf(spec)) == Map(Current(dim), VersionKeyOf(spec));
    var keep := KeyNotIn(spec, Map(Current(dim), VersionKeyOf(spec)));
    FilterMap(rows, f, keep, keep);
  }

  lemma {:induction false} NextSkUnaffected(dim: seq<Version>, f: Row -> Row)
    ensures NextSk(Map(dim, OnVersion(f))) == NextSk(dim)
  {
    if dim != [] {
      var n := |dim| - 1;
      NextSkUnaffected(dim[..n], f);
      assert Map(dim, OnVersion(f))[..n] == Map(dim[..n], OnVersion(f));
    }
  }

  lemma NewVersionsCommute(spec: MergeSpec, rows: seq<Row>, ts: Day, start: int, f: Row -> Row)
    requires Harmless(spec, f)
    ensures NewVersions(spec, Map(rows, f), ts, start) == Map(NewVersions(spec, rows, ts, start), OnVersion(f))
  {
    hide Sort, KeyLe, HashOf;
    SortMaps(RowLe(spec.naturalKey), RowLe(spec.naturalKey), rows, f);
  }

  /** A change of rows that leaves key and hash alone commutes with the merge, categories and keys included. */
  lemma MergeCommutes(spec: MergeSpec, dim: seq<Version>, rows: seq<Row>, ts: Day, f: Row -> Row)
    requires Harmless(spec, f)
    ensures Merge(spec, Map(dim, OnVersion(f)), Map(rows, f), ts) == Map(Merge(spec, dim, rows, ts), OnVersion(f))
    ensures MergeStats(spec, Map(dim, OnVersion(f)), Map(rows, f), ts) == MergeStats(spec, dim, rows, ts)
  {
    hide Historical, Unchanged, ClosedOut, NewRows, ChangedPairs, UnchangedPairs, NewVersions, NextSk, HashOf, KeyOf;
    var parts := JoinParts(spec, dim, rows, ts);
    var changedParts := JoinParts(spec, Map(dim, OnVersion(f)), Map(rows, f), ts);
    HistoricalCommutes(dim, f);
    OldPartsCommute(spec, dim, rows, f, ts);
    PairsCommute(spec, dim, rows, f);
    NewRowsCommute(spec, dim, rows, f);
    NextSkUnaffected(dim, f);
    var changed := ChangedPairs(spec, dim, rows);
    assert Map(Map(changed, OnPair(f)), Left()) == Map(Map(changed, Left()), f);
    NewVersionsCommute(spec, Map(changed, Left()), ts, NextSk(dim), f);
    NewVersionsCommute(spec, NewRows(spec, dim, rows), ts, NextSk(dim) + |changed|, f);
    AllCommutes(parts, changedParts, f);
  }

  lemma AllCommutes(parts: Parts, image: Parts, f: Row -> Row)
    requires image.historical == Map(parts.historical, OnVersion(f)) && image.kept == Map(parts.kept, OnVersion(f))
    requires image.closed == Map(parts.closed, OnVersion(f)) && image.revised == Map(parts.revised, OnVersion(f))
    requires image.added == Map(parts.added, OnVersion(f))
    ensures image.All() == Map(parts.All(), OnVersion(f))
  {
    MapConcat(parts.historical, parts.kept, OnVersion(f));
    MapConcat(parts.historical + parts.kept, parts.closed, OnVersion(f));
    MapConcat(parts.historical + parts.kept + parts.closed, parts.revised, OnVersion(f));
    MapConcat(parts.historical + parts.kept + parts.closed + parts.revised, parts.added, OnVersion(f));
  }

  // ----- Tokenisation -----

  lemma {:induction false} TokenizeLeavesOthers(pii: Pii, columns: seq<string>, r: Row, c: string)
    requires c !in columns
    ensures Get(TokenizeColumns(pii, columns, r), c) == Get(r, c)
  {
    if columns != [] {
      var n := |columns| - 1;
      TokenizeLeavesOthers(pii, columns[..n], r, c);
    }
  }

  lemma TokenizeIsHarmless(spec: MergeSpec, pii: Pii)
    requires Untracked(spec, pii)
    ensures Harmless(spec, TokenizeRow(pii))
  {
    forall r
      ensures KeyOf(spec, TokenizeRow(pii)(r)) == KeyOf(spec, r) && HashOf(spec, TokenizeRow(pii)(r)) == HashOf(spec, r)
    {
      forall c | c in spec.naturalKey || c in spec.tracked ensures Get(TokenizeRow(pii)(r), c) == Get(r, c) {
        TokenizeLeavesOthers(pii, pii.columns, r, c);
      }
      assert KeyOf(spec, TokenizeRow(pii)(r)) == KeyOf(spec, r);
      assert Project(spec.tracked, TokenizeRow(pii)(r)) == Project(spec.tracked, r);
    }
  }

  function TokenizeBatch(pii: Pii): Batch -> Batch {
    (b: Batch) => Batch(Map(b.rows, TokenizeRow(pii)), b.day)
  }

  /** Tokenising every batch gives the tokenised dimension: same versions, intervals and surrogate keys. */
  lemma {:induction false} TokenizedRun(spec: MergeSpec, pii: Pii, batches: seq<Batch>)
    requires Untracked(spec, pii)
    ensures Run(spec, Map(batches, TokenizeBatch(pii))) == Map(Run(spec, batches), OnVersion(TokenizeRow(pii)))
  {
    hide Merge;
    if batches != [] {
      var n := |batches| - 1;
      TokenizedRun(spec, pii, batches[..n]);
      assert Map(batches, TokenizeBatch(pii))[..n] == Map(batches[..n], TokenizeBatch(pii));
      TokenizeIsHarmless(spec, pii);
      var dim := Run(spec, batches[..n]);
      MergeCommutes(spec, dim, batches[n].rows, EffectiveDay(dim, batches[n].day), TokenizeRow(pii));
    }
  }

  /** Some row of some batch has this protected form. */
  ghost predicate Delivered(pii: Pii, batches: seq<Batch>, t: Row) {
    exists b :: b in batches && ProtectsSome(pii, b.rows, t)
  }

  /** With tokenisation on, over any run, no version of the dimension ever holds a listed column in plain text. */
  lemma {:induction false} NoPlainText(spec: MergeSpec, pii: Pii, batches: seq<Batch>)
    requires Distinct(pii.columns)
    ensures forall v :: v in Run(spec, Map(batches, TokenizeBatch(pii))) ==> Delivered(pii, batches, v.row)
  {
    hide Merge, ProtectsSome, NextSk;
    if batches != [] {
      var n := |batches| - 1;
      var b := batches[n];
      NoPlainText(spec, pii, batches[..n]);
      var tokenized := Map(batches, TokenizeBatch(pii));
      assert tokenized[..n] == Map(batches[..n], TokenizeBatch(pii));
      var dim := Run(spec, tokenized[..n]);
      OpenedProtected(spec, pii, dim, b.rows, EffectiveDay(dim, b.day));
      forall v | v in Run(spec, tokenized) ensures Delivered(pii, batches, v.row) {
        if v.sk >= NextSk(dim) {
          assert b in batches;
        } else {
          KeptFromBefore(spec, dim, tokenized[n].rows, EffectiveDay(dim, b.day), v);
          var w :| w in dim && w.row == v.row;
          var earlier :| earlier in batches[..n] && ProtectsSome(pii, earlier.rows, v.row);
          assert earlier in batches;
        }
      }
    }
  }
}
