/** Change detection by hash, in terms of the tracked columns themselves. */
module Scd2Detection {
  import opened Sequences
  import opened Frames
  import opened Hashing
  import opened Scd2

  /** All tracked columns agree, missing with missing. */
  predicate TrackedAgree(spec: MergeSpec, a: Row, b: Row) {
    forall c :: c in spec.tracked ==> Agree(spec.hash, Get(a, c), Get(b, c))
  }

  /** No tracked value contains the separator or is spelled like the sentinel. */
  predicate TrackedClean(spec: MergeSpec, r: Row) {
    forall c :: c in spec.tracked ==> Clean(spec.hash, Get(r, c))
  }

  predicate TrackedSeparatorFree(spec: MergeSpec, r: Row) {
    forall c :: c in spec.tracked ==> SeparatorFree(spec.hash, Get(r, c))
  }

  /** The tracked columns are spelled alike, yet one of them is missing on one side only. */
  ghost predicate TrackedDisguised(spec: MergeSpec, a: Row, b: Row) {
    && (forall c :: c in spec.tracked ==> Piece(spec.hash, Get(a, c)) == Piece(spec.hash, Get(b, c)))
    && exists c :: c in spec.tracked && Get(a, c).Null? != Get(b, c).Null?
  }

  lemma ColumnsOfProjection(spec: MergeSpec, a: Row, b: Row)
    ensures
      var x, y := Project(spec.tracked, a), Project(spec.tracked, b);
      && (TrackedAgree(spec, a, b) <==> forall i :: 0 <= i < |x| ==> Agree(spec.hash, x[i], y[i]))
      && (TrackedDisguised(spec, a, b) <==> Disguised(spec.hash, x, y))
  {
    hide Agree, Piece;
    var x, y := Project(spec.tracked, a), Project(spec.tracked, b);
    forall c | c in spec.tracked
      ensures exists i :: 0 <= i < |x| && spec.tracked[i] == c && x[i] == Get(a, c) && y[i] == Get(b, c)
    {
      var i :| 0 <= i < |spec.tracked| && spec.tracked[i] == c;
    }
    forall i | 0 <= i < |x| ensures spec.tracked[i] in spec.tracked {}
  }

  /** Comparing row hashes is comparing tracked columns, exactly when the rows are not disguised. */
  lemma HashDetectsIff(spec: MergeSpec, a: Row, b: Row)
    requires Injective(spec.hash.digest)
    requires TrackedSeparatorFree(spec, a) && TrackedSeparatorFree(spec, b)
    ensures (HashOf(spec, a) == HashOf(spec, b) <==> TrackedAgree(spec, a, b)) <==> !TrackedDisguised(spec, a, b)
  {
    hide RowHash, Injective, SeparatorFree;
    ColumnsOfProjection(spec, a, b);
    HashMisleadsIff(spec.hash, Project(spec.tracked, a), Project(spec.tracked, b));
  }

  /** On clean rows it always is. */
  lemma HashDetects(spec: MergeSpec, a: Row, b: Row)
    requires Injective(spec.hash.digest)
    requires TrackedClean(spec, a) && TrackedClean(spec, b)
    ensures HashOf(spec, a) == HashOf(spec, b) <==> TrackedAgree(spec, a, b)
  {
    hide RowHash, Injective, Agree;
    var x, y := Project(spec.tracked, a), Project(spec.tracked, b);
    forall i | 0 <= i < |x| ensures Clean(spec.hash, x[i]) && Clean(spec.hash, y[i]) {
      assert spec.tracked[i] in spec.tracked;
    }
    ColumnsOfProjection(spec, a, b);
    HashEqualIffAgree(spec.hash, x, y);
  }

  /** The incoming row and the current version of its key hold no text that could mislead. */
  predicate Comparable(spec: MergeSpec, dim: seq<Version>, r: Row) {
    var v := CurrentFor(spec, dim, KeyOf(spec, r));
    TrackedClean(spec, r) && (v.Some? ==> TrackedClean(spec, v.value.row))
  }

  /** A row is UNCHANGED iff its key is current and all tracked columns agree, CHANGED iff one does not. */
  lemma CategoryIffColumns(spec: MergeSpec, dim: seq<Version>, r: Row)
    requires Injective(spec.hash.digest) && Comparable(spec, dim, r)
    ensures
      var v := CurrentFor(spec, dim, KeyOf(spec, r));
      && (Repeats(spec, dim)(r) <==> v.Some? && TrackedAgree(spec, r, v.value.row))
      && (Revises(spec, dim)(r) <==> v.Some? && !TrackedAgree(spec, r, v.value.row))
  {
    hide CurrentFor, HashOf, TrackedAgree, TrackedClean, TrackedSeparatorFree, TrackedDisguised, Injective;
    var v := CurrentFor(spec, dim, KeyOf(spec, r));
    if v.Some? {
      HashDetects(spec, r, v.value.row);
    }
  }

  /** So the merge's join-and-compare finds exactly those rows. */
  lemma MergeDetectsColumns(spec: MergeSpec, dim: seq<Version>, rows: seq<Row>, r: Row)
    requires WellKeyed(spec, dim, rows) && Injective(spec.hash.digest)
    requires r in rows && Comparable(spec, dim, r)
    ensures
      var v := CurrentFor(spec, dim, KeyOf(spec, r));
      && (r in Map(UnchangedPairs(spec, dim, rows), Left()) <==> v.Some? && TrackedAgree(spec, r, v.value.row))
      && (r in Map(ChangedPairs(spec, dim, rows), Left()) <==> v.Some? && !TrackedAgree(spec, r, v.value.row))
      && (r in NewRows(spec, dim, rows) <==> v.None?)
  {
    hide CurrentFor, HashOf, TrackedAgree, Comparable, UnchangedPairs, ChangedPairs, NewRows, Filter, Injective;
    UnchangedRowsByKey(spec, dim, rows);
    ChangedRowsByKey(spec, dim, rows);
    NewRowsByKey(spec, dim, rows);
    FilterIn(rows, Repeats(spec, dim));
    FilterIn(rows, Revises(spec, dim));
    FilterIn(rows, Introduces(spec, dim));
    CategoryIffColumns(spec, dim, r);
  }
}
