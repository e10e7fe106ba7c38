/** The canonical row hash: stringify, join with a separator, digest. */
module Hashing {
  import opened Sequences
  import opened Frames

  const HASH_SEPARATOR: char := '\U{241F}'
  const NULL_SENTINEL: string := "<NULL>"

  /** `str()` and md5 are parameters: the model fixes neither. */
  datatype HashSpec = HashSpec(str: Value -> string, digest: string -> string)

  function Piece(spec: HashSpec, v: Value): string {
    if v.Null? then NULL_SENTINEL else spec.str(v)
  }

  function PieceOf(spec: HashSpec): Value -> string {
    (v: Value) => Piece(spec, v)
  }

  /** Python's `sep.join(parts)`. */
  function Join(sep: string, parts: seq<string>): string {
    if parts == [] then ""
    else if |parts| == 1 then parts[0]
    else Join(sep, parts[..|parts| - 1]) + sep + parts[|parts| - 1]
  }

  /** Joining puts one separator between neighbours and none at the ends. */
  lemma JoinSnoc(sep: string, parts: seq<string>, last: string)
    ensures Join(sep, []) == ""
    ensures Join(sep, parts + [last]) == if parts == [] then last else Join(sep, parts) + sep + last
  {
    assert (parts + [last])[..|parts|] == parts;
  }

  /** The digest of one row's values; `HashRow` and `WithRowHash` both compute it. */
  function RowHash(spec: HashSpec, values: seq<Value>): string {
    spec.digest(Join([HASH_SEPARATOR], Map(values, PieceOf(spec))))
  }

  /** `hash_row`, the reference implementation: one row at a time. */
  method HashRow(spec: HashSpec, values: seq<Value>) returns (hash: string)
    ensures hash == RowHash(spec, values)
  {
    var parts: seq<string> := [];
    for i := 0 to |values|
      invariant parts == Map(values[..i], PieceOf(spec))
    {
      if values[i].Null? {
        parts := parts + [NULL_SENTINEL];
      } else {
        parts := parts + [spec.str(values[i])];
      }
    }
    assert values[..|values|] == values;
    hash := spec.digest(Join([HASH_SEPARATOR], parts));
  }

  /** `with_row_hash`, the vectorised implementation: one column at a time over all rows. */
  method WithRowHash(spec: HashSpec, columns: seq<string>, rows: seq<Row>) returns (hashes: seq<string>)
    ensures |hashes| == |rows|
    ensures forall r :: 0 <= r < |rows| ==> hashes[r] == RowHash(spec, Project(columns, rows[r]))
  {
    var joined: seq<string> := seq(|rows|, r => "");
    for i := 0 to |columns|
      invariant |joined| == |rows|
      invariant forall r :: 0 <= r < |rows| ==>
        joined[r] == Join([HASH_SEPARATOR], Map(Project(columns, rows[r])[..i], PieceOf(spec)))
    {
      var piece := seq(|rows|, r requires 0 <= r < |rows| => Piece(spec, Get(rows[r], columns[i])));
      var previous := joined;
      joined :=
        if i == 0 then piece
        else seq(|rows|, r requires 0 <= r < |rows| => previous[r] + [HASH_SEPARATOR] + piece[r]);
      forall r | 0 <= r < |rows|
        ensures joined[r] == Join([HASH_SEPARATOR], Map(Project(columns, rows[r])[..i + 1], PieceOf(spec)))
      {
        JoinOneMore(spec, Project(columns, rows[r]), i);
      }
    }
    forall r | 0 <= r < |rows| ensures Project(columns, rows[r])[..|columns|] == Project(columns, rows[r]) {}
    hashes := Map(joined, spec.digest);
  }

  /** Joining one more column appends its piece. */
  lemma JoinOneMore(spec: HashSpec, values: seq<Value>, i: nat)
    requires i < |values|
    ensures Join([HASH_SEPARATOR], Map(values[..i + 1], PieceOf(spec))) ==
      var front, piece := Join([HASH_SEPARATOR], Map(values[..i], PieceOf(spec))), Piece(spec, values[i]);
      if i == 0 then piece else front + [HASH_SEPARATOR] + piece
  {
    var parts := Map(values[..i + 1], PieceOf(spec));
    assert parts[..i] == Map(values[..i], PieceOf(spec));
    assert parts[i] == Piece(spec, values[i]);
  }

  /** The hash spelled out: the digest of the texts, missing values as `<NULL>`, joined by U+241F. */
  lemma RowHashIs(spec: HashSpec, values: seq<Value>, texts: seq<string>)
    requires |texts| == |values|
    requires forall i :: 0 <= i < |values| ==> texts[i] == if values[i].Null? then "<NULL>" else spec.str(values[i])
    ensures RowHash(spec, values) == spec.digest(Join("\U{241F}", texts))
  {
    assert Map(values, PieceOf(spec)) == texts;
    assert [HASH_SEPARATOR] == "\U{241F}";
  }

  ghost predicate Injective(digest: string -> string) {
    forall a, b :: digest(a) == digest(b) ==> a == b
  }

  /** A value whose text can collide neither with the separator nor with the null sentinel. */
  predicate Clean(spec: HashSpec, v: Value) {
    SeparatorFree(spec, v) && (!v.Null? ==> Piece(spec, v) != NULL_SENTINEL)
  }

  predicate SeparatorFree(spec: HashSpec, v: Value) {
    HASH_SEPARATOR !in Piece(spec, v)
  }

  /** Two cells agree: both missing, or both present with the same text. */
  predicate Agree(spec: HashSpec, a: Value, b: Value) {
    if a.Null? || b.Null? then a == b else spec.str(a) == spec.str(b)
  }

  lemma SeparatorPosition(s: string, a: string, x: string, b: string, y: string, c: char)
    requires s == a + [c] + x && s == b + [c] + y
    requires c !in y
    ensures |a| <= |b|
  {
    assert s[|a|] == c;
    forall i | |b| < i < |s| ensures s[i] != c {
      assert s[i] == y[i - |b| - 1];
    }
  }

  lemma TailsAgree(a: string, x: string, b: string, y: string, c: char)
    requires a + [c] + x == b + [c] + y
    requires c !in x && c !in y
    ensures a == b && x == y
  {
    var s := a + [c] + x;
    SeparatorPosition(s, a, x, b, y, c);
    SeparatorPosition(s, b, y, a, x, c);
    assert a == s[..|a|] && b == s[..|a|];
    assert x == s[|a| + 1..] && y == s[|a| + 1..];
  }

  /** Joining with a separator that no part contains loses nothing. */
  lemma {:induction false} JoinInjective(c: char, a: seq<string>, b: seq<string>)
    requires |a| == |b|
    requires forall i :: 0 <= i < |a| ==> c !in a[i] && c !in b[i]
    requires Join([c], a) == Join([c], b)
    ensures a == b
  {
    var n := |a|;
    if n > 1 {
      TailsAgree(Join([c], a[..n - 1]), a[n - 1], Join([c], b[..n - 1]), b[n - 1], c);
      JoinInjective(c, a[..n - 1], b[..n - 1]);
      assert a == a[..n - 1] + [a[n - 1]] && b == b[..n - 1] + [b[n - 1]];
    }
  }

  /** With an injective digest and separator-free values, equal hashes mean equal pieces. */
  lemma HashEqualIffPieces(spec: HashSpec, a: seq<Value>, b: seq<Value>)
    requires |a| == |b|
    requires Injective(spec.digest)
    requires forall i :: 0 <= i < |a| ==> SeparatorFree(spec, a[i]) && SeparatorFree(spec, b[i])
    ensures RowHash(spec, a) == RowHash(spec, b) <==>
      forall i :: 0 <= i < |a| ==> Piece(spec, a[i]) == Piece(spec, b[i])
  {
    var pa, pb := Map(a, PieceOf(spec)), Map(b, PieceOf(spec));
    forall i | 0 <= i < |a| ensures HASH_SEPARATOR !in pa[i] && HASH_SEPARATOR !in pb[i] {
      assert SeparatorFree(spec, a[i]) && SeparatorFree(spec, b[i]);
    }
    if RowHash(spec, a) == RowHash(spec, b) {
      JoinInjective(HASH_SEPARATOR, pa, pb);
    }
    assert (forall i :: 0 <= i < |a| ==> Piece(spec, a[i]) == Piece(spec, b[i])) <==> pa == pb;
  }

  /** All pieces are the same, although somewhere a missing value meets a present one. */
  ghost predicate Disguised(spec: HashSpec, a: seq<Value>, b: seq<Value>)
    requires |a| == |b|
  {
    && (forall i :: 0 <= i < |a| ==> Piece(spec, a[i]) == Piece(spec, b[i]))
    && exists i :: 0 <= i < |a| && a[i].Null? != b[i].Null?
  }

  /** Comparing hashes goes wrong exactly on disguised rows: a present value spelled like the sentinel. */
  lemma HashMisleadsIff(spec: HashSpec, a: seq<Value>, b: seq<Value>)
    requires |a| == |b|
    requires Injective(spec.digest)
    requires forall i :: 0 <= i < |a| ==> SeparatorFree(spec, a[i]) && SeparatorFree(spec, b[i])
    ensures (RowHash(spec, a) == RowHash(spec, b)) != (forall i :: 0 <= i < |a| ==> Agree(spec, a[i], b[i]))
      <==> Disguised(spec, a, b)
  {
    hide RowHash, Injective, SeparatorFree;
    HashEqualIffPieces(spec, a, b);
    forall i | 0 <= i < |a|
      ensures Agree(spec, a[i], b[i]) <==> Piece(spec, a[i]) == Piece(spec, b[i]) && a[i].Null? == b[i].Null?
    {
    }
  }

  /** On clean values it never does: hashes are equal iff the values agree column by column. */
  lemma HashEqualIffAgree(spec: HashSpec, a: seq<Value>, b: seq<Value>)
    requires |a| == |b|
    requires Injective(spec.digest)
    requires forall i :: 0 <= i < |a| ==> Clean(spec, a[i]) && Clean(spec, b[i])
    ensures RowHash(spec, a) == RowHash(spec, b) <==> forall i :: 0 <= i < |a| ==> Agree(spec, a[i], b[i])
  {
    hide RowHash, Injective;
    forall i | 0 <= i < |a|
      ensures SeparatorFree(spec, a[i]) && SeparatorFree(spec, b[i])
      ensures Piece(spec, a[i]) == Piece(spec, b[i]) ==> a[i].Null? == b[i].Null?
    {
      assert Clean(spec, a[i]) && Clean(spec, b[i]);
    }
    HashMisleadsIff(spec, a, b);
  }

  lemma JoinTwo(spec: HashSpec, x: Value, y: Value)
    ensures Join([HASH_SEPARATOR], Map([x, y], PieceOf(spec))) == Piece(spec, x) + [HASH_SEPARATOR] + Piece(spec, y)
  {
    var parts := Map([x, y], PieceOf(spec));
    assert parts[..1] == [Piece(spec, x)];
  }

  /** Without separator-free values it can: the boundary between two columns moves. */
  lemma SeparatorHidesAChange(spec: HashSpec, x: Value, y: Value, u: Value, v: Value, a: string, b: string, c: string)
    requires !x.Null? && !y.Null? && !u.Null? && !v.Null? && b != ""
    requires spec.str(x) == a && spec.str(y) == b + [HASH_SEPARATOR] + c
    requires spec.str(u) == a + [HASH_SEPARATOR] + b && spec.str(v) == c
    ensures RowHash(spec, [x, y]) == RowHash(spec, [u, v]) && !Agree(spec, x, u)
  {
    JoinTwo(spec, x, y);
    JoinTwo(spec, u, v);
    assert a + [HASH_SEPARATOR] + (b + [HASH_SEPARATOR] + c) == a + [HASH_SEPARATOR] + b + [HASH_SEPARATOR] + c;
    assert |spec.str(x)| != |spec.str(u)|;
  }

  /** Cleanliness is needed: a present value spelled like the sentinel hides a change to missing. */
  lemma SentinelHidesAChange(spec: HashSpec)
    requires spec.str(Text(NULL_SENTINEL)) == NULL_SENTINEL
    ensures RowHash(spec, [Text(NULL_SENTINEL)]) == RowHash(spec, [Null])
    ensures !Agree(spec, Text(NULL_SENTINEL), Null)
  {
    assert Map([Text(NULL_SENTINEL)], PieceOf(spec)) == [NULL_SENTINEL] == Map([Null], PieceOf(spec));
  }
}
