/** The five data-quality rules: what each says about a row, and the loops that evaluate them. */
module DqRules {
  import opened Wrappers
  import opened Frames
  import opened Hashing

  datatype Severity = Critical | Warning

  datatype Rule =
    | NotNull(source: string, severity: Severity, columns: seq<string>)
    | Range(source: string, severity: Severity, column: string, min: Option<real>, max: Option<real>)
    | Unique(source: string, severity: Severity, columns: seq<string>)
    | ForeignKey(source: string, severity: Severity, column: string, refSource: string, refColumn: string)
    | Schema(source: string, severity: Severity, expected: set<string>)

  /** FK lookup sets, and Python's `float()` on text (None where it raises). */
  datatype Context = Context(lookups: map<(string, string), set<Value>>, parseFloat: string -> Option<real>)

  /** The stable rule id. */
  function Id(rule: Rule): string {
    match rule
    case NotNull(source, _, columns) => "not_null:" + source + ":" + Join(",", columns)
    case Range(source, _, column, _, _) => "range:" + source + ":" + column
    case Unique(source, _, columns) => "unique:" + source + ":" + Join(",", columns)
    case ForeignKey(source, _, column, refSource, refColumn) =>
      "foreign_key:" + source + "." + column + "->" + refSource + "." + refColumn
    case Schema(source, _, _) => "schema:" + source
  }

  function AsNumber(ctx: Context, v: Value): Option<real> {
    match v
    case Null => None
    case Num(n) => Some(n)
    case Text(s) => ctx.parseFloat(s)
  }

  predicate Within(n: real, min: Option<real>, max: Option<real>) {
    (min.Some? ==> min.value <= n) && (max.Some? ==> n <= max.value)
  }

  /** No other row has this row's key. */
  predicate OnlyOne(columns: seq<string>, rows: seq<Row>, i: nat)
    requires i < |rows|
  {
    forall j :: 0 <= j < |rows| && j != i ==> Project(columns, rows[j]) != Project(columns, rows[i])
  }

  /** Null passes: NotNull covers it. Text that is not a number fails. */
  predicate InRange(ctx: Context, min: Option<real>, max: Option<real>, v: Value) {
    v.Null? || (var n := AsNumber(ctx, v); n.Some? && Within(n.value, min, max))
  }

  /** Null passes, and so does every value when the target's set is unknown. */
  predicate Refers(ctx: Context, target: (string, string), v: Value) {
    target !in ctx.lookups || v.Null? || v in ctx.lookups[target]
  }

  /** Row `i` satisfies the rule. Missing values fail only NotNull; an unknown FK target passes every row. */
  predicate Passes(rule: Rule, frame: Frame, ctx: Context, i: nat)
    requires i < |frame.rows|
  {
    var row := frame.rows[i];
    match rule
    case NotNull(_, _, columns) => forall c :: c in columns ==> !Get(row, c).Null?
    case Range(_, _, column, min, max) => InRange(ctx, min, max, Get(row, column))
    case Unique(_, _, columns) => OnlyOne(columns, frame.rows, i)
    case ForeignKey(_, _, column, refSource, refColumn) => Refers(ctx, (refSource, refColumn), Get(row, column))
    case Schema(_, _, expected) => forall c :: c in expected ==> c in frame.columns
  }

  // ----- The evaluate methods -----

  method EvaluateNotNull(columns: seq<string>, rows: seq<Row>) returns (passes: seq<bool>)
    ensures |passes| == |rows|
    ensures forall i :: 0 <= i < |rows| ==> passes[i] == (forall c :: c in columns ==> !Get(rows[i], c).Null?)
  {
    passes := [];
    for i := 0 to |rows|
      invariant |passes| == i
      invariant forall k :: 0 <= k < i ==> passes[k] == (forall c :: c in columns ==> !Get(rows[k], c).Null?)
    {
      var ok := true;
      for j := 0 to |columns|
        invariant ok
        invariant forall k :: 0 <= k < j ==> !Get(rows[i], columns[k]).Null?
      {
        if Get(rows[i], columns[j]).Null? {
          ok := false;
          break;
        }
      }
      passes := passes + [ok];
    }
  }

  method EvaluateRange(column: string, min: Option<real>, max: Option<real>, rows: seq<Row>, ctx: Context)
    returns (passes: seq<bool>)
    ensures |passes| == |rows|
    ensures forall i :: 0 <= i < |rows| ==> passes[i] == InRange(ctx, min, max, Get(rows[i], column))
  {
    passes := [];
    for i := 0 to |rows|
      invariant |passes| == i
      invariant forall k :: 0 <= k < i ==> passes[k] == InRange(ctx, min, max, Get(rows[k], column))
    {
      var value := Get(rows[i], column);
      if value.Null? {
        passes := passes + [true];
        continue;
      }
      var numeric := AsNumber(ctx, value);
      if numeric.None? {
        passes := passes + [false];
        continue;
      }
      var ok := true;
      if min.Some? && numeric.value < min.value {
        ok := false;
      }
      if max.Some? && numeric.value > max.value {
        ok := false;
      }
      passes := passes + [ok];
    }
  }

  /** How often a key occurs. */
  function Occurrences(columns: seq<string>, rows: seq<Row>, key: seq<Value>): nat {
    if rows == [] then 0
    else
      var n := |rows| - 1;
      Occurrences(columns, rows[..n], key) + (if Project(columns, rows[n]) == key then 1 else 0)
  }

  lemma {:induction false} NoOccurrence(columns: seq<string>, rows: seq<Row>, key: seq<Value>)
    ensures Occurrences(columns, rows, key) == 0 <==> forall j :: 0 <= j < |rows| ==> Project(columns, rows[j]) != key
  {
    if rows != [] {
      var n := |rows| - 1;
      NoOccurrence(columns, rows[..n], key);
      assert forall j :: 0 <= j < n ==> rows[..n][j] == rows[j];
    }
  }

  /** A key occurs exactly once iff no other row has it. */
  lemma {:induction false} OneOccurrence(columns: seq<string>, rows: seq<Row>, i: nat)
    requires i < |rows|
    ensures Occurrences(columns, rows, Project(columns, rows[i])) == 1 <==> OnlyOne(columns, rows, i)
  {
    var n := |rows| - 1;
    var key := Project(columns, rows[i]);
    assert forall j :: 0 <= j < n ==> rows[..n][j] == rows[j];
    NoOccurrence(columns, rows[..n], key);
    if i < n {
      OneOccurrence(columns, rows[..n], i);
      assert rows[..n][i] == rows[i];
      if Project(columns, rows[n]) == key {
        assert !OnlyOne(columns, rows, i);
      }
    }
  }

  lemma OccurrencesStep(columns: seq<string>, rows: seq<Row>, i: nat, key: seq<Value>)
    requires i < |rows|
    ensures Occurrences(columns, rows[..i + 1], key) ==
      Occurrences(columns, rows[..i], key) + (if Project(columns, rows[i]) == key then 1 else 0)
  {
    assert rows[..i + 1][..i] == rows[..i];
  }

  /** The counters hold how often each key occurs. */
  ghost predicate CountsOf(counts: map<seq<Value>, nat>, columns: seq<string>, rows: seq<Row>) {
    && (forall k :: k in counts ==> counts[k] == Occurrences(columns, rows, k))
    && (forall k :: k !in counts ==> Occurrences(columns, rows, k) == 0)
  }

  lemma NothingCounted(columns: seq<string>)
    ensures CountsOf(map[], columns, [])
  {
  }

  lemma CountsStep(counts: map<seq<Value>, nat>, columns: seq<string>, rows: seq<Row>, i: nat)
    requires i < |rows| && CountsOf(counts, columns, rows[..i])
    ensures
      var key := Project(columns, rows[i]);
      CountsOf(counts[key := (if key in counts then counts[key] else 0) + 1], columns, rows[..i + 1])
  {
    hide Occurrences, Project;
    forall k
      ensures Occurrences(columns, rows[..i + 1], k) ==
        Occurrences(columns, rows[..i], k) + (if Project(columns, rows[i]) == k then 1 else 0)
    {
      OccurrencesStep(columns, rows, i, k);
    }
  }

  lemma CountedKey(counts: map<seq<Value>, nat>, columns: seq<string>, rows: seq<Row>, i: nat)
    requires i < |rows| && CountsOf(counts, columns, rows)
    ensures
      var key := Project(columns, rows[i]);
      key in counts && (counts[key] == 1 <==> OnlyOne(columns, rows, i))
  {
    hide Project, OnlyOne;
    OneOccurrence(columns, rows, i);
    NoOccurrence(columns, rows, Project(columns, rows[i]));
  }

  /** `UniqueRule.evaluate`: count every key, then mark the rows whose key was seen once. */
  method EvaluateUnique(columns: seq<string>, rows: seq<Row>) returns (passes: seq<bool>)
    ensures |passes| == |rows|
    ensures forall i :: 0 <= i < |rows| ==> passes[i] == OnlyOne(columns, rows, i)
  {
    hide CountsOf, OnlyOne, Project;
    var counts: map<seq<Value>, nat> := map[];
    assert CountsOf(counts, columns, rows[..0]) by { NothingCounted(columns); }
    for i := 0 to |rows|
      invariant CountsOf(counts, columns, rows[..i])
    {
      CountsStep(counts, columns, rows, i);
      var key := Project(columns, rows[i]);
      counts := counts[key := (if key in counts then counts[key] else 0) + 1];
    }
    assert rows[..|rows|] == rows;
    passes := [];
    for i := 0 to |rows|
      invariant |passes| == i
      invariant forall k :: 0 <= k < i ==> passes[k] == OnlyOne(columns, rows, k)
    {
      CountedKey(counts, columns, rows, i);
      passes := passes + [counts[Project(columns, rows[i])] == 1];
    }
  }

  method EvaluateForeignKey(column: string, target: (string, string), rows: seq<Row>, ctx: Context)
    returns (passes: seq<bool>)
    ensures |passes| == |rows|
    ensures forall i :: 0 <= i < |rows| ==> passes[i] == Refers(ctx, target, Get(rows[i], column))
  {
    if target !in ctx.lookups {
      return seq(|rows|, i => true);
    }
    passes := [];
    for i := 0 to |rows|
      invariant |passes| == i
      invariant forall k :: 0 <= k < i ==> passes[k] == Refers(ctx, target, Get(rows[k], column))
    {
      var value := Get(rows[i], column);
      if value.Null? {
        passes := passes + [true];
      } else {
        passes := passes + [value in ctx.lookups[target]];
      }
    }
  }

  method Evaluate(rule: Rule, frame: Frame, ctx: Context) returns (passes: seq<bool>)
    ensures |passes| == |frame.rows|
    ensures forall i :: 0 <= i < |frame.rows| ==> passes[i] == Passes(rule, frame, ctx, i)
  {
    match rule
    case NotNull(_, _, columns) => passes := EvaluateNotNull(columns, frame.rows);
    case Range(_, _, column, min, max) => passes := EvaluateRange(column, min, max, frame.rows, ctx);
    case Unique(_, _, columns) => passes := EvaluateUnique(columns, frame.rows);
    case ForeignKey(_, _, column, refSource, refColumn) =>
      passes := EvaluateForeignKey(column, (refSource, refColumn), frame.rows, ctx);
    case Schema(_, _, expected) =>
      var missing := set c | c in expected && c !in frame.columns;
      passes := seq(|frame.rows|, i => missing == {});
      if missing != {} {
        var c :| c in missing;
      } else {
        forall c | c in expected ensures c in frame.columns {
          assert c !in missing;
        }
      }
  }

  // ----- What the rules say -----

  /** Not-null: every listed cell is there and not missing. */
  lemma NotNullMeans(severity: Severity, source: string, columns: seq<string>, frame: Frame, ctx: Context, i: nat)
    requires i < |frame.rows|
    ensures Passes(NotNull(source, severity, columns), frame, ctx, i) <==>
      forall c :: c in columns ==> c in frame.rows[i] && frame.rows[i][c] != Null
  {
  }

  /** Two rows differ in a listed column. */
  ghost predicate Differ(columns: seq<string>, a: Row, b: Row) {
    exists c :: c in columns && Get(a, c) != Get(b, c)
  }

  lemma ProjectionsDiffer(columns: seq<string>, a: Row, b: Row)
    ensures Project(columns, a) != Project(columns, b) <==> Differ(columns, a, b)
  {
    if c :| c in columns && Get(a, c) != Get(b, c) {
      var k :| 0 <= k < |columns| && columns[k] == c;
      assert Project(columns, a)[k] != Project(columns, b)[k];
    } else {
      forall k | 0 <= k < |columns| ensures Project(columns, a)[k] == Project(columns, b)[k] {
        assert columns[k] in columns;
      }
      assert Project(columns, a) == Project(columns, b);
    }
  }

  /** Uniqueness: every other row differs from this one in a listed column. */
  lemma UniqueMeans(severity: Severity, source: string, columns: seq<string>, frame: Frame, ctx: Context, i: nat)
    requires i < |frame.rows|
    ensures Passes(Unique(source, severity, columns), frame, ctx, i) <==>
      forall j :: 0 <= j < |frame.rows| && j != i ==> Differ(columns, frame.rows[j], frame.rows[i])
  {
    hide Differ, Project;
    forall j | 0 <= j < |frame.rows|
      ensures Project(columns, frame.rows[j]) != Project(columns, frame.rows[i]) <==>
        Differ(columns, frame.rows[j], frame.rows[i])
    {
      ProjectionsDiffer(columns, frame.rows[j], frame.rows[i]);
    }
  }

  /** Schema: every expected column is in the frame. */
  lemma SchemaMeans(severity: Severity, source: string, expected: set<string>, frame: Frame, ctx: Context, i: nat)
    requires i < |frame.rows|
    ensures Passes(Schema(source, severity, expected), frame, ctx, i) <==>
      expected <= set c | c in frame.columns
  {
  }

  /** Both bounds are inclusive, either may be absent, and text counts as the number it spells. */
  lemma RangeMeans(ctx: Context, min: Option<real>, max: Option<real>, v: Value, n: real)
    ensures InRange(ctx, min, max, Null)
    ensures v == Num(n) || (v.Text? && ctx.parseFloat(v.text) == Some(n)) ==>
      (InRange(ctx, min, max, v) <==> (min.None? || n >= min.value) && (max.None? || n <= max.value))
    ensures v.Text? && ctx.parseFloat(v.text).None? ==> !InRange(ctx, min, max, v)
  {
  }

  /** Rule ids, spelled out. */
  lemma IdsSpelled(severity: Severity)
    ensures Id(NotNull("a", severity, ["x", "y"])) == "not_null:a:x,y"
    ensures Id(Unique("a", severity, ["x"])) == "unique:a:x"
    ensures Id(Range("a", severity, "x", None, None)) == "range:a:x"
  {
    assert ["x", "y"][..1] == ["x"];
    assert Join(",", ["x", "y"]) == "x,y" && Join(",", ["x"]) == "x";
    hide Join;
  }

  lemma ReferenceIdsSpelled(severity: Severity)
    ensures Id(ForeignKey("a", severity, "x", "b", "y")) == "foreign_key:a.x->b.y"
    ensures Id(Schema("a", severity, {})) == "schema:a"
  {
  }
}
