/** `run_dq_for_source`: exact split of a frame into clean and quarantined rows, and its guarantees. */
module DqRunner {
  import opened Sequences
  import opened Frames
  import opened Hashing
  import opened DqRules

  const REASON_COLUMN: string := "_dq_failure_reason"

  datatype Outcome = Outcome(ruleId: string, severity: Severity, rowsEvaluated: nat, rowsFailed: nat)

  datatype DqResult = DqResult(source: string, rowsIn: nat, clean: Frame, failing: seq<Row>, outcomes: seq<Outcome>)

  function FailsCritically(frame: Frame, ctx: Context, i: nat): Rule -> bool
    requires i < |frame.rows|
  {
    (r: Rule) => r.severity.Critical? && !Passes(r, frame, ctx, i)
  }

  /** The critical rules that row `i` fails, in rule order. */
  function FailedCritical(rules: seq<Rule>, frame: Frame, ctx: Context, i: nat): seq<Rule>
    requires i < |frame.rows|
  {
    Filter(rules, FailsCritically(frame, ctx, i))
  }

  predicate IsClean(rules: seq<Rule>, frame: Frame, ctx: Context, i: nat)
    requires i < |frame.rows|
  {
    forall r :: r in rules && r.severity.Critical? ==> Passes(r, frame, ctx, i)
  }

  lemma CleanIffNoneFailed(rules: seq<Rule>, frame: Frame, ctx: Context, i: nat)
    requires i < |frame.rows|
    ensures FailedCritical(rules, frame, ctx, i) == [] <==> IsClean(rules, frame, ctx, i)
  {
    hide Passes, Filter;
    var failed := FailedCritical(rules, frame, ctx, i);
    FilterIn(rules, FailsCritically(frame, ctx, i));
    if failed != [] {
      assert failed[0] in failed;
    }
    if !IsClean(rules, frame, ctx, i) {
      var r :| r in rules && r.severity.Critical? && !Passes(r, frame, ctx, i);
      assert r in failed;
    }
  }

  function IdOf(): Rule -> string {
    (r: Rule) => Id(r)
  }

  function Reason(rules: seq<Rule>, frame: Frame, ctx: Context, i: nat): string
    requires i < |frame.rows|
  {
    Join(";", Map(FailedCritical(rules, frame, ctx, i), IdOf()))
  }

  /** The positions below `n` whose rows are clean (or are not), in order. */
  function Positions(rules: seq<Rule>, frame: Frame, ctx: Context, clean: bool, n: nat): (ps: seq<nat>)
    requires n <= |frame.rows|
    ensures forall k :: 0 <= k < |ps| ==> ps[k] < n
  {
    if n == 0 then []
    else
      Positions(rules, frame, ctx, clean, n - 1)
      + (if IsClean(rules, frame, ctx, n - 1) == clean then [n - 1] else [])
  }

  function CleanRows(rules: seq<Rule>, frame: Frame, ctx: Context): seq<Row> {
    var ps := Positions(rules, frame, ctx, true, |frame.rows|);
    seq(|ps|, k requires 0 <= k < |ps| => frame.rows[ps[k]])
  }

  /** A quarantined row carries the ids of exactly the critical rules it failed, in rule order. */
  function QuarantinedRows(rules: seq<Rule>, frame: Frame, ctx: Context): seq<Row> {
    var ps := Positions(rules, frame, ctx, false, |frame.rows|);
    seq(|ps|, k requires 0 <= k < |ps| =>
      frame.rows[ps[k]][REASON_COLUMN := Text(Reason(rules, frame, ctx, ps[k]))])
  }

  lemma {:induction false} PositionsIncrease(rules: seq<Rule>, frame: Frame, ctx: Context, clean: bool, n: nat)
    requires n <= |frame.rows|
    ensures Increasing(Positions(rules, frame, ctx, clean, n))
  {
    hide IsClean, Increasing;
    if n == 0 {
      NoneIncreasing();
    } else {
      var before := Positions(rules, frame, ctx, clean, n - 1);
      PositionsIncrease(rules, frame, ctx, clean, n - 1);
      IncreasingSnoc(before, n - 1);
      assert before + [] == before;
    }
  }

  lemma {:induction false} PositionsMembers(rules: seq<Rule>, frame: Frame, ctx: Context, clean: bool, n: nat, i: nat)
    requires n <= |frame.rows|
    ensures i in Positions(rules, frame, ctx, clean, n) <==> i < n && IsClean(rules, frame, ctx, i) == clean
  {
    hide IsClean;
    if n > 0 {
      PositionsMembers(rules, frame, ctx, clean, n - 1, i);
    }
  }

  /** Positions are increasing and list exactly the rows of that kind: nothing lost, repeated or reordered. */
  lemma PositionsExact(rules: seq<Rule>, frame: Frame, ctx: Context, clean: bool, n: nat)
    requires n <= |frame.rows|
    ensures
      var ps := Positions(rules, frame, ctx, clean, n);
      && Increasing(ps)
      && (forall i: nat :: i in ps <==> i < n && IsClean(rules, frame, ctx, i) == clean)
  {
    hide IsClean, Positions, Increasing;
    PositionsIncrease(rules, frame, ctx, clean, n);
    forall i: nat
      ensures i in Positions(rules, frame, ctx, clean, n) <==> i < n && IsClean(rules, frame, ctx, i) == clean
    {
      PositionsMembers(rules, frame, ctx, clean, n, i);
    }
  }

  /** Every row is clean or quarantined, never both. */
  lemma {:induction false} SplitIsExact(rules: seq<Rule>, frame: Frame, ctx: Context, n: nat)
    requires n <= |frame.rows|
    ensures |Positions(rules, frame, ctx, true, n)| + |Positions(rules, frame, ctx, false, n)| == n
  {
    hide IsClean;
    if n > 0 {
      SplitIsExact(rules, frame, ctx, n - 1);
    }
  }

  function FailCount(rule: Rule, frame: Frame, ctx: Context, n: nat): nat
    requires n <= |frame.rows|
  {
    if n == 0 then 0
    else FailCount(rule, frame, ctx, n - 1) + (if Passes(rule, frame, ctx, n - 1) then 0 else 1)
  }

  function OutcomeOf(rule: Rule, frame: Frame, ctx: Context): Outcome {
    Outcome(Id(rule), rule.severity, |frame.rows|, FailCount(rule, frame, ctx, |frame.rows|))
  }

  function OutcomeIn(frame: Frame, ctx: Context): Rule -> Outcome {
    (r: Rule) => OutcomeOf(r, frame, ctx)
  }

  /** What the run returns; without rules or rows everything is clean and nothing is reported. */
  function DqSpec(source: string, rules: seq<Rule>, frame: Frame, ctx: Context): DqResult {
    if rules == [] || frame.rows == [] then DqResult(source, |frame.rows|, frame, [], [])
    else DqResult(
      source, |frame.rows|, Frame(frame.columns, CleanRows(rules, frame, ctx)),
      QuarantinedRows(rules, frame, ctx), Map(rules, OutcomeIn(frame, ctx)))
  }

  method CountFailures(rule: Rule, passes: seq<bool>, frame: Frame, ctx: Context) returns (failed: nat)
    requires |passes| == |frame.rows|
    requires forall i :: 0 <= i < |passes| ==> passes[i] == Passes(rule, frame, ctx, i)
    ensures failed == FailCount(rule, frame, ctx, |frame.rows|)
  {
    hide Passes;
    failed := 0;
    for i := 0 to |passes|
      invariant failed == FailCount(rule, frame, ctx, i)
    {
      if !passes[i] {
        failed := failed + 1;
      }
    }
  }

  /** The ids of the critical rules row `i` failed, from the evaluated pass lists. */
  method FailedIds(rules: seq<Rule>, passes: seq<seq<bool>>, frame: Frame, ctx: Context, i: nat)
    returns (ids: seq<string>)
    requires i < |frame.rows| && |passes| == |rules|
    requires forall k :: 0 <= k < |rules| ==> |passes[k]| == |frame.rows|
    requires forall k :: 0 <= k < |rules| ==> passes[k][i] == Passes(rules[k], frame, ctx, i)
    ensures ids == Map(FailedCritical(rules, frame, ctx, i), IdOf())
  {
    hide Passes;
    ids := [];
    for k := 0 to |rules|
      invariant ids == Map(FailedCritical(rules[..k], frame, ctx, i), IdOf())
    {
      assert rules[..k + 1] == rules[..k] + [rules[k]];
      FilterSnoc(rules[..k], rules[k], FailsCritically(frame, ctx, i));
      if rules[k].severity.Critical? && !passes[k][i] {
        ids := ids + [Id(rules[k])];
      }
    }
    assert rules[..|rules|] == rules;
  }

  method RunDqForSource(source: string, rules: seq<Rule>, frame: Frame, ctx: Context) returns (result: DqResult)
    ensures result == DqSpec(source, rules, frame, ctx)
  {
    hide Passes, IsClean, FailedCritical;
    if rules == [] || |frame.rows| == 0 {
      return DqResult(source, |frame.rows|, frame, [], []);
    }
    var passes: seq<seq<bool>> := [];
    var outcomes: seq<Outcome> := [];
    for k := 0 to |rules|
      invariant |passes| == |outcomes| == k
      invariant forall j :: 0 <= j < k ==> |passes[j]| == |frame.rows|
      invariant forall j, i :: 0 <= j < k && 0 <= i < |frame.rows| ==> passes[j][i] == Passes(rules[j], frame, ctx, i)
      invariant forall j :: 0 <= j < k ==> outcomes[j] == OutcomeOf(rules[j], frame, ctx)
    {
      var p := Evaluate(rules[k], frame, ctx);
      var failed := CountFailures(rules[k], p, frame, ctx);
      outcomes := outcomes + [Outcome(Id(rules[k]), rules[k].severity, |frame.rows|, failed)];
      passes := passes + [p];
    }
    var clean, failing := SplitRows(rules, passes, frame, ctx);
    assert outcomes == Map(rules, OutcomeIn(frame, ctx));
    result := DqResult(source, |frame.rows|, Frame(frame.columns, clean), failing, outcomes);
  }

  /** The row loop: compose each row's reason and send it to the clean or the failing side. */
  method SplitRows(rules: seq<Rule>, passes: seq<seq<bool>>, frame: Frame, ctx: Context)
    returns (clean: seq<Row>, failing: seq<Row>)
    requires |passes| == |rules|
    requires forall k :: 0 <= k < |rules| ==> |passes[k]| == |frame.rows|
    requires forall k, i :: 0 <= k < |rules| && 0 <= i < |frame.rows| ==>
      passes[k][i] == Passes(rules[k], frame, ctx, i)
    ensures clean == CleanRows(rules, frame, ctx)
    ensures failing == QuarantinedRows(rules, frame, ctx)
  {
    hide Passes, IsClean, FailedCritical;
    clean, failing := [], [];
    for i := 0 to |frame.rows|
      invariant
        var ps := Positions(rules, frame, ctx, true, i);
        |clean| == |ps| && forall k :: 0 <= k < |ps| ==> clean[k] == frame.rows[ps[k]]
      invariant
        var ps := Positions(rules, frame, ctx, false, i);
        |failing| == |ps| && forall k :: 0 <= k < |ps| ==>
          failing[k] == frame.rows[ps[k]][REASON_COLUMN := Text(Reason(rules, frame, ctx, ps[k]))]
    {
      var ids := FailedIds(rules, passes, frame, ctx, i);
      CleanIffNoneFailed(rules, frame, ctx, i);
      if |ids| > 0 {
        failing := failing + [frame.rows[i][REASON_COLUMN := Text(Join(";", ids))]];
      } else {
        clean := clean + [frame.rows[i]];
      }
    }
  }

  // ----- Guarantees -----

  /** Rows are conserved. */
  lemma DqConservesRows(source: string, rules: seq<Rule>, frame: Frame, ctx: Context)
    ensures
      var result := DqSpec(source, rules, frame, ctx);
      |result.clean.rows| + |result.failing| == result.rowsIn == |frame.rows|
  {
    SplitIsExact(rules, frame, ctx, |frame.rows|);
  }

  /** A rule a row passes in the whole frame it passes among the clean rows, uniqueness included. */
  lemma PassesAmongClean(rules: seq<Rule>, frame: Frame, ctx: Context, rule: Rule, k: nat)
    requires k < |CleanRows(rules, frame, ctx)|
    requires
      var ps := Positions(rules, frame, ctx, true, |frame.rows|);
      Passes(rule, frame, ctx, ps[k])
    ensures Passes(rule, Frame(frame.columns, CleanRows(rules, frame, ctx)), ctx, k)
  {
    hide IsClean;
    PositionsExact(rules, frame, ctx, true, |frame.rows|);
  }

  /** Running DQ on the clean rows with the same lookups rejects nothing. */
  lemma DqIsIdempotent(source: string, rules: seq<Rule>, frame: Frame, ctx: Context)
    ensures
      var once := DqSpec(source, rules, frame, ctx);
      var twice := DqSpec(source, rules, once.clean, ctx);
      twice.failing == [] && twice.clean == once.clean
  {
    hide Passes;
    var once := DqSpec(source, rules, frame, ctx);
    if rules != [] && frame.rows != [] && once.clean.rows != [] {
      var ps := Positions(rules, frame, ctx, true, |frame.rows|);
      PositionsExact(rules, frame, ctx, true, |frame.rows|);
      forall k: nat | k < |once.clean.rows| ensures IsClean(rules, once.clean, ctx, k) {
        assert ps[k] in ps;
        forall r | r in rules && r.severity.Critical? ensures Passes(r, once.clean, ctx, k) {
          PassesAmongClean(rules, frame, ctx, r, k);
        }
      }
      hide IsClean;
      AllClean(rules, once.clean, ctx, |once.clean.rows|);
      var clean := CleanRows(rules, once.clean, ctx);
      assert clean == once.clean.rows;
    }
  }

  lemma {:induction false} AllClean(rules: seq<Rule>, frame: Frame, ctx: Context, n: nat)
    requires n <= |frame.rows|
    requires forall i: nat :: i < n ==> IsClean(rules, frame, ctx, i)
    ensures Positions(rules, frame, ctx, true, n) == seq(n, i => i)
    ensures Positions(rules, frame, ctx, false, n) == []
  {
    hide IsClean;
    if n > 0 {
      AllClean(rules, frame, ctx, n - 1);
      assert seq(n, i => i) == seq(n - 1, i => i) + [n - 1];
    }
  }

  /** A critical uniqueness rule makes its columns a key of the clean rows. */
  lemma CleanRowsKeyed(source: string, rules: seq<Rule>, frame: Frame, ctx: Context, columns: seq<string>)
    requires Unique(source, Critical, columns) in rules
    ensures KeyUnique(columns, DqSpec(source, rules, frame, ctx).clean.rows)
  {
    var clean := DqSpec(source, rules, frame, ctx).clean;
    if frame.rows != [] {
      var ps := Positions(rules, frame, ctx, true, |frame.rows|);
      PositionsExact(rules, frame, ctx, true, |frame.rows|);
      var keys := Map(clean.rows, ProjectOf(columns));
      forall a, b | 0 <= a < b < |keys| ensures keys[a] != keys[b] {
        assert ps[a] in ps;
        assert Passes(Unique(source, Critical, columns), frame, ctx, ps[a]);
        assert ps[a] != ps[b];
      }
    }
  }

  /** A critical not-null rule leaves no clean row without a value. */
  lemma CleanRowsNotNull(source: string, rules: seq<Rule>, frame: Frame, ctx: Context, columns: seq<string>, c: string)
    requires NotNull(source, Critical, columns) in rules && c in columns
    ensures forall r :: r in DqSpec(source, rules, frame, ctx).clean.rows ==> !Get(r, c).Null?
  {
    var clean := DqSpec(source, rules, frame, ctx).clean.rows;
    if frame.rows != [] {
      var ps := Positions(rules, frame, ctx, true, |frame.rows|);
      PositionsExact(rules, frame, ctx, true, |frame.rows|);
      forall r | r in clean ensures !Get(r, c).Null? {
        var k :| 0 <= k < |clean| && clean[k] == r;
        assert ps[k] in ps;
        assert Passes(NotNull(source, Critical, columns), frame, ctx, ps[k]);
      }
    }
  }

  /** A critical FK rule leaves only references into its lookup set. */
  lemma CleanRowsReference(
      source: string, rules: seq<Rule>, frame: Frame, ctx: Context, column: string, target: (string, string))
    requires ForeignKey(source, Critical, column, target.0, target.1) in rules
    requires target in ctx.lookups
    ensures forall r :: r in DqSpec(source, rules, frame, ctx).clean.rows ==>
      Get(r, column).Null? || Get(r, column) in ctx.lookups[target]
  {
    var clean := DqSpec(source, rules, frame, ctx).clean.rows;
    if frame.rows != [] {
      var ps := Positions(rules, frame, ctx, true, |frame.rows|);
      PositionsExact(rules, frame, ctx, true, |frame.rows|);
      forall r | r in clean ensures Get(r, column).Null? || Get(r, column) in ctx.lookups[target] {
        var k :| 0 <= k < |clean| && clean[k] == r;
        assert ps[k] in ps;
        assert Passes(ForeignKey(source, Critical, column, target.0, target.1), frame, ctx, ps[k]);
      }
    }
  }

  lemma {:induction false} FailCountPositive(rule: Rule, frame: Frame, ctx: Context, n: nat)
    requires n <= |frame.rows|
    ensures FailCount(rule, frame, ctx, n) > 0 <==> exists i: nat :: i < n && !Passes(rule, frame, ctx, i)
  {
    hide Passes;
    if n > 0 {
      FailCountPositive(rule, frame, ctx, n - 1);
    }
  }

  predicate CriticalFailure(o: Outcome) {
    o.severity.Critical? && o.rowsFailed > 0
  }

  /** Some row is quarantined exactly when some critical rule reports a failing row. */
  lemma QuarantineReported(source: string, rules: seq<Rule>, frame: Frame, ctx: Context)
    requires DqSpec(source, rules, frame, ctx).failing != []
    ensures exists k :: 0 <= k < |rules| && CriticalFailure(OutcomeOf(rules[k], frame, ctx))
  {
    hide Passes, FailCount;
    var ps := Positions(rules, frame, ctx, false, |frame.rows|);
    PositionsExact(rules, frame, ctx, false, |frame.rows|);
    assert ps[0] in ps;
    var r :| r in rules && r.severity.Critical? && !Passes(r, frame, ctx, ps[0]);
    FailCountPositive(r, frame, ctx, |frame.rows|);
    var k :| 0 <= k < |rules| && rules[k] == r;
    assert CriticalFailure(OutcomeOf(rules[k], frame, ctx));
  }

  lemma FailureQuarantines(source: string, rules: seq<Rule>, frame: Frame, ctx: Context, k: nat)
    requires k < |rules| && frame.rows != [] && CriticalFailure(OutcomeOf(rules[k], frame, ctx))
    ensures DqSpec(source, rules, frame, ctx).failing != []
  {
    hide Passes, FailCount, Positions;
    PositionsExact(rules, frame, ctx, false, |frame.rows|);
    FailCountPositive(rules[k], frame, ctx, |frame.rows|);
    var i: nat :| i < |frame.rows| && !Passes(rules[k], frame, ctx, i);
    assert rules[k] in rules;
    assert i in Positions(rules, frame, ctx, false, |frame.rows|);
  }

  lemma QuarantineIffCriticalFailure(source: string, rules: seq<Rule>, frame: Frame, ctx: Context)
    ensures
      var result := DqSpec(source, rules, frame, ctx);
      result.failing != [] <==> exists k :: 0 <= k < |result.outcomes| && CriticalFailure(result.outcomes[k])
  {
    hide QuarantinedRows, CleanRows, OutcomeOf, CriticalFailure;
    var result := DqSpec(source, rules, frame, ctx);
    if result.failing != [] {
      QuarantineReported(source, rules, frame, ctx);
      var k :| 0 <= k < |rules| && CriticalFailure(OutcomeOf(rules[k], frame, ctx));
      assert CriticalFailure(result.outcomes[k]);
    }
    if k :| 0 <= k < |result.outcomes| && CriticalFailure(result.outcomes[k]) {
      FailureQuarantines(source, rules, frame, ctx, k);
    }
  }

  // ----- What is in the two halves -----

  /** `ks` are, in rule order, the critical rules that row `i` does not pass. */
  ghost predicate BrokenRules(rules: seq<Rule>, frame: Frame, ctx: Context, i: nat, ks: seq<nat>)
    requires i < |frame.rows|
  {
    && Increasing(ks)
    && (forall m :: 0 <= m < |ks| ==> ks[m] < |rules|)
    && (forall k: nat :: k in ks <==> k < |rules| && rules[k].severity.Critical? && !Passes(rules[k], frame, ctx, i))
  }

  /** The ids of those rules, joined with semicolons. */
  function IdsText(rules: seq<Rule>, ks: seq<nat>): string
    requires forall m :: 0 <= m < |ks| ==> ks[m] < |rules|
  {
    Join(";", seq(|ks|, m requires 0 <= m < |ks| => Id(rules[ks[m]])))
  }

  /** The record is row `i` with every column as it was, and a reason naming the critical rules it breaks. */
  ghost predicate RecordOf(rules: seq<Rule>, frame: Frame, ctx: Context, i: nat, record: Row)
    requires i < |frame.rows|
  {
    && record - {"_dq_failure_reason"} == frame.rows[i] - {"_dq_failure_reason"}
    && "_dq_failure_reason" in record
    && exists ks :: NamesBroken(rules, frame, ctx, i, ks, record["_dq_failure_reason"])
  }

  ghost predicate NamesBroken(rules: seq<Rule>, frame: Frame, ctx: Context, i: nat, ks: seq<nat>, reason: Value)
    requires i < |frame.rows|
  {
    BrokenRules(rules, frame, ctx, i, ks) && reason == Text(IdsText(rules, ks))
  }

  lemma ReasonNamesBroken(rules: seq<Rule>, frame: Frame, ctx: Context, i: nat) returns (ks: seq<nat>)
    requires i < |frame.rows|
    ensures BrokenRules(rules, frame, ctx, i, ks) && Reason(rules, frame, ctx, i) == IdsText(rules, ks)
  {
    hide Passes, Filter, Join, Id;
    ks := FilterLists(rules, FailsCritically(frame, ctx, i));
    assert Map(Pick(rules, ks), IdOf()) == seq(|ks|, m requires 0 <= m < |ks| => Id(rules[ks[m]]));
  }

  /**
   * The two halves, row by row: the clean rows are, in order, exactly the rows that pass every critical
   * rule, unchanged; the failing records are, in order, exactly the other rows, each with its reason.
   */
  lemma HalvesExact(source: string, rules: seq<Rule>, frame: Frame, ctx: Context)
    returns (kept: seq<nat>, broken: seq<nat>)
    ensures Increasing(kept) && Increasing(broken)
    ensures forall i: nat :: i in kept <==>
      i < |frame.rows| && forall r :: r in rules && r.severity.Critical? ==> Passes(r, frame, ctx, i)
    ensures forall i: nat :: i in broken <==>
      i < |frame.rows| && exists r :: r in rules && r.severity.Critical? && !Passes(r, frame, ctx, i)
    ensures
      var result := DqSpec(source, rules, frame, ctx);
      && (forall j :: 0 <= j < |kept| ==> kept[j] < |frame.rows|)
      && (rules == [] || frame.rows == [] ==> result.outcomes == [])
      && result.clean == Frame(frame.columns, Pick(frame.rows, kept))
      && |result.failing| == |broken|
      && (forall j :: 0 <= j < |broken| ==>
        broken[j] < |frame.rows| && RecordOf(rules, frame, ctx, broken[j], result.failing[j]))
  {
    hide Passes, Positions, Reason, RecordOf;
    kept := Positions(rules, frame, ctx, true, |frame.rows|);
    broken := Positions(rules, frame, ctx, false, |frame.rows|);
    PositionsExact(rules, frame, ctx, true, |frame.rows|);
    PositionsExact(rules, frame, ctx, false, |frame.rows|);
    if rules == [] || frame.rows == [] {
      AllOrNothing(rules, frame, ctx);
    } else {
      var failing := DqSpec(source, rules, frame, ctx).failing;
      forall j | 0 <= j < |broken| ensures RecordOf(rules, frame, ctx, broken[j], failing[j]) {
        RecordIsOf(rules, frame, ctx, broken[j]);
      }
    }
  }

  lemma RecordIsOf(rules: seq<Rule>, frame: Frame, ctx: Context, i: nat)
    requires i < |frame.rows|
    ensures RecordOf(rules, frame, ctx, i, frame.rows[i][REASON_COLUMN := Text(Reason(rules, frame, ctx, i))])
  {
    hide Reason, BrokenRules;
    var ks := ReasonNamesBroken(rules, frame, ctx, i);
    assert NamesBroken(rules, frame, ctx, i, ks, Text(Reason(rules, frame, ctx, i)));
  }

  lemma AllOrNothing(rules: seq<Rule>, frame: Frame, ctx: Context)
    requires rules == [] || frame.rows == []
    ensures Positions(rules, frame, ctx, false, |frame.rows|) == []
    ensures Pick(frame.rows, Positions(rules, frame, ctx, true, |frame.rows|)) == frame.rows
  {
    hide Passes;
    if rules == [] {
      AllClean(rules, frame, ctx, |frame.rows|);
    }
  }

  // ----- Nothing is lost -----

  function WithoutReason(): Row -> Row {
    (r: Row) => r - {"_dq_failure_reason"}
  }

  /** Two halves and the whole, reasons aside. */
  ghost predicate SameRows(kept: seq<Row>, broken: seq<Row>, rows: seq<Row>) {
    var bare := WithoutReason();
    multiset(Map(kept, bare)) + multiset(Map(broken, bare)) == multiset(Map(rows, bare))
  }

  lemma SameRowsSnoc(kept: seq<Row>, broken: seq<Row>, rows: seq<Row>, r: Row)
    requires SameRows(kept, broken, rows)
    ensures SameRows(kept + [r], broken, rows + [r]) && SameRows(kept, broken + [r], rows + [r])
  {
    hide WithoutReason, Map;
    var bare := WithoutReason();
    MapOne(r, bare);
    MapConcat(kept, [r], bare);
    MapConcat(broken, [r], bare);
    MapConcat(rows, [r], bare);
  }

  /** Clean rows and failing records together are the rows of the frame, reasons aside. */
  lemma DqKeepsEveryRow(source: string, rules: seq<Rule>, frame: Frame, ctx: Context)
    ensures
      var result := DqSpec(source, rules, frame, ctx);
      multiset(Map(result.clean.rows, WithoutReason())) + multiset(Map(result.failing, WithoutReason()))
        == multiset(Map(frame.rows, WithoutReason()))
  {
    hide WithoutReason, Map, Positions, CleanRows, QuarantinedRows;
    var result := DqSpec(source, rules, frame, ctx);
    if rules == [] || frame.rows == [] {
      assert multiset(Map([], WithoutReason())) == multiset{} by { NothingMapped(); }
    } else {
      var n := |frame.rows|;
      HalvesOf(rules, frame, ctx, n);
      assert frame.rows[..n] == frame.rows;
      HalvesBare(rules, frame, ctx);
    }
  }

  lemma NothingMapped()
    ensures Map([], WithoutReason()) == []
  {
  }

  lemma BareIgnoresReason(r: Row, reason: Value)
    ensures WithoutReason()(r[REASON_COLUMN := reason]) == WithoutReason()(r)
  {
  }

  lemma HalvesBare(rules: seq<Rule>, frame: Frame, ctx: Context)
    ensures
      var n := |frame.rows|;
      && CleanRows(rules, frame, ctx) == Pick(frame.rows, Positions(rules, frame, ctx, true, n))
      && Map(QuarantinedRows(rules, frame, ctx), WithoutReason()) ==
        Map(Pick(frame.rows, Positions(rules, frame, ctx, false, n)), WithoutReason())
  {
    hide Passes, Positions, Reason, WithoutReason;
    var broken := Positions(rules, frame, ctx, false, |frame.rows|);
    var failing, picked := QuarantinedRows(rules, frame, ctx), Pick(frame.rows, broken);
    forall j | 0 <= j < |broken| ensures WithoutReason()(failing[j]) == WithoutReason()(picked[j]) {
      BareIgnoresReason(picked[j], Text(Reason(rules, frame, ctx, broken[j])));
    }
  }

  lemma NoRowsSame()
    ensures SameRows([], [], [])
  {
  }

  lemma {:induction false} HalvesOf(rules: seq<Rule>, frame: Frame, ctx: Context, n: nat)
    requires n <= |frame.rows|
    ensures SameRows(
      Pick(frame.rows, Positions(rules, frame, ctx, true, n)),
      Pick(frame.rows, Positions(rules, frame, ctx, false, n)),
      frame.rows[..n])
  {
    hide IsClean, SameRows;
    if n == 0 {
      NoRowsSame();
      assert Pick(frame.rows, []) == [];
    } else {
      hide Pick, Positions;
      var r := frame.rows[n - 1];
      var kept := Pick(frame.rows, Positions(rules, frame, ctx, true, n - 1));
      var broken := Pick(frame.rows, Positions(rules, frame, ctx, false, n - 1));
      HalvesOf(rules, frame, ctx, n - 1);
      PickOneMore(rules, frame, ctx, true, n);
      PickOneMore(rules, frame, ctx, false, n);
      SameRowsSnoc(kept, broken, frame.rows[..n - 1], r);
      assert frame.rows[..n] == frame.rows[..n - 1] + [r];
      assert kept + [] == kept && broken + [] == broken;
    }
  }

  lemma PickOneMore(rules: seq<Rule>, frame: Frame, ctx: Context, clean: bool, n: nat)
    requires 0 < n <= |frame.rows|
    ensures Pick(frame.rows, Positions(rules, frame, ctx, clean, n)) ==
      Pick(frame.rows, Positions(rules, frame, ctx, clean, n - 1))
      + (if IsClean(rules, frame, ctx, n - 1) == clean then [frame.rows[n - 1]] else [])
  {
    hide IsClean;
  }

  // ----- What is reported -----

  /** The rows below `n` that do not pass the rule. */
  ghost function FailingBelow(rule: Rule, frame: Frame, ctx: Context, n: nat): set<nat>
    requires n <= |frame.rows|
  {
    set i: nat | i < n && !Passes(rule, frame, ctx, i)
  }

  lemma NoneBelow(rule: Rule, frame: Frame, ctx: Context)
    ensures FailingBelow(rule, frame, ctx, 0) == {}
  {
  }

  lemma OneMoreBelow(rule: Rule, frame: Frame, ctx: Context, n: nat)
    requires 0 < n <= |frame.rows|
    ensures |FailingBelow(rule, frame, ctx, n)| ==
      |FailingBelow(rule, frame, ctx, n - 1)| + (if Passes(rule, frame, ctx, n - 1) then 0 else 1)
  {
    hide Passes;
    var earlier := FailingBelow(rule, frame, ctx, n - 1);
    assert FailingBelow(rule, frame, ctx, n) == if Passes(rule, frame, ctx, n - 1) then earlier else earlier + {n - 1};
  }

  lemma {:induction false} FailCountCounts(rule: Rule, frame: Frame, ctx: Context, n: nat)
    requires n <= |frame.rows|
    ensures FailCount(rule, frame, ctx, n) == |FailingBelow(rule, frame, ctx, n)|
  {
    hide Passes, FailingBelow;
    if n == 0 {
      NoneBelow(rule, frame, ctx);
    } else {
      FailCountCounts(rule, frame, ctx, n - 1);
      OneMoreBelow(rule, frame, ctx, n);
    }
  }

  /** One outcome a rule, in rule order: its id and severity, the rows of the frame, and how many do not pass. */
  lemma OutcomesExact(source: string, rules: seq<Rule>, frame: Frame, ctx: Context, k: nat)
    requires k < |rules| && frame.rows != []
    ensures
      var result := DqSpec(source, rules, frame, ctx);
      && |result.outcomes| == |rules| && result.rowsIn == |frame.rows| && result.source == source
      && result.outcomes[k].ruleId == Id(rules[k]) && result.outcomes[k].severity == rules[k].severity
      && result.outcomes[k].rowsEvaluated == |frame.rows|
      && result.outcomes[k].rowsFailed == |set i: nat | i < |frame.rows| && !Passes(rules[k], frame, ctx, i)|
  {
    hide Passes, FailCount, CleanRows, QuarantinedRows;
    FailCountCounts(rules[k], frame, ctx, |frame.rows|);
  }
}
