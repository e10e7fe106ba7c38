/** The batch report and the gate: totals add up, and the gate is one exact comparison. */
module DqReport {
  import opened Wrappers
  import opened Sequences
  import opened Frames
  import opened DqRules
  import opened DqRunner

  datatype SourceReport = SourceReport(
    source: string, rowsIn: nat, rowsClean: int, rowsQuarantined: nat, rules: seq<Outcome>)

  datatype BatchSummary = BatchSummary(
    rowsIn: nat, rowsClean: int, rowsQuarantined: nat, criticalFailures: nat, warnings: nat,
    sourcesWithCritical: seq<string>)

  /** `build_source_report`. */
  function ReportOf(result: DqResult): SourceReport {
    SourceReport(result.source, result.rowsIn, result.rowsIn - |result.failing|, |result.failing|, result.outcomes)
  }

  predicate WarningFailure(o: Outcome) {
    o.severity.Warning? && o.rowsFailed > 0
  }

  function CountCritical(rules: seq<Outcome>): nat {
    if rules == [] then 0
    else CountCritical(rules[..|rules| - 1]) + (if CriticalFailure(rules[|rules| - 1]) then 1 else 0)
  }

  function CountWarnings(rules: seq<Outcome>): nat {
    if rules == [] then 0
    else CountWarnings(rules[..|rules| - 1]) + (if WarningFailure(rules[|rules| - 1]) then 1 else 0)
  }

  /** The summary of the first reports extended by one more source. */
  function Extend(s: BatchSummary, r: SourceReport): BatchSummary {
    var critical := CountCritical(r.rules);
    BatchSummary(
      s.rowsIn + r.rowsIn, s.rowsClean + r.rowsClean, s.rowsQuarantined + r.rowsQuarantined,
      s.criticalFailures + critical, s.warnings + CountWarnings(r.rules),
      s.sourcesWithCritical + (if critical > 0 then [r.source] else []))
  }

  function Summary(reports: seq<SourceReport>): BatchSummary {
    if reports == [] then BatchSummary(0, 0, 0, 0, 0, [])
    else Extend(Summary(reports[..|reports| - 1]), reports[|reports| - 1])
  }

  lemma NoReports()
    ensures Summary([]) == BatchSummary(0, 0, 0, 0, 0, [])
  {
  }

  lemma SummaryStep(reports: seq<SourceReport>, i: nat)
    requires i < |reports|
    ensures Summary(reports[..i + 1]) == Extend(Summary(reports[..i]), reports[i])
  {
    assert reports[..i + 1][..i] == reports[..i];
  }

  lemma NoRules()
    ensures CountCritical([]) == 0 && CountWarnings([]) == 0
  {
  }

  lemma CountStep(rules: seq<Outcome>, k: nat)
    requires k < |rules|
    ensures CountCritical(rules[..k + 1]) == CountCritical(rules[..k]) + (if CriticalFailure(rules[k]) then 1 else 0)
    ensures CountWarnings(rules[..k + 1]) == CountWarnings(rules[..k]) + (if WarningFailure(rules[k]) then 1 else 0)
  {
    assert rules[..k + 1][..k] == rules[..k];
  }

  /** `build_batch_report`: nested loops over sources and rules, then the three sums. */
  method BuildBatchReport(reports: seq<SourceReport>) returns (summary: BatchSummary)
    ensures summary == Summary(reports)
  {
    hide Summary, CountCritical, CountWarnings;
    NoReports();
    NoRules();
    var rowsIn: nat, rowsClean: int, rowsQuarantined: nat := 0, 0, 0;
    var critical: nat, warnings: nat := 0, 0;
    var sources: seq<string> := [];
    for i := 0 to |reports|
      invariant BatchSummary(rowsIn, rowsClean, rowsQuarantined, critical, warnings, sources) == Summary(reports[..i])
    {
      var r := reports[i];
      SummaryStep(reports, i);
      var hadCritical := false;
      ghost var before := critical;
      ghost var warned := warnings;
      for k := 0 to |r.rules|
        invariant critical == before + CountCritical(r.rules[..k])
        invariant warnings == warned + CountWarnings(r.rules[..k])
        invariant hadCritical == (CountCritical(r.rules[..k]) > 0)
      {
        CountStep(r.rules, k);
        if r.rules[k].severity.Critical? && r.rules[k].rowsFailed > 0 {
          critical := critical + 1;
          hadCritical := true;
        }
        if r.rules[k].severity.Warning? && r.rules[k].rowsFailed > 0 {
          warnings := warnings + 1;
        }
      }
      assert r.rules[..|r.rules|] == r.rules;
      if hadCritical {
        sources := sources + [r.source];
      }
      rowsIn, rowsClean, rowsQuarantined := rowsIn + r.rowsIn, rowsClean + r.rowsClean,
        rowsQuarantined + r.rowsQuarantined;
    }
    assert reports[..|reports|] == reports;
    summary := BatchSummary(rowsIn, rowsClean, rowsQuarantined, critical, warnings, sources);
  }

  datatype Decision = PassNoReport | Pass | Fail

  /** The share of quarantined rows in percent, in exact arithmetic. */
  function QuarantinePct(summary: BatchSummary): real {
    if summary.rowsIn > 0 then summary.rowsQuarantined as real / summary.rowsIn as real * 100.0 else 0.0
  }

  /** `dq_gate_task`: both conditions must hold for the gate to fail. */
  function Gate(report: Option<BatchSummary>, threshold: real): Decision {
    if report.None? then PassNoReport
    else if report.value.criticalFailures > 0 && QuarantinePct(report.value) > threshold then Fail
    else Pass
  }

  // ----- What the numbers mean -----

  /** One source as Silver checks it. */
  datatype Check = Check(source: string, rules: seq<Rule>, frame: Frame, ctx: Context)

  function ResultOf(): Check -> SourceReport {
    (c: Check) => ReportOf(DqSpec(c.source, c.rules, c.frame, c.ctx))
  }

  function BatchOf(checks: seq<Check>): BatchSummary {
    Summary(Map(checks, ResultOf()))
  }

  lemma {:induction false} CountCriticalPositive(rules: seq<Outcome>)
    ensures CountCritical(rules) > 0 <==> exists k :: 0 <= k < |rules| && CriticalFailure(rules[k])
  {
    if rules != [] {
      var n := |rules| - 1;
      CountCriticalPositive(rules[..n]);
      assert forall k :: 0 <= k < n ==> rules[..n][k] == rules[k];
    }
  }

  /** Totals of a batch: rows in are clean or quarantined, and a critical failure means a quarantined row. */
  lemma {:induction false} BatchTotals(checks: seq<Check>)
    ensures
      var s := BatchOf(checks);
      && s.rowsIn == s.rowsClean + s.rowsQuarantined
      && (s.criticalFailures > 0 <==> s.rowsQuarantined > 0)
      && (s.rowsQuarantined > 0 <==> s.sourcesWithCritical != [])
      && s.rowsQuarantined <= s.rowsIn
  {
    hide DqSpec, CriticalFailure;
    if checks != [] {
      var n := |checks| - 1;
      var c := checks[n];
      BatchTotals(checks[..n]);
      var reports := Map(checks, ResultOf());
      assert reports[..n] == Map(checks[..n], ResultOf());
      var result := DqSpec(c.source, c.rules, c.frame, c.ctx);
      DqConservesRows(c.source, c.rules, c.frame, c.ctx);
      QuarantineIffCriticalFailure(c.source, c.rules, c.frame, c.ctx);
      CountCriticalPositive(result.outcomes);
      assert BatchOf(checks) == Extend(BatchOf(checks[..n]), ReportOf(result));
    }
  }

  /**
   * For every batch and every threshold the gate fails iff a row was quarantined and the quarantined share
   * exceeds the threshold; for thresholds of at least zero the share alone decides.
   */
  lemma GateIsExact(checks: seq<Check>, threshold: real)
    ensures
      var s := BatchOf(checks);
      var over := 100.0 * s.rowsQuarantined as real > threshold * s.rowsIn as real;
      && (Gate(Some(s), threshold) == Fail <==> s.rowsQuarantined > 0 && over)
      && (threshold >= 0.0 ==> (Gate(Some(s), threshold) == Fail <==> over))
  {
    hide BatchOf;
    BatchTotals(checks);
    var s := BatchOf(checks);
    if s.rowsIn > 0 {
      Scale(s.rowsQuarantined as real, s.rowsIn as real, threshold);
    }
    if s.rowsQuarantined == 0 && threshold >= 0.0 {
      NonNegativeProduct(threshold, s.rowsIn as real);
    }
  }

  lemma Scale(q: real, n: real, t: real)
    requires n > 0.0
    ensures q / n * 100.0 > t <==> 100.0 * q > t * n
  {
    var share := q / n;
    assert share * n == q;
    if share * 100.0 > t {
      assert (share * 100.0 - t) * n > 0.0;
    } else {
      assert (t - share * 100.0) * n >= 0.0;
    }
    assert (share * 100.0 - t) * n == 100.0 * (share * n) - t * n;
  }

  lemma NonNegativeProduct(a: real, b: real)
    requires a >= 0.0 && b >= 0.0
    ensures a * b >= 0.0
  {
  }

  // ----- What the summary says -----

  /** `u` is the sum of `s` and `t`, total by total, with the sources of `s` before those of `t`. */
  predicate IsSum(s: BatchSummary, t: BatchSummary, u: BatchSummary) {
    && u.rowsIn == s.rowsIn + t.rowsIn && u.rowsClean == s.rowsClean + t.rowsClean
    && u.rowsQuarantined == s.rowsQuarantined + t.rowsQuarantined
    && u.criticalFailures == s.criticalFailures + t.criticalFailures && u.warnings == s.warnings + t.warnings
    && u.sourcesWithCritical == s.sourcesWithCritical + t.sourcesWithCritical
  }

  lemma ExtendedSum(s: BatchSummary, t: BatchSummary, u: BatchSummary, r: SourceReport)
    requires IsSum(s, t, u)
    ensures IsSum(s, Extend(t, r), Extend(u, r))
  {
    hide CountCritical, CountWarnings;
  }

  /** The summary of two lists of reports is the sum of their summaries. */
  lemma {:induction false} SummariesAdd(a: seq<SourceReport>, b: seq<SourceReport>)
    ensures IsSum(Summary(a), Summary(b), Summary(a + b))
  {
    hide IsSum, Extend;
    if b == [] {
      assert a + b == a;
      AddNothing(Summary(a));
    } else {
      var front, last := b[..|b| - 1], b[|b| - 1];
      SummariesAdd(a, front);
      ExtendedSum(Summary(a), Summary(front), Summary(a + front), last);
      SummarySnoc(front, last);
      SummarySnoc(a + front, last);
      assert b == front + [last];
      Regroup(a, front, [last]);
    }
  }

  lemma AddNothing(s: BatchSummary)
    ensures IsSum(s, Summary([]), s)
  {
  }

  lemma SummarySnoc(reports: seq<SourceReport>, r: SourceReport)
    ensures Summary(reports + [r]) == Extend(Summary(reports), r)
  {
    hide Extend;
    assert (reports + [r])[..|reports|] == reports;
  }

  /** The rules of one severity that some row does not pass. */
  ghost function RulesBroken(rules: seq<Rule>, frame: Frame, ctx: Context, severity: Severity): set<nat> {
    set k: nat | k < |rules| && rules[k].severity == severity && Fails(rules[k], frame, ctx)
  }

  ghost predicate Fails(rule: Rule, frame: Frame, ctx: Context) {
    exists i: nat :: i < |frame.rows| && !Passes(rule, frame, ctx, i)
  }

  ghost function OutcomesAt(outcomes: seq<Outcome>, severity: Severity): set<nat> {
    set k: nat | k < |outcomes| && outcomes[k].severity == severity && outcomes[k].rowsFailed > 0
  }

  lemma OutcomesOneMore(outcomes: seq<Outcome>, severity: Severity)
    requires outcomes != []
    ensures
      var n := |outcomes| - 1;
      var last := outcomes[n];
      |OutcomesAt(outcomes, severity)| ==
        |OutcomesAt(outcomes[..n], severity)| + (if last.severity == severity && last.rowsFailed > 0 then 1 else 0)
  {
    var n := |outcomes| - 1;
    var earlier, all := OutcomesAt(outcomes[..n], severity), OutcomesAt(outcomes, severity);
    var counts := outcomes[n].severity == severity && outcomes[n].rowsFailed > 0;
    forall k: nat ensures k in all <==> k in earlier || (k == n && counts) {
      if k < n {
        assert outcomes[..n][k] == outcomes[k];
      }
    }
    assert all == if counts then earlier + {n} else earlier;
  }

  lemma {:induction false} CountsAre(outcomes: seq<Outcome>)
    ensures CountCritical(outcomes) == |OutcomesAt(outcomes, Critical)|
    ensures CountWarnings(outcomes) == |OutcomesAt(outcomes, Warning)|
  {
    if outcomes == [] {
      assert OutcomesAt(outcomes, Critical) == {} && OutcomesAt(outcomes, Warning) == {};
    } else {
      var n := |outcomes| - 1;
      CountsAre(outcomes[..n]);
      OutcomesOneMore(outcomes, Critical);
      OutcomesOneMore(outcomes, Warning);
      hide OutcomesAt;
    }
  }

  /**
   * The summary of one checked source: its rows, split; the number of critical and of warning rules that
   * some row does not pass; and the source's name if there is such a critical rule.
   */
  lemma SummaryOfOne(c: Check)
    requires c.frame.rows != []
    ensures
      var s, result := Summary([ResultOf()(c)]), DqSpec(c.source, c.rules, c.frame, c.ctx);
      var critical := RulesBroken(c.rules, c.frame, c.ctx, Critical);
      && s.rowsIn == |c.frame.rows| && s.rowsClean == |result.clean.rows| && s.rowsQuarantined == |result.failing|
      && s.criticalFailures == |critical|
      && s.warnings == |RulesBroken(c.rules, c.frame, c.ctx, Warning)|
      && s.sourcesWithCritical == if critical == {} then [] else [c.source]
  {
    var result := DqSpec(c.source, c.rules, c.frame, c.ctx);
    DqConservesRows(c.source, c.rules, c.frame, c.ctx);
    BrokenAre(c, Critical);
    BrokenAre(c, Warning);
    CountsAre(result.outcomes);
    hide DqSpec, OutcomesAt, RulesBroken, CountCritical, CountWarnings;
    var r := ResultOf()(c);
    assert [r][..0] == [] && Summary([]) == BatchSummary(0, 0, 0, 0, 0, []);
    assert Summary([r]) == Extend(Summary([]), r);
    NoneAreZero(RulesBroken(c.rules, c.frame, c.ctx, Critical));
  }

  lemma NoneAreZero(s: set<nat>)
    ensures s == {} <==> |s| == 0
  {
  }

  lemma BrokenAre(c: Check, severity: Severity)
    requires c.frame.rows != []
    ensures OutcomesAt(DqSpec(c.source, c.rules, c.frame, c.ctx).outcomes, severity) ==
      RulesBroken(c.rules, c.frame, c.ctx, severity)
  {
    hide Passes, FailCount, CleanRows, QuarantinedRows;
    var outcomes := DqSpec(c.source, c.rules, c.frame, c.ctx).outcomes;
    if c.rules != [] {
      forall k: nat | k < |c.rules| ensures outcomes[k].rowsFailed > 0 <==> Fails(c.rules[k], c.frame, c.ctx) {
        FailCountPositive(c.rules[k], c.frame, c.ctx, |c.frame.rows|);
      }
    }
  }

  /** Without a report the gate passes and says so; otherwise it passes or fails. */
  lemma GateDecides(s: BatchSummary, threshold: real)
    ensures Gate(None, threshold) == PassNoReport
    ensures Gate(Some(s), threshold) == Pass || Gate(Some(s), threshold) == Fail
  {
  }
}
