/** Comparing a run with a baseline run (`_classify_delta` and `compare_runs` in
    proxy/app/api/runs.py): per-car deltas of the scorecard averages and a summary label
    from direction-aware thresholds. */
module Compare {
  import opened Wrappers
  import opened Text
  import opened Sorting
  import opened Scorecard

  // ---------------------------------------------------------------------------------------
  // _classify_delta
  // ---------------------------------------------------------------------------------------

  const LatencyThresholdMs := 50.0
  const TpsThreshold := 0.5
  const ErrorRateThreshold := 0.05
  const PassRateThreshold := 0.05
  const JudgeThreshold := 0.3

  /** The label of a compared car. */
  datatype Verdict = Improved | Regressed | Mixed {
    function Text(): string {
      match this
      case Improved => "improved"
      case Regressed => "regressed"
      case Mixed => "mixed"
    }
  }

  /** One delta's vote: +1 when it moved at least `threshold` in the good direction, -1
      when it moved that far in the bad one, 0 otherwise or when it is missing. */
  function Vote(delta: Option<real>, threshold: real, lowerIsBetter: bool): (v: int)
    requires threshold > 0.0
    ensures -1 <= v <= 1
    ensures delta.None? ==> v == 0
    ensures delta.Some? && !lowerIsBetter ==> (v == 1 <==> delta.value >= threshold) && (v == -1 <==> delta.value <= -threshold)
    ensures delta.Some? && lowerIsBetter ==> (v == 1 <==> delta.value <= -threshold) && (v == -1 <==> delta.value >= threshold)
  {
    match delta
    case None => 0
    case Some(x) =>
      var gain := if lowerIsBetter then -x else x;
      if gain >= threshold then 1 else if gain <= -threshold then -1 else 0
  }

  /** The five deltas of a comparison row. */
  datatype Deltas = Deltas(latencyMs: Option<real>, tokensPerSec: Option<real>, errorRate: Option<real>,
                           passRate: Option<real>, judge: Option<real>)

  /** Lower latency and error rate are better; higher throughput, pass rate and judge score
      are better. */
  function Score(d: Deltas): (s: int)
    ensures -5 <= s <= 5
  {
    Vote(d.latencyMs, LatencyThresholdMs, true) + Vote(d.tokensPerSec, TpsThreshold, false) +
    Vote(d.errorRate, ErrorRateThreshold, true) + Vote(d.passRate, PassRateThreshold, false) +
    Vote(d.judge, JudgeThreshold, false)
  }

  /** `_classify_delta`. */
  function Classify(d: Deltas): (l: Verdict)
    ensures l == Improved <==> Score(d) >= 2
    ensures l == Regressed <==> Score(d) <= -2
    ensures l == Mixed <==> -2 < Score(d) < 2
  {
    var s := Score(d);
    if s >= 2 then Improved else if s <= -2 then Regressed else Mixed
  }

  function Neg(x: Option<real>): Option<real> {
    if x.Some? then Some(-x.value) else None
  }

  function Negated(d: Deltas): Deltas {
    Deltas(Neg(d.latencyMs), Neg(d.tokensPerSec), Neg(d.errorRate), Neg(d.passRate), Neg(d.judge))
  }

  lemma VoteNegated(x: Option<real>, threshold: real, lowerIsBetter: bool)
    requires threshold > 0.0
    ensures Vote(Neg(x), threshold, lowerIsBetter) == -Vote(x, threshold, lowerIsBetter)
  {
  }

  /** Swapping the two runs swaps "improved" and "regressed" and keeps "mixed". */
  lemma ClassifySwapped(d: Deltas)
    ensures Score(Negated(d)) == -Score(d)
    ensures Classify(d) == Improved <==> Classify(Negated(d)) == Regressed
    ensures Classify(d) == Mixed <==> Classify(Negated(d)) == Mixed
  {
    VoteNegated(d.latencyMs, LatencyThresholdMs, true);
    VoteNegated(d.tokensPerSec, TpsThreshold, false);
    VoteNegated(d.errorRate, ErrorRateThreshold, true);
    VoteNegated(d.passRate, PassRateThreshold, false);
    VoteNegated(d.judge, JudgeThreshold, false);
  }

  function Present(x: Option<real>): nat {
    if x.Some? then 1 else 0
  }

  /** A label other than "mixed" needs at least two deltas: a single metric never decides. */
  lemma OneDeltaIsMixed(d: Deltas)
    requires Present(d.latencyMs) + Present(d.tokensPerSec) + Present(d.errorRate) + Present(d.passRate) + Present(d.judge) <= 1
    ensures Classify(d) == Mixed
  {
  }

  /** Small movements never change the label: deltas inside every threshold give "mixed". */
  lemma WithinThresholdsIsMixed(d: Deltas)
    requires d.latencyMs.Some? ==> -LatencyThresholdMs < d.latencyMs.value < LatencyThresholdMs
    requires d.tokensPerSec.Some? ==> -TpsThreshold < d.tokensPerSec.value < TpsThreshold
    requires d.errorRate.Some? ==> -ErrorRateThreshold < d.errorRate.value < ErrorRateThreshold
    requires d.passRate.Some? ==> -PassRateThreshold < d.passRate.value < PassRateThreshold
    requires d.judge.Some? ==> -JudgeThreshold < d.judge.value < JudgeThreshold
    ensures Score(d) == 0 && Classify(d) == Mixed
  {
  }

  /** 60 ms faster with 0.1 fewer errors is "improved", the mirrored movement is
      "regressed", and faster but slower to generate is "mixed". */
  lemma ExampleFasterAndSafer()
    ensures Classify(Deltas(Some(-60.0), None, Some(-0.1), None, None)) == Improved
    ensures Classify(Deltas(Some(60.0), None, Some(0.1), None, None)) == Regressed
    ensures Classify(Deltas(Some(-60.0), Some(-1.0), None, None, None)) == Mixed
  {
  }

  // ---------------------------------------------------------------------------------------
  // compare_runs
  // ---------------------------------------------------------------------------------------

  /** A row's summary: a verdict, or the note for a car the baseline run does not have. */
  datatype Summary = Verdict(verdict: Verdict) | NewProfile {
    function Text(): string {
      match this
      case Verdict(v) => v.Text()
      case NewProfile => "new profile in current run"
    }
  }

  datatype ComparisonRow = ComparisonRow(
    carId: int,
    carName: string,
    modelName: string,
    deltas: Deltas,
    summary: Summary)
  const RunNotFound := "Run not found"
  const SameRunError := "Baseline run must be different"

  /** `current - baseline` when both are present. */
  function Diff(current: Option<real>, baseline: Option<real>): (r: Option<real>)
    ensures r.Some? <==> current.Some? && baseline.Some?
    ensures r.Some? ==> r.value + baseline.value == current.value
  {
    if current.Some? && baseline.Some? then Some(current.value - baseline.value) else None
  }

  /** The baseline row of a car (the last one, as a dict keyed by car keeps). */
  function BaselineFor(rows: seq<ScoreRow>, carId: int): (r: Option<ScoreRow>)
    ensures r.Some? ==> r.value in rows && r.value.carId == carId
    ensures r.None? <==> forall k :: 0 <= k < |rows| ==> rows[k].carId != carId
  {
    if |rows| == 0 then None
    else if rows[|rows| - 1].carId == carId then Some(rows[|rows| - 1])
    else BaselineFor(rows[..|rows| - 1], carId)
  }

  /** The comparison row of one current row. Without a baseline row every delta is absent
      and the car is labelled as new; otherwise the error-rate delta is always present and
      the label classifies the deltas. */
  function RowFor(current: ScoreRow, baseline: Option<ScoreRow>): (r: ComparisonRow)
    ensures r.carId == current.carId && r.carName == current.carName && r.modelName == current.modelName
    ensures baseline.None? ==> r.deltas == Deltas(None, None, None, None, None) && r.summary == NewProfile
    ensures baseline.Some? ==> r.deltas.errorRate == Some(current.errorRate - baseline.value.errorRate)
    ensures baseline.Some? ==>
              r.deltas.latencyMs == Diff(current.avgLatencyMs, baseline.value.avgLatencyMs) &&
              r.deltas.tokensPerSec == Diff(current.avgTokensPerSec, baseline.value.avgTokensPerSec) &&
              r.deltas.passRate == Diff(current.assertionPassRate, baseline.value.assertionPassRate) &&
              r.deltas.judge == Diff(current.avgJudgeOverall, baseline.value.avgJudgeOverall)
    ensures baseline.Some? ==> r.summary == Verdict(Classify(r.deltas))
  {
    match baseline
    case None => ComparisonRow(current.carId, current.carName, current.modelName, Deltas(None, None, None, None, None), NewProfile)
    case Some(b) =>
      var d := Deltas(
        Diff(current.avgLatencyMs, b.avgLatencyMs),
        Diff(current.avgTokensPerSec, b.avgTokensPerSec),
        Some(current.errorRate - b.errorRate),
        Diff(current.assertionPassRate, b.assertionPassRate),
        Diff(current.avgJudgeOverall, b.avgJudgeOverall));
      ComparisonRow(current.carId, current.carName, current.modelName, d, Verdict(Classify(d)))
  }

  function RowsFor(current: seq<ScoreRow>, baseline: seq<ScoreRow>): (r: seq<ComparisonRow>)
    ensures |r| == |current|
    ensures forall k :: 0 <= k < |current| ==> r[k] == RowFor(current[k], BaselineFor(baseline, current[k].carId))
  {
    if |current| == 0 then [] else [RowFor(current[0], BaselineFor(baseline, current[0].carId))] + RowsFor(current[1..], baseline)
  }

  // ---------------------------------------------------------------------------------------
  // Ordering by lower-cased name
  // ---------------------------------------------------------------------------------------

  /** Python's string order: code point by code point, a proper prefix first. */
  predicate StrLe(a: string, b: string)
    decreases |a|
  {
    |a| == 0 || (|b| > 0 && (a[0] < b[0] || (a[0] == b[0] && StrLe(a[1..], b[1..]))))
  }

  lemma {:induction false} StrLeTotal(a: string, b: string)
    ensures StrLe(a, b) || StrLe(b, a)
    decreases |a|
  {
    if |a| > 0 && |b| > 0 && a[0] == b[0] {
      StrLeTotal(a[1..], b[1..]);
    }
  }

  lemma {:induction false} StrLeTransitive(a: string, b: string, c: string)
    requires StrLe(a, b) && StrLe(b, c)
    ensures StrLe(a, c)
    decreases |a|
  {
    if |a| > 0 && a[0] == b[0] && b[0] == c[0] {
      StrLeTransitive(a[1..], b[1..], c[1..]);
    }
  }

  /** Two strings that order both ways are equal. */
  lemma {:induction false} StrLeAntisymmetric(a: string, b: string)
    requires StrLe(a, b) && StrLe(b, a)
    ensures a == b
    decreases |a|
  {
    if |a| > 0 {
      StrLeAntisymmetric(a[1..], b[1..]);
      assert a == [a[0]] + a[1..] && b == [b[0]] + b[1..];
    }
  }

  predicate NameLe(a: ComparisonRow, b: ComparisonRow) {
    StrLe(Lower(a.carName), Lower(b.carName))
  }

  lemma NameLePreorder()
    ensures TotalPreorder(NameLe)
  {
    forall a: ComparisonRow, b: ComparisonRow ensures NameLe(a, b) || NameLe(b, a) {
      StrLeTotal(Lower(a.carName), Lower(b.carName));
    }
    forall a: ComparisonRow, b: ComparisonRow, c: ComparisonRow | NameLe(a, b) && NameLe(b, c) ensures NameLe(a, c) {
      StrLeTransitive(Lower(a.carName), Lower(b.carName), Lower(c.carName));
    }
  }

  /** `compare_runs`: both runs must exist (checked before the ids are compared) and
      differ; one row per current scorecard row, sorted by lower-cased car name. */
  function CompareRuns(runId: int, current: Option<RunData>, baselineId: int, baseline: Option<RunData>)
    : (r: Result<seq<ComparisonRow>>)
    ensures current.None? || baseline.None? <==> r == Failure(RunNotFound)
    ensures current.Some? && baseline.Some? && runId == baselineId <==> r == Failure(SameRunError)
    ensures r.Success? ==>
              current.Some? && baseline.Some? &&
              multiset(r.value) == multiset(RowsFor(ScorecardRows(current.value), ScorecardRows(baseline.value)))
  {
    if current.None? || baseline.None? then Failure(RunNotFound)
    else if runId == baselineId then Failure(SameRunError)
    else Success(SortBy(RowsFor(ScorecardRows(current.value), ScorecardRows(baseline.value)), NameLe))
  }

  lemma SortedByName(rows: seq<ComparisonRow>, y: ComparisonRow)
    ensures SortedBy(SortBy(rows, NameLe), NameLe)
    ensures Equivalents(SortBy(rows, NameLe), y, NameLe) == Equivalents(rows, y, NameLe)
  {
    NameLePreorder();
    SortByCorrect(rows, NameLe, y);
  }

  /** The comparison has one row per current scorecard row, in lower-cased name order;
      rows whose names are equal once lower-cased (`GPT` and `gpt`) keep their scorecard
      order, as the stable `list.sort` keeps them. */
  lemma CompareRunsSorted(runId: int, current: RunData, baselineId: int, baseline: RunData, y: ComparisonRow)
    requires runId != baselineId
    ensures var r := CompareRuns(runId, Some(current), baselineId, Some(baseline));
            r.Success? && |r.value| == |ScorecardRows(current)| && SortedBy(r.value, NameLe)
    ensures var r := CompareRuns(runId, Some(current), baselineId, Some(baseline));
            r.Success? &&
            Equivalents(r.value, y, NameLe) == Equivalents(RowsFor(ScorecardRows(current), ScorecardRows(baseline)), y, NameLe)
  {
    SortedByName(RowsFor(ScorecardRows(current), ScorecardRows(baseline)), y);
  }

  /** Every compared car is a car of the current run (one the baseline alone has is left
      out), and its row is the one built from its current and baseline rows. */
  lemma CompareRunsRows(runId: int, current: RunData, baselineId: int, baseline: RunData, k: nat)
    requires CompareRuns(runId, Some(current), baselineId, Some(baseline)).Success?
    requires k < |CompareRuns(runId, Some(current), baselineId, Some(baseline)).value|
    ensures var row := CompareRuns(runId, Some(current), baselineId, Some(baseline)).value[k];
            exists m :: 0 <= m < |ScorecardRows(current)| && ScorecardRows(current)[m].carId == row.carId &&
                        row == RowFor(ScorecardRows(current)[m], BaselineFor(ScorecardRows(baseline), row.carId))
  {
    var rows := RowsFor(ScorecardRows(current), ScorecardRows(baseline));
    var r := CompareRuns(runId, Some(current), baselineId, Some(baseline)).value;
    assert r[k] in multiset(rows);
    var m :| 0 <= m < |rows| && rows[m] == r[k];
  }
}
