/** The per-car scorecard of one run (`_build_run_scorecard_rows` in
    proxy/app/api/runs.py). The rows the function reads are parameters: the run's items in
    id order, and its metrics, output payloads and item judge scores keyed by item id. */
module Scorecard {
  import opened Wrappers
  import opened Json
  import opened Text
  import opened Domain
  import opened Sorting
  import opened Ranking

  /** What the scorecard reads. `payloads` holds the stored provider payload of each item
      that has an output (JNull for a null column); `judged` the `overall` of each item's
      judge row. */
  datatype RunData = RunData(
    items: seq<RunItem>,
    metrics: map<int, Metric>,
    payloads: map<int, Json>,
    judged: map<int, real>,
    cars: map<int, Car>)

  /** The per-car counters. */
  datatype Bucket = Bucket(
    total: nat,
    completed: nat,
    failed: nat,
    partial: nat,
    errors: nat,
    ttft: Acc,
    latency: Acc,
    tps: Acc,
    assertionsPassed: int,
    assertionsTotal: int,
    judge: Acc)

  const EmptyBucket := Bucket(0, 0, 0, 0, 0, NoSamples, NoSamples, NoSamples, 0, 0, NoSamples)

  /** Whether the item counts as an error: by its metric's flag when it has a metric,
      else by being FAILED. */
  predicate IsError(d: RunData, item: RunItem) {
    if item.id in d.metrics then d.metrics[item.id].errorFlag else item.status == ItemFailed
  }

  /** The assertion counts of the item's stored payload, if any. */
  function ItemAssertions(d: RunData, item: RunItem): Option<(int, int)> {
    if item.id in d.payloads then AssertionCounts(d.payloads[item.id]) else None
  }

  /** Count one item into its car's bucket. */
  function AddItem(d: RunData, b: Bucket, item: RunItem): (r: Bucket)
    ensures r.total == b.total + 1
    ensures r.completed + r.failed + r.partial <= b.completed + b.failed + b.partial + 1
    ensures r.errors == b.errors + (if IsError(d, item) then 1 else 0)
    ensures r.ttft.count <= b.ttft.count + 1 && r.latency.count <= b.latency.count + 1 && r.tps.count <= b.tps.count + 1
    ensures r.assertionsTotal >= b.assertionsTotal
  {
    var m := if item.id in d.metrics then Some(d.metrics[item.id]) else None;
    var a := ItemAssertions(d, item);
    Bucket(
      b.total + 1,
      b.completed + (if item.status == ItemCompleted then 1 else 0),
      b.failed + (if item.status == ItemFailed then 1 else 0),
      b.partial + (if item.status == ItemPartial then 1 else 0),
      b.errors + (if IsError(d, item) then 1 else 0),
      if m.Some? then AddSample(b.ttft, AsReal(m.value.ttftMs)) else b.ttft,
      if m.Some? then AddSample(b.latency, AsReal(m.value.totalLatencyMs)) else b.latency,
      if m.Some? then AddSample(b.tps, m.value.tokensPerSec) else b.tps,
      b.assertionsPassed + (if a.Some? then a.value.0 else 0),
      b.assertionsTotal + (if a.Some? then a.value.1 else 0),
      if item.id in d.judged then AddSample(b.judge, Some(d.judged[item.id])) else b.judge)
  }

  // ---------------------------------------------------------------------------------------
  // The aggregation pass and its per-car reference
  // ---------------------------------------------------------------------------------------

  /** The loop over the items: a bucket per car id, created on the car's first item
      (`setdefault`), and the car ids in order of creation. Items without a car are
      skipped. */
  function Pass(d: RunData, items: seq<RunItem>): (r: (seq<int>, map<int, Bucket>))
    decreases |items|
  {
    if |items| == 0 then ([], map[])
    else
      var (order, buckets) := Pass(d, items[..|items| - 1]);
      var item := items[|items| - 1];
      match item.carId
      case None => (order, buckets)
      case Some(c) =>
        var b := if c in buckets then buckets[c] else EmptyBucket;
        (if c in buckets then order else order + [c], buckets[c := AddItem(d, b, item)])
  }

  /** The bucket of one car, counting only that car's items. */
  function BucketOf(d: RunData, items: seq<RunItem>, c: int): (b: Bucket)
    ensures b.completed + b.failed + b.partial <= b.total
    ensures b.errors <= b.total
    ensures b.ttft.count <= b.total && b.latency.count <= b.total && b.tps.count <= b.total
    ensures b.assertionsTotal >= 0
    ensures b.total == 0 <==> forall k :: 0 <= k < |items| ==> items[k].carId != Some(c)
    ensures b.total == 0 ==> b == EmptyBucket
    decreases |items|
  {
    if |items| == 0 then EmptyBucket
    else
      var before := BucketOf(d, items[..|items| - 1], c);
      assert forall k :: 0 <= k < |items| - 1 ==> items[..|items| - 1][k] == items[k];
      if items[|items| - 1].carId == Some(c) then AddItem(d, before, items[|items| - 1]) else before
  }

  predicate Distinct(s: seq<int>) {
    forall i, j :: 0 <= i < j < |s| ==> s[i] != s[j]
  }

  /** The pass keeps one bucket per car that has items, equal to that car's reference
      bucket, and lists each such car once. */
  lemma {:induction false} PassIsPerCar(d: RunData, items: seq<RunItem>)
    ensures Distinct(Pass(d, items).0)
    ensures forall c :: c in Pass(d, items).1 <==> c in Pass(d, items).0
    ensures forall c :: c in Pass(d, items).1 <==> BucketOf(d, items, c).total > 0
    ensures forall c :: c in Pass(d, items).1 ==> Pass(d, items).1[c] == BucketOf(d, items, c)
    decreases |items|
  {
    if |items| > 0 {
      var init := items[..|items| - 1];
      PassIsPerCar(d, init);
    }
  }

  // ---------------------------------------------------------------------------------------
  // Rows
  // ---------------------------------------------------------------------------------------

  datatype ScoreRow = ScoreRow(
    carId: int,
    carName: string,
    modelName: string,
    itemsTotal: nat,
    completed: nat,
    failed: nat,
    partial: nat,
    errorRate: real,
    avgTtftMs: Option<real>,
    avgLatencyMs: Option<real>,
    avgTokensPerSec: Option<real>,
    assertionPassRate: Option<real>,
    avgJudgeOverall: Option<real>)

  const UnknownModel := "unknown"

  /** A deleted car is shown as "car:<id>" with model "unknown". */
  function CarLabel(d: RunData, c: int): (r: (string, string))
    ensures c in d.cars ==> r == (d.cars[c].name, d.cars[c].modelName)
    ensures c !in d.cars ==> r == ("car:" + ShowInt(c), UnknownModel)
  {
    if c in d.cars then (d.cars[c].name, d.cars[c].modelName) else ("car:" + ShowInt(c), UnknownModel)
  }

  /** The row of a bucket: counts, error rate, and averages that are absent without
      samples. */
  function RowOf(d: RunData, c: int, b: Bucket): (r: ScoreRow)
    ensures r.carId == c && (r.carName, r.modelName) == CarLabel(d, c)
    ensures r.itemsTotal == b.total && r.completed == b.completed && r.failed == b.failed && r.partial == b.partial
    ensures b.errors <= b.total ==> 0.0 <= r.errorRate <= 1.0
    ensures b.total > 0 ==> r.errorRate * b.total as real == b.errors as real
    ensures r.avgTtftMs.None? <==> b.ttft.count == 0
    ensures r.avgLatencyMs.None? <==> b.latency.count == 0
    ensures r.avgTokensPerSec.None? <==> b.tps.count == 0
    ensures r.avgJudgeOverall.None? <==> b.judge.count == 0
    ensures r.assertionPassRate.None? <==> b.assertionsTotal <= 0
    ensures r.assertionPassRate.Some? ==> r.assertionPassRate.value * b.assertionsTotal as real == b.assertionsPassed as real
  {
    var (name, model) := CarLabel(d, c);
    ScoreRow(c, name, model, b.total, b.completed, b.failed, b.partial,
             ErrorRate(b.errors, b.total),
             Mean(b.ttft), Mean(b.latency), Mean(b.tps),
             if b.assertionsTotal > 0 then Some(b.assertionsPassed as real / b.assertionsTotal as real) else None,
             Mean(b.judge))
  }

  function RowsOf(d: RunData, order: seq<int>, buckets: map<int, Bucket>): (r: seq<ScoreRow>)
    requires forall c :: c in order ==> c in buckets
    ensures |r| == |order|
    ensures forall k :: 0 <= k < |order| ==> r[k] == RowOf(d, order[k], buckets[order[k]])
  {
    if |order| == 0 then [] else [RowOf(d, order[0], buckets[order[0]])] + RowsOf(d, order[1..], buckets)
  }

  function RankOf(r: ScoreRow): RankKey {
    RankKey(r.avgJudgeOverall, r.assertionPassRate, r.errorRate)
  }

  predicate RowLe(a: ScoreRow, b: ScoreRow) {
    RankGe(RankOf(a), RankOf(b))
  }

  lemma RowLePreorder()
    ensures TotalPreorder(RowLe)
  {
    forall a: ScoreRow, b: ScoreRow ensures RowLe(a, b) || RowLe(b, a) {
      RankGeTotal(RankOf(a), RankOf(b));
    }
    forall a: ScoreRow, b: ScoreRow, c: ScoreRow | RowLe(a, b) && RowLe(b, c) ensures RowLe(a, c) {
      RankGeTransitive(RankOf(a), RankOf(b), RankOf(c));
    }
  }

  /** The rows in order of first appearance of their car, before sorting. */
  function UnsortedRows(d: RunData): (r: seq<ScoreRow>)
    ensures |r| == |Pass(d, d.items).0|
    ensures forall k :: 0 <= k < |r| ==> r[k] == RowOf(d, Pass(d, d.items).0[k], BucketOf(d, d.items, Pass(d, d.items).0[k]))
  {
    PassIsPerCar(d, d.items);
    var (order, buckets) := Pass(d, d.items);
    RowsOf(d, order, buckets)
  }

  /** `_build_run_scorecard_rows`: one row per car, best first. */
  function ScorecardRows(d: RunData): (r: seq<ScoreRow>)
    ensures multiset(r) == multiset(UnsortedRows(d))
  {
    SortBy(UnsortedRows(d), RowLe)
  }

  // ---------------------------------------------------------------------------------------
  // Properties
  // ---------------------------------------------------------------------------------------

  /** Rows are ordered by (judge or -1, pass rate or -1, -error rate), descending, and
      rows that tie keep the order in which their cars first appear. */
  lemma ScorecardOrdered(d: RunData, y: ScoreRow)
    ensures SortedBy(ScorecardRows(d), RowLe)
    ensures Equivalents(ScorecardRows(d), y, RowLe) == Equivalents(UnsortedRows(d), y, RowLe)
  {
    RowLePreorder();
    SortByCorrect(UnsortedRows(d), RowLe, y);
  }

  /** Every sorted row is one of the unsorted rows. */
  lemma SortedRowFrom(d: RunData, k: nat) returns (m: nat)
    requires k < |ScorecardRows(d)|
    ensures m < |UnsortedRows(d)| && UnsortedRows(d)[m] == ScorecardRows(d)[k]
  {
    assert ScorecardRows(d)[k] in multiset(UnsortedRows(d));
    m :| 0 <= m < |UnsortedRows(d)| && UnsortedRows(d)[m] == ScorecardRows(d)[k];
  }

  /** A car's row counts exactly that car's items. */
  lemma ScorecardRowOfCar(d: RunData, k: nat)
    requires k < |ScorecardRows(d)|
    ensures ScorecardRows(d)[k] == RowOf(d, ScorecardRows(d)[k].carId, BucketOf(d, d.items, ScorecardRows(d)[k].carId))
  {
    var order := UnsortedCars(d);
    var m := SortedRowFrom(d, k);
  }

  /** A car has a row exactly when it has items in the run. */
  lemma ScorecardCars(d: RunData, c: int)
    ensures (exists k :: 0 <= k < |ScorecardRows(d)| && ScorecardRows(d)[k].carId == c) <==>
            (exists k :: 0 <= k < |d.items| && d.items[k].carId == Some(c))
  {
    if exists k :: 0 <= k < |d.items| && d.items[k].carId == Some(c) {
      var k := PresentCarRow(d, c);
    }
    if exists k :: 0 <= k < |ScorecardRows(d)| && ScorecardRows(d)[k].carId == c {
      var k :| 0 <= k < |ScorecardRows(d)| && ScorecardRows(d)[k].carId == c;
      RowCarHasItems(d, k);
    }
  }

  /** A car with items has a row. */
  lemma PresentCarRow(d: RunData, c: int) returns (k: nat)
    requires BucketOf(d, d.items, c).total > 0
    ensures k < |ScorecardRows(d)| && ScorecardRows(d)[k].carId == c
  {
    var order := UnsortedCars(d);
    var u := UnsortedRows(d);
    var r := ScorecardRows(d);
    var m :| 0 <= m < |order| && order[m] == c;
    assert u[m] in multiset(r);
    k :| 0 <= k < |r| && r[k] == u[m];
  }

  /** A row's car has items. */
  lemma RowCarHasItems(d: RunData, k: nat)
    requires k < |ScorecardRows(d)|
    ensures BucketOf(d, d.items, ScorecardRows(d)[k].carId).total > 0
  {
    var order := UnsortedCars(d);
    var m := SortedRowFrom(d, k);
  }

  /** The unsorted rows follow the pass's car order, which has no repeats. */
  lemma UnsortedCars(d: RunData) returns (order: seq<int>)
    ensures Distinct(order) && |UnsortedRows(d)| == |order|
    ensures forall k :: 0 <= k < |order| ==> UnsortedRows(d)[k].carId == order[k]
    ensures forall k :: 0 <= k < |order| ==> UnsortedRows(d)[k] == RowOf(d, order[k], BucketOf(d, d.items, order[k]))
    ensures forall c :: c in order <==> BucketOf(d, d.items, c).total > 0
  {
    PassIsPerCar(d, d.items);
    order := Pass(d, d.items).0;
  }

  /** No car has two rows. */
  lemma ScorecardOneRowPerCar(d: RunData)
    ensures forall i, j :: 0 <= i < j < |ScorecardRows(d)| ==> ScorecardRows(d)[i].carId != ScorecardRows(d)[j].carId
  {
    var order := UnsortedCars(d);
    var u := UnsortedRows(d);
    var r := ScorecardRows(d);
    forall i, j | 0 <= i < j < |r| ensures r[i].carId != r[j].carId {
      DistinctCarsSorted(u, r, order, i, j);
    }
  }

  /** Sorting a list of rows with distinct cars keeps the cars distinct. */
  lemma DistinctCarsSorted(u: seq<ScoreRow>, r: seq<ScoreRow>, order: seq<int>, i: nat, j: nat)
    requires multiset(r) == multiset(u) && |u| == |order| && Distinct(order)
    requires forall k :: 0 <= k < |u| ==> u[k].carId == order[k]
    requires i < j < |r|
    ensures r[i].carId != r[j].carId
  {
    assert NoDuplicates(u);
    PermutationNoDuplicates(u, r);
    assert r[i] in multiset(u) && r[j] in multiset(u);
    var a :| 0 <= a < |u| && u[a] == r[i];
    var b :| 0 <= b < |u| && u[b] == r[j];
    assert a != b;
  }

  /** Every row's counts stay within its item total, and its error rate is a fraction. */
  lemma ScorecardBounds(d: RunData, k: nat)
    requires k < |ScorecardRows(d)|
    ensures var row := ScorecardRows(d)[k];
            row.itemsTotal >= 1 && row.completed + row.failed + row.partial <= row.itemsTotal &&
            0.0 <= row.errorRate <= 1.0
  {
    PassIsPerCar(d, d.items);
    var m := SortedRowFrom(d, k);
    var c := Pass(d, d.items).0[m];
    assert BucketOf(d, d.items, c).total > 0;
  }

  /** The number of the run's error items that belong to car `c`, read off the items
      alone; `BucketErrors` shows the car's bucket counts exactly these. */
  function ErrorItems(d: RunData, items: seq<RunItem>, c: int): nat {
    if |items| == 0 then 0
    else ErrorItems(d, items[..|items| - 1], c) + (if items[|items| - 1].carId == Some(c) && IsError(d, items[|items| - 1]) then 1 else 0)
  }

  lemma {:induction false} BucketErrors(d: RunData, items: seq<RunItem>, c: int)
    ensures BucketOf(d, items, c).errors == ErrorItems(d, items, c)
    decreases |items|
  {
    if |items| > 0 {
      BucketErrors(d, items[..|items| - 1], c);
    }
  }
}
