/** The global leaderboard (proxy/app/api/leaderboard.py): per-car statistics over every
    run, built in one pass over the items that have a metric and then over the items that
    have an output, a judge average per car, and the rows ranked by judge score, assertion
    pass rate and error rate. The query results are parameters, in the order the database
    returns them. */
module Leaderboard {
  import opened Wrappers
  import opened Json
  import opened Domain
  import opened Sorting
  import opened Ranking
  import opened Judge
  import opened Dispatch

  /** An item joined with its metric. */
  datatype MetricRow = MetricRow(carId: Option<int>, status: ItemStatus, metric: Metric)

  /** An item joined with its output's stored provider payload (JNull for a null column). */
  datatype PayloadRow = PayloadRow(carId: Option<int>, payload: Json)

  /** What the leaderboard reads. */
  datatype BoardData = BoardData(
    metricRows: seq<MetricRow>,
    payloadRows: seq<PayloadRow>,
    judgeRows: seq<JudgeRow>,
    cars: seq<Car>,
    conns: seq<Connection>)

  /** One row of either query, in the order the loops see them: the metric rows first. */
  datatype Fact = MetricFact(m: MetricRow) | PayloadFact(p: PayloadRow)

  function FactCar(f: Fact): Option<int> {
    match f
    case MetricFact(m) => m.carId
    case PayloadFact(p) => p.carId
  }

  function Facts(d: BoardData): (fs: seq<Fact>)
    ensures |fs| == |d.metricRows| + |d.payloadRows|
    ensures forall k :: 0 <= k < |d.metricRows| ==> fs[k] == MetricFact(d.metricRows[k])
    ensures forall k :: 0 <= k < |d.payloadRows| ==> fs[|d.metricRows| + k] == PayloadFact(d.payloadRows[k])
  {
    seq(|d.metricRows|, k requires 0 <= k < |d.metricRows| => MetricFact(d.metricRows[k])) +
    seq(|d.payloadRows|, k requires 0 <= k < |d.payloadRows| => PayloadFact(d.payloadRows[k]))
  }

  // ---------------------------------------------------------------------------------------
  // Per-car statistics
  // ---------------------------------------------------------------------------------------

  /** The per-car counters. */
  datatype Stats = Stats(
    total: nat,
    failed: nat,
    partial: nat,
    errors: nat,
    ttft: Acc,
    latency: Acc,
    tps: Acc,
    assertionsPassed: int,
    assertionsTotal: int)

  const EmptyStats := Stats(0, 0, 0, 0, NoSamples, NoSamples, NoSamples, 0, 0)

  /** Count one row: a metric row counts an item, its status, its error flag and its
      timings; a payload row adds the payload's assertion counts. */
  function AddFact(s: Stats, f: Fact): (r: Stats)
    ensures f.MetricFact? ==> r.total == s.total + 1 && r.assertionsTotal == s.assertionsTotal
    ensures f.PayloadFact? ==> r.total == s.total && r.failed == s.failed && r.partial == s.partial && r.errors == s.errors
    ensures r.failed + r.partial <= s.failed + s.partial + (r.total - s.total)
    ensures r.errors <= s.errors + (r.total - s.total)
    ensures r.assertionsTotal >= s.assertionsTotal
  {
    match f
    case MetricFact(m) =>
      s.(total := s.total + 1,
         failed := s.failed + (if m.status == ItemFailed then 1 else 0),
         partial := s.partial + (if m.status == ItemPartial then 1 else 0),
         errors := s.errors + (if m.metric.errorFlag then 1 else 0),
         ttft := AddSample(s.ttft, AsReal(m.metric.ttftMs)),
         latency := AddSample(s.latency, AsReal(m.metric.totalLatencyMs)),
         tps := AddSample(s.tps, m.metric.tokensPerSec))
    case PayloadFact(p) =>
      match AssertionCounts(p.payload)
      case None => s
      case Some((passed, total)) =>
        s.(assertionsPassed := s.assertionsPassed + passed, assertionsTotal := s.assertionsTotal + total)
  }

  /** The loops: a counter set per car id, created on the car's first row (`setdefault`),
      and the car ids in order of creation. Rows without a car are skipped. */
  function Pass(facts: seq<Fact>): (r: (seq<int>, map<int, Stats>))
    decreases |facts|
  {
    if |facts| == 0 then ([], map[])
    else
      var (order, stats) := Pass(facts[..|facts| - 1]);
      var f := facts[|facts| - 1];
      match FactCar(f)
      case None => (order, stats)
      case Some(c) =>
        var s := if c in stats then stats[c] else EmptyStats;
        (if c in stats then order else order + [c], stats[c := AddFact(s, f)])
  }

  /** The counters of one car, from that car's rows only. */
  function StatsOf(facts: seq<Fact>, c: int): (s: Stats)
    ensures s.failed + s.partial <= s.total
    ensures s.errors <= s.total
    ensures s.assertionsTotal >= 0
    decreases |facts|
  {
    if |facts| == 0 then EmptyStats
    else
      var before := StatsOf(facts[..|facts| - 1], c);
      var f := facts[|facts| - 1];
      if FactCar(f) == Some(c) then AddFact(before, f) else before
  }

  /** The car ids of the rows that have one, in row order. */
  function FactCars(facts: seq<Fact>): (r: seq<int>)
    ensures forall c :: c in r <==> exists k :: 0 <= k < |facts| && FactCar(facts[k]) == Some(c)
  {
    if |facts| == 0 then []
    else FactCars(facts[..|facts| - 1]) + (if FactCar(facts[|facts| - 1]).Some? then [FactCar(facts[|facts| - 1]).value] else [])
  }

  /** A car without rows has empty counters. */
  lemma {:induction false} StatsOfAbsent(facts: seq<Fact>, c: int)
    requires c !in FactCars(facts)
    ensures StatsOf(facts, c) == EmptyStats
    decreases |facts|
  {
    if |facts| > 0 {
      var init := facts[..|facts| - 1];
      assert forall k :: 0 <= k < |init| ==> init[k] == facts[k];
      assert FactCar(facts[|facts| - 1]) != Some(c);
      StatsOfAbsent(init, c);
    }
  }

  /** The pass lists each car with rows once, in order of its first row, and keeps for it
      exactly that car's reference counters. */
  lemma {:induction false} PassIsPerCar(facts: seq<Fact>)
    ensures Pass(facts).0 == Dedup(FactCars(facts))
    ensures forall c :: c in Pass(facts).1 <==> c in Pass(facts).0
    ensures forall c :: c in Pass(facts).1 ==> Pass(facts).1[c] == StatsOf(facts, c)
    decreases |facts|
  {
    if |facts| > 0 {
      var init := facts[..|facts| - 1];
      var f := facts[|facts| - 1];
      PassIsPerCar(init);
      var cars := FactCars(init);
      if FactCar(f).Some? {
        var c := FactCar(f).value;
        assert FactCars(facts) == cars + [c];
        assert (cars + [c])[..|cars + [c]| - 1] == cars;
        if c !in Pass(init).1 {
          StatsOfAbsent(init, c);
        }
        forall c' | c' in Pass(facts).1 ensures Pass(facts).1[c'] == StatsOf(facts, c') {
          if c' != c {
            assert StatsOf(facts, c') == StatsOf(init, c');
          }
        }
      } else {
        assert FactCars(facts) == cars;
      }
    }
  }

  // ---------------------------------------------------------------------------------------
  // Judge averages
  // ---------------------------------------------------------------------------------------

  /** The car's item judge rows (rows with a car and an item), in order. */
  function CarJudgeRows(rows: seq<JudgeRow>, c: int): (r: seq<JudgeRow>)
    ensures forall k :: 0 <= k < |r| ==> r[k] in rows && r[k].carId == Some(c) && r[k].runItemId.Some?
  {
    if |rows| == 0 then []
    else
      (if rows[0].carId == Some(c) && rows[0].runItemId.Some? then [rows[0]] else []) + CarJudgeRows(rows[1..], c)
  }

  /** The `overall` scores of the car's item judge rows. */
  function JudgeValues(rows: seq<JudgeRow>, c: int): (xs: seq<real>)
    ensures |xs| == |CarJudgeRows(rows, c)|
    ensures forall k :: 0 <= k < |xs| ==> xs[k] == CarJudgeRows(rows, c)[k].overall
  {
    var own := CarJudgeRows(rows, c);
    seq(|own|, k requires 0 <= k < |own| => own[k].overall)
  }

  /** Judge scores within [0, 10] average within [0, 10]. */
  lemma JudgeAverageInRange(rows: seq<JudgeRow>, c: int)
    requires forall k :: 0 <= k < |rows| ==> InScoreRange(rows[k].overall)
    ensures Mean(Collect(JudgeValues(rows, c))).Some? ==> InScoreRange(Mean(Collect(JudgeValues(rows, c))).value)
  {
    var xs := JudgeValues(rows, c);
    if |xs| > 0 {
      forall k | 0 <= k < |xs| ensures 0.0 <= xs[k] <= 10.0 {
        var row := CarJudgeRows(rows, c)[k];
        assert row in rows;
      }
      MeanBounds(xs, 0.0, 10.0);
    }
  }

  // ---------------------------------------------------------------------------------------
  // Rows
  // ---------------------------------------------------------------------------------------

  datatype BoardRow = BoardRow(
    carId: int,
    carName: string,
    connectionName: string,
    modelName: string,
    itemsTotal: nat,
    itemsFailed: nat,
    itemsPartial: nat,
    avgTtftMs: Option<real>,
    avgLatencyMs: Option<real>,
    avgTokensPerSec: Option<real>,
    errorRate: real,
    assertionPassRate: Option<real>,
    avgJudgeOverall: Option<real>)

  const UnknownConnection := "unknown"

  /** The row of an existing car: its counters, the averages (absent without samples), the
      error rate (0.0 without items), the pass rate (absent without assertions) and the
      judge average. A car whose connection is gone shows connection "unknown". */
  function RowOf(d: BoardData, car: Car, s: Stats): (r: BoardRow)
    ensures r.carId == car.id && r.carName == car.name && r.modelName == car.modelName
    ensures FindConnection(d.conns, car.connectionId).Some? ==> r.connectionName == FindConnection(d.conns, car.connectionId).value.name
    ensures FindConnection(d.conns, car.connectionId).None? ==> r.connectionName == UnknownConnection
    ensures r.itemsTotal == s.total && r.itemsFailed == s.failed && r.itemsPartial == s.partial
    ensures s.errors <= s.total ==> 0.0 <= r.errorRate <= 1.0
    ensures s.total == 0 ==> r.errorRate == 0.0
    ensures s.total > 0 ==> r.errorRate * s.total as real == s.errors as real
    ensures r.avgTtftMs.None? <==> s.ttft.count == 0
    ensures r.avgLatencyMs.None? <==> s.latency.count == 0
    ensures r.avgTokensPerSec.None? <==> s.tps.count == 0
    ensures r.assertionPassRate.None? <==> s.assertionsTotal <= 0
    ensures r.assertionPassRate.Some? ==> r.assertionPassRate.value * s.assertionsTotal as real == s.assertionsPassed as real
    ensures r.avgJudgeOverall == Mean(Collect(JudgeValues(d.judgeRows, car.id)))
  {
    var conn := FindConnection(d.conns, car.connectionId);
    BoardRow(car.id, car.name, if conn.Some? then conn.value.name else UnknownConnection, car.modelName,
             s.total, s.failed, s.partial,
             Mean(s.ttft), Mean(s.latency), Mean(s.tps),
             ErrorRate(s.errors, s.total),
             if s.assertionsTotal > 0 then Some(s.assertionsPassed as real / s.assertionsTotal as real) else None,
             Mean(Collect(JudgeValues(d.judgeRows, car.id))))
  }

  /** The listed car ids that have a car row, in order. */
  function KnownCars(d: BoardData, order: seq<int>): (r: seq<int>)
    ensures forall c :: c in r <==> c in order && FindCar(d.cars, c).Some?
  {
    if |order| == 0 then []
    else (if FindCar(d.cars, order[0]).Some? then [order[0]] else []) + KnownCars(d, order[1..])
  }

  /** The rows of the listed car ids, in order; ids without a car row are skipped. */
  function RowsOf(d: BoardData, order: seq<int>, stats: map<int, Stats>): (r: seq<BoardRow>)
    requires forall c :: c in order ==> c in stats
    ensures |r| == |KnownCars(d, order)|
  {
    var known := KnownCars(d, order);
    seq(|known|, k requires 0 <= k < |known| => RowOf(d, FindCar(d.cars, known[k]).value, stats[known[k]]))
  }

  function RankOf(r: BoardRow): RankKey {
    RankKey(r.avgJudgeOverall, r.assertionPassRate, r.errorRate)
  }

  predicate RowLe(a: BoardRow, b: BoardRow) {
    RankGe(RankOf(a), RankOf(b))
  }

  lemma RowLePreorder()
    ensures TotalPreorder(RowLe)
  {
    forall a: BoardRow, b: BoardRow ensures RowLe(a, b) || RowLe(b, a) {
      RankGeTotal(RankOf(a), RankOf(b));
    }
    forall a: BoardRow, b: BoardRow, c: BoardRow | RowLe(a, b) && RowLe(b, c) ensures RowLe(a, c) {
      RankGeTransitive(RankOf(a), RankOf(b), RankOf(c));
    }
  }

  /** The rows in the order the statistics were created. */
  function UnsortedRows(d: BoardData): seq<BoardRow> {
    PassIsPerCar(Facts(d));
    var (order, stats) := Pass(Facts(d));
    RowsOf(d, order, stats)
  }

  /** The leaderboard: the rows ranked best first, ties in creation order. */
  function Leaderboard(d: BoardData): (rows: seq<BoardRow>)
    ensures multiset(rows) == multiset(UnsortedRows(d))
  {
    SortBy(UnsortedRows(d), RowLe)
  }

  /** The leaderboard is ranked, a permutation of the per-car rows, and stable. */
  lemma LeaderboardRanked(d: BoardData, y: BoardRow)
    ensures SortedBy(Leaderboard(d), RowLe)
    ensures Equivalents(Leaderboard(d), y, RowLe) == Equivalents(UnsortedRows(d), y, RowLe)
  {
    RowLePreorder();
    SortByCorrect(UnsortedRows(d), RowLe, y);
  }

  /** A listed row belongs to an existing car with a metric or output row, and holds the
      statistics of that car's rows alone. */
  lemma LeaderboardRowOfCar(d: BoardData, k: nat)
    requires k < |Leaderboard(d)|
    ensures var c := Leaderboard(d)[k].carId;
            FindCar(d.cars, c).Some? && c in FactCars(Facts(d)) &&
            Leaderboard(d)[k] == RowOf(d, FindCar(d.cars, c).value, StatsOf(Facts(d), c))
  {
    var facts := Facts(d);
    PassIsPerCar(facts);
    var (order, stats) := Pass(facts);
    var known := KnownCars(d, order);
    var i := InMultiset(Leaderboard(d), RowsOf(d, order, stats), k);
  }

  /** Every existing car with a metric or output row is listed. */
  lemma LeaderboardHasCar(d: BoardData, c: int)
    requires FindCar(d.cars, c).Some? && c in FactCars(Facts(d))
    ensures exists k :: 0 <= k < |Leaderboard(d)| && Leaderboard(d)[k].carId == c
  {
    var facts := Facts(d);
    PassIsPerCar(facts);
    var (order, stats) := Pass(facts);
    var known := KnownCars(d, order);
    var i :| 0 <= i < |known| && known[i] == c;
    var rows := RowsOf(d, order, stats);
    assert UnsortedRows(d) == rows;
    assert rows[i] == RowOf(d, FindCar(d.cars, c).value, stats[c]);
    var k := InMultiset(rows, Leaderboard(d), i);
    assert Leaderboard(d)[k].carId == c;
  }

  /** A car has a row exactly when its car row exists and it has a metric or output row. */
  lemma LeaderboardCars(d: BoardData, c: int)
    ensures (exists k :: 0 <= k < |Leaderboard(d)| && Leaderboard(d)[k].carId == c) <==>
            FindCar(d.cars, c).Some? && c in FactCars(Facts(d))
  {
    if exists k :: 0 <= k < |Leaderboard(d)| && Leaderboard(d)[k].carId == c {
      var k :| 0 <= k < |Leaderboard(d)| && Leaderboard(d)[k].carId == c;
      LeaderboardRowOfCar(d, k);
    }
    if FindCar(d.cars, c).Some? && c in FactCars(Facts(d)) {
      LeaderboardHasCar(d, c);
    }
  }

  /** An element of one of two sequences with the same multiset is in the other. */
  lemma InMultiset<T>(a: seq<T>, b: seq<T>, k: nat) returns (i: nat)
    requires multiset(a) == multiset(b) && k < |a|
    ensures i < |b| && b[i] == a[k]
  {
    assert a[k] in multiset(b);
    i :| 0 <= i < |b| && b[i] == a[k];
  }
}
