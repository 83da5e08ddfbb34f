/** Judging a finished run (`judge_run` in proxy/app/api/runs.py): the run's earlier judge
    rows are replaced by one row per item that has an output and a test, scored by the
    judge car through the provider, then one aggregate row per car and one for the whole
    run. The provider call is a parameter; its failure ends the operation. */
module JudgeRun {
  import opened Wrappers
  import opened Json
  import opened Externals
  import opened Text
  import opened Domain
  import opened Sorting
  import opened Ranking
  import opened Judge
  import opened Dispatch

  /** A stored output row: the final text and the streamed text of an item. */
  datatype OutputRow = OutputRow(runItemId: int, finalText: Option<string>, streamedText: Option<string>)

  /** The judge table after the operation and the two counts it reports. */
  datatype JudgeOutcome = JudgeOutcome(table: seq<JudgeRow>, itemScores: nat, carAggregates: nat)

  /** The provider, called with the judge connection, the request and the timeout. */
  type JudgeProvider = (Connection, ChatRequest, int) -> Result<ProviderResponse>

  const RunNotFoundError := "Run not found"
  const NoJudgeCarError := "No judge car selected"
  const JudgeCarNotFoundError := "Judge car not found"
  const JudgeConnectionNotFoundError := "Judge connection not found"
  const ParseFailedRationale := "Judge JSON parse failed"
  const CarAggregateRationale := "Per-car aggregate"
  const RunAggregateRationale := "Run aggregate"
  const JudgeTimeoutMs := 60000
  const JudgeMaxTokens := 300

  // ---------------------------------------------------------------------------------------
  // Choosing the judge
  // ---------------------------------------------------------------------------------------

  /** A Python integer's truth value: absent and zero are false. */
  predicate Truthy(x: Option<int>) {
    x.Some? && x.value != 0
  }

  /** `payload.judge_car_id or run.judge_car_id_nullable`, absent unless truthy. */
  function ChooseJudgeCar(requested: Option<int>, stored: Option<int>): (r: Option<int>)
    ensures Truthy(requested) ==> r == requested
    ensures !Truthy(requested) && Truthy(stored) ==> r == stored
    ensures !Truthy(requested) && !Truthy(stored) ==> r.None?
  {
    if Truthy(requested) then requested else if Truthy(stored) then stored else None
  }

  // ---------------------------------------------------------------------------------------
  // Scoring the items
  // ---------------------------------------------------------------------------------------

  /** The run's items in ascending id order. */
  predicate IdLe(a: RunItem, b: RunItem) {
    a.id <= b.id
  }

  function ItemsOfRun(items: seq<RunItem>, runId: int): (r: seq<RunItem>)
    ensures forall k :: 0 <= k < |r| ==> r[k] in items && r[k].runId == runId
    ensures forall k :: 0 <= k < |items| && items[k].runId == runId ==> items[k] in r
  {
    if |items| == 0 then []
    else (if items[0].runId == runId then [items[0]] else []) + ItemsOfRun(items[1..], runId)
  }

  function RunItemsById(items: seq<RunItem>, runId: int): (r: seq<RunItem>)
    ensures multiset(r) == multiset(ItemsOfRun(items, runId))
  {
    SortBy(ItemsOfRun(items, runId), IdLe)
  }

  /** The output of an item (the last row, as the dict built from the rows keeps). */
  function FindOutput(outputs: seq<OutputRow>, itemId: int): (r: Option<OutputRow>)
    ensures r.Some? ==> r.value in outputs && r.value.runItemId == itemId
    ensures r.None? <==> forall k :: 0 <= k < |outputs| ==> outputs[k].runItemId != itemId
  {
    if |outputs| == 0 then None
    else if outputs[|outputs| - 1].runItemId == itemId then Some(outputs[|outputs| - 1])
    else FindOutput(outputs[..|outputs| - 1], itemId)
  }

  /** The test of an item. Only truthy test ids are looked up. */
  function FindTest(tests: seq<TestCase>, testId: Option<int>): (r: Option<TestCase>)
    ensures r.Some? ==> r.value in tests && Some(r.value.id) == testId && Truthy(testId)
    ensures r.None? <==> !Truthy(testId) || forall k :: 0 <= k < |tests| ==> tests[k].id != testId.value
  {
    if !Truthy(testId) || |tests| == 0 then None
    else if tests[|tests| - 1].id == testId.value then Some(tests[|tests| - 1])
    else FindTest(tests[..|tests| - 1], testId)
  }

  /** `final_text or streamed_text or ""`. */
  function JudgedText(o: OutputRow): (t: string)
    ensures o.finalText.Some? && |o.finalText.value| > 0 ==> t == o.finalText.value
    ensures !(o.finalText.Some? && |o.finalText.value| > 0) && o.streamedText.Some? ==> t == o.streamedText.value
    ensures !(o.finalText.Some? && |o.finalText.value| > 0) && o.streamedText.None? ==> t == ""
  {
    if o.finalText.Some? && |o.finalText.value| > 0 then o.finalText.value
    else if o.streamedText.Some? then o.streamedText.value
    else ""
  }

  /** The judge's request: the judge car's model, the two judge messages, deterministic
      sampling, at most 300 tokens, streamed, and tagged with the run and item. */
  function JudgeRequest(judgeCar: Car, runId: int, itemId: int, messages: seq<Message>): (q: ChatRequest)
    ensures q.model == judgeCar.modelName && q.messages == messages
    ensures q.temperature == Some(0.0) && q.topP == Some(1.0) && q.maxTokens == Some(JudgeMaxTokens) && q.stream
    ensures q.metadata == map["judge" := JBool(true), "run_id" := JInt(runId), "run_item_id" := JInt(itemId)]
  {
    ChatRequest(judgeCar.modelName, messages, Some(0.0), Some(1.0), Some(JudgeMaxTokens), None, None, None, None, true,
                map["judge" := JBool(true), "run_id" := JInt(runId), "run_item_id" := JInt(itemId)])
  }

  /** The judge's reply text: the response text, or the streamed pieces when it is empty. */
  function ReplyText(resp: ProviderResponse): (t: string)
    ensures |resp.text| > 0 ==> t == resp.text
    ensures |resp.text| == 0 ==> t == Concat(resp.streamed)
  {
    if |resp.text| > 0 then resp.text else Concat(resp.streamed)
  }

  /** The scores stored for a reply: the validated judge JSON, or zeros with a note when
      the reply does not parse. */
  function ScoresOf(ext: Externals, raw: string): (p: JudgePayload)
    ensures ScoresInRange(p)
    ensures ParseJudgeJson(ext, raw).Success? ==> p == ParseJudgeJson(ext, raw).value
    ensures ParseJudgeJson(ext, raw).Failure? ==> p == JudgePayload(0.0, 0.0, 0.0, 0.0, ParseFailedRationale)
  {
    match ParseJudgeJson(ext, raw)
    case Success(p) => p
    case Failure(_) => JudgePayload(0.0, 0.0, 0.0, 0.0, ParseFailedRationale)
  }

  /** An item is judged when it has an output and a test. */
  predicate Judgeable(item: RunItem, outputs: seq<OutputRow>, tests: seq<TestCase>) {
    FindOutput(outputs, item.id).Some? && FindTest(tests, item.testId).Some?
  }

  /** The judged items, in order. */
  function JudgeableItems(items: seq<RunItem>, outputs: seq<OutputRow>, tests: seq<TestCase>): (r: seq<RunItem>)
    ensures |r| <= |items|
    ensures forall k :: 0 <= k < |r| ==> Judgeable(r[k], outputs, tests) && r[k] in items
  {
    if |items| == 0 then []
    else (if Judgeable(items[0], outputs, tests) then [items[0]] else []) + JudgeableItems(items[1..], outputs, tests)
  }

  /** The judge row of one item, or nothing for an item without output or test. */
  function ScoreItem(ext: Externals, provider: JudgeProvider, runId: int, judgeCar: Car, conn: Connection,
                     outputs: seq<OutputRow>, tests: seq<TestCase>, item: RunItem): (r: Result<Option<JudgeRow>>)
    ensures r.Success? ==> (r.value.Some? <==> Judgeable(item, outputs, tests))
    ensures r.Success? && r.value.Some? ==>
              r.value.value.runId == runId && r.value.value.runItemId == Some(item.id) && r.value.value.carId == item.carId
    ensures r.Success? && r.value.Some? ==>
              InScoreRange(r.value.value.writing) && InScoreRange(r.value.value.coding) &&
              InScoreRange(r.value.value.tool) && InScoreRange(r.value.value.overall)
    ensures r.Failure? ==> Judgeable(item, outputs, tests)
  {
    var output := FindOutput(outputs, item.id);
    var test := FindTest(tests, item.testId);
    if output.None? || test.None? then Success(None)
    else
      var messages := BuildJudgeMessages(test.value.name, test.value.userPrompt, JudgedText(output.value));
      var resp :- provider(conn, JudgeRequest(judgeCar, runId, item.id, messages), JudgeTimeoutMs);
      var p := ScoresOf(ext, ReplyText(resp));
      Success(Some(JudgeRow(runId, Some(item.id), item.carId, p.writing, p.coding, p.tool, p.overall, p.rationale)))
  }

  predicate RowInRange(r: JudgeRow) {
    InScoreRange(r.writing) && InScoreRange(r.coding) && InScoreRange(r.tool) && InScoreRange(r.overall)
  }

  /** Score the items in order; the first provider failure ends the loop. */
  function ScoreItems(ext: Externals, provider: JudgeProvider, runId: int, judgeCar: Car, conn: Connection,
                      outputs: seq<OutputRow>, tests: seq<TestCase>, items: seq<RunItem>): (r: Result<seq<JudgeRow>>)
    ensures r.Success? ==> |r.value| == |JudgeableItems(items, outputs, tests)|
    decreases |items|
  {
    if |items| == 0 then Success([])
    else
      var first :- ScoreItem(ext, provider, runId, judgeCar, conn, outputs, tests, items[0]);
      var rest :- ScoreItems(ext, provider, runId, judgeCar, conn, outputs, tests, items[1..]);
      Success((if first.Some? then [first.value] else []) + rest)
  }

  /** On success there is one row per judged item, in order, tagged with the item and its
      car, with every score in [0, 10]. */
  lemma {:induction false} ScoreItemsRows(ext: Externals, provider: JudgeProvider, runId: int, judgeCar: Car, conn: Connection,
                                          outputs: seq<OutputRow>, tests: seq<TestCase>, items: seq<RunItem>, k: nat)
    requires ScoreItems(ext, provider, runId, judgeCar, conn, outputs, tests, items).Success?
    requires k < |JudgeableItems(items, outputs, tests)|
    ensures var rows := ScoreItems(ext, provider, runId, judgeCar, conn, outputs, tests, items).value;
            var judged := JudgeableItems(items, outputs, tests);
            rows[k].runId == runId && rows[k].runItemId == Some(judged[k].id) && rows[k].carId == judged[k].carId &&
            RowInRange(rows[k])
    decreases |items|
  {
    var first := ScoreItem(ext, provider, runId, judgeCar, conn, outputs, tests, items[0]).value;
    var rest := ScoreItems(ext, provider, runId, judgeCar, conn, outputs, tests, items[1..]).value;
    var head := if first.Some? then [first.value] else [];
    assert ScoreItems(ext, provider, runId, judgeCar, conn, outputs, tests, items).value == head + rest;
    var judgedRest := JudgeableItems(items[1..], outputs, tests);
    assert JudgeableItems(items, outputs, tests) ==
           (if Judgeable(items[0], outputs, tests) then [items[0]] else []) + judgedRest;
    if k >= |head| {
      ScoreItemsRows(ext, provider, runId, judgeCar, conn, outputs, tests, items[1..], k - |head|);
    }
  }

  // ---------------------------------------------------------------------------------------
  // Aggregates
  // ---------------------------------------------------------------------------------------

  datatype ScoreKind = Writing | Coding | ToolUse | Overall

  function ScoreOf(r: JudgeRow, kind: ScoreKind): real {
    match kind
    case Writing => r.writing
    case Coding => r.coding
    case ToolUse => r.tool
    case Overall => r.overall
  }

  /** One score of every row. */
  function Column(rows: seq<JudgeRow>, kind: ScoreKind): (xs: seq<real>)
    ensures |xs| == |rows|
    ensures forall k :: 0 <= k < |rows| ==> xs[k] == ScoreOf(rows[k], kind)
  {
    if |rows| == 0 then [] else Column(rows[..|rows| - 1], kind) + [ScoreOf(rows[|rows| - 1], kind)]
  }

  /** `sum(...) / total` over a non-empty list of scores. */
  function Average(xs: seq<real>): (a: real)
    requires |xs| > 0
    ensures Mean(Collect(xs)) == Some(a)
  {
    Mean(Collect(xs)).value
  }

  /** An aggregate row over non-empty rows: each score is the rows' average. */
  function AggregateRow(runId: int, carId: Option<int>, rows: seq<JudgeRow>, rationale: string): (a: JudgeRow)
    requires |rows| > 0
    ensures a.runId == runId && a.runItemId.None? && a.carId == carId && a.rationale == rationale
    ensures forall kind :: Mean(Collect(Column(rows, kind))) == Some(ScoreOf(a, kind))
  {
    JudgeRow(runId, None, carId, Average(Column(rows, Writing)), Average(Column(rows, Coding)),
             Average(Column(rows, ToolUse)), Average(Column(rows, Overall)), rationale)
  }

  /** The average of in-range scores is in range. */
  lemma AggregateInRange(runId: int, carId: Option<int>, rows: seq<JudgeRow>, rationale: string)
    requires |rows| > 0
    requires forall k :: 0 <= k < |rows| ==> RowInRange(rows[k])
    ensures RowInRange(AggregateRow(runId, carId, rows, rationale))
  {
    MeanBounds(Column(rows, Writing), 0.0, 10.0);
    MeanBounds(Column(rows, Coding), 0.0, 10.0);
    MeanBounds(Column(rows, ToolUse), 0.0, 10.0);
    MeanBounds(Column(rows, Overall), 0.0, 10.0);
  }

  /** The car ids of the rows that have one, in row order. */
  function CarIdsOf(rows: seq<JudgeRow>): (r: seq<int>)
    ensures forall c :: c in r <==> exists k :: 0 <= k < |rows| && rows[k].carId == Some(c)
  {
    if |rows| == 0 then []
    else CarIdsOf(rows[..|rows| - 1]) + (if rows[|rows| - 1].carId.Some? then [rows[|rows| - 1].carId.value] else [])
  }

  /** The rows of one car, in order. */
  function RowsOfCar(rows: seq<JudgeRow>, c: int): (r: seq<JudgeRow>)
    ensures |r| <= |rows|
    ensures forall k :: 0 <= k < |r| ==> r[k] in rows && r[k].carId == Some(c)
    ensures (exists k :: 0 <= k < |rows| && rows[k].carId == Some(c)) ==> |r| > 0
  {
    if |rows| == 0 then []
    else
      var init := RowsOfCar(rows[..|rows| - 1], c);
      if rows[|rows| - 1].carId == Some(c) then init + [rows[|rows| - 1]]
      else
        assert forall k :: 0 <= k < |rows| - 1 ==> rows[..|rows| - 1][k] == rows[k];
        init
  }

  /** One aggregate per car, in order of the car's first row. */
  function CarAggregates(runId: int, rows: seq<JudgeRow>, cars: seq<int>): (r: seq<JudgeRow>)
    requires forall c :: c in cars ==> exists k :: 0 <= k < |rows| && rows[k].carId == Some(c)
    ensures |r| == |cars|
    ensures forall k :: 0 <= k < |cars| ==>
              r[k] == AggregateRow(runId, Some(cars[k]), RowsOfCar(rows, cars[k]), CarAggregateRationale)
  {
    if |cars| == 0 then []
    else [AggregateRow(runId, Some(cars[0]), RowsOfCar(rows, cars[0]), CarAggregateRationale)] + CarAggregates(runId, rows, cars[1..])
  }

  /** The run aggregate, when there are item rows. */
  function RunAggregate(runId: int, rows: seq<JudgeRow>): (r: seq<JudgeRow>)
    ensures |r| == if |rows| > 0 then 1 else 0
    ensures |rows| > 0 ==> r[0] == AggregateRow(runId, None, rows, RunAggregateRationale)
  {
    if |rows| > 0 then [AggregateRow(runId, None, rows, RunAggregateRationale)] else []
  }

  // ---------------------------------------------------------------------------------------
  // The operation
  // ---------------------------------------------------------------------------------------

  /** The judge rows of the other runs. */
  function OtherRuns(table: seq<JudgeRow>, runId: int): (r: seq<JudgeRow>)
    ensures forall k :: 0 <= k < |r| ==> r[k].runId != runId && r[k] in table
    ensures forall k :: 0 <= k < |table| && table[k].runId != runId ==> table[k] in r
  {
    if |table| == 0 then []
    else (if table[0].runId != runId then [table[0]] else []) + OtherRuns(table[1..], runId)
  }

  /** The new rows of a judged run from its item rows: the item rows, the car aggregates
      and the run aggregate. */
  function NewRows(runId: int, itemRows: seq<JudgeRow>): (r: seq<JudgeRow>)
  {
    var cars := Dedup(CarIdsOf(itemRows));
    itemRows + CarAggregates(runId, itemRows, cars) + RunAggregate(runId, itemRows)
  }

  /** The judge car and its connection: the run, the judge car (the request's, else the
      run's) and its connection must exist, checked in that order. */
  function Setup(run: Option<RunRecord>, requested: Option<int>, cars: seq<Car>, conns: seq<Connection>): (r: Result<(Car, Connection)>)
    ensures run.None? ==> r == Failure(RunNotFoundError)
    ensures run.Some? && ChooseJudgeCar(requested, run.value.judgeCarId).None? ==> r == Failure(NoJudgeCarError)
    ensures run.Some? && ChooseJudgeCar(requested, run.value.judgeCarId).Some? ==>
              (FindCar(cars, ChooseJudgeCar(requested, run.value.judgeCarId).value).None? ==>
                 r == Failure(JudgeCarNotFoundError))
    ensures r.Success? ==> run.Some? && Some(r.value.0.id) == ChooseJudgeCar(requested, run.value.judgeCarId) &&
                           r.value.0 in cars && r.value.1 in conns && r.value.1.id == r.value.0.connectionId
    ensures r.Failure? && run.Some? && ChooseJudgeCar(requested, run.value.judgeCarId).Some? &&
            FindCar(cars, ChooseJudgeCar(requested, run.value.judgeCarId).value).Some? ==>
              r == Failure(JudgeConnectionNotFoundError) &&
              FindConnection(conns, FindCar(cars, ChooseJudgeCar(requested, run.value.judgeCarId).value).value.connectionId).None?
  {
    if run.None? then Failure(RunNotFoundError)
    else
      var judgeId := ChooseJudgeCar(requested, run.value.judgeCarId);
      if judgeId.None? then Failure(NoJudgeCarError)
      else
        var judgeCar := FindCar(cars, judgeId.value);
        if judgeCar.None? then Failure(JudgeCarNotFoundError)
        else
          var conn := FindConnection(conns, judgeCar.value.connectionId);
          if conn.None? then Failure(JudgeConnectionNotFoundError)
          else Success((judgeCar.value, conn.value))
  }

  /** The item rows of a judged run, scored in ascending item id order. */
  function ItemRows(ext: Externals, provider: JudgeProvider, runId: int, judge: (Car, Connection), items: seq<RunItem>,
                    outputs: seq<OutputRow>, tests: seq<TestCase>): (r: Result<seq<JudgeRow>>)
    ensures r.Success? ==> |r.value| == |JudgeableItems(RunItemsById(items, runId), outputs, tests)|
  {
    ScoreItems(ext, provider, runId, judge.0, judge.1, outputs, tests, RunItemsById(items, runId))
  }

  /** `judge_run`: after the setup checks, every judged item is scored and the new rows
      replace the run's earlier judge rows; the counts are the item rows and the cars
      aggregated. */
  function JudgeRunOp(ext: Externals, provider: JudgeProvider, runId: int, run: Option<RunRecord>, requested: Option<int>,
                      cars: seq<Car>, conns: seq<Connection>, items: seq<RunItem>, outputs: seq<OutputRow>,
                      tests: seq<TestCase>, table: seq<JudgeRow>): (r: Result<JudgeOutcome>)
    ensures Setup(run, requested, cars, conns).Failure? ==> r == Failure(Setup(run, requested, cars, conns).error)
    ensures Setup(run, requested, cars, conns).Success? ==>
              (r.Success? <==> ItemRows(ext, provider, runId, Setup(run, requested, cars, conns).value, items, outputs, tests).Success?)
  {
    var judge :- Setup(run, requested, cars, conns);
    var itemRows :- ItemRows(ext, provider, runId, judge, items, outputs, tests);
    Success(JudgeOutcome(OtherRuns(table, runId) + NewRows(runId, itemRows), |itemRows|, |Dedup(CarIdsOf(itemRows))|))
  }

  /** `judge_run` with the judge table it leaves behind. A setup error leaves the table as
      it was. Past setup, the run's earlier rows are deleted and committed before anything
      is scored, so when a judge call then raises they stay deleted and the rows added
      since are rolled back; a success leaves the outcome's table. */
  function JudgeRunState(ext: Externals, provider: JudgeProvider, runId: int, run: Option<RunRecord>, requested: Option<int>,
                         cars: seq<Car>, conns: seq<Connection>, items: seq<RunItem>, outputs: seq<OutputRow>,
                         tests: seq<TestCase>, table: seq<JudgeRow>): (r: (Result<JudgeOutcome>, seq<JudgeRow>))
    ensures r.0 == JudgeRunOp(ext, provider, runId, run, requested, cars, conns, items, outputs, tests, table)
    ensures Setup(run, requested, cars, conns).Failure? ==> r.1 == table
    ensures r.0.Success? ==> r.1 == r.0.value.table
    ensures Setup(run, requested, cars, conns).Success? && r.0.Failure? ==>
              (forall k :: 0 <= k < |r.1| ==> r.1[k].runId != runId && r.1[k] in table) &&
              (forall k :: 0 <= k < |table| && table[k].runId != runId ==> table[k] in r.1)
  {
    var op := JudgeRunOp(ext, provider, runId, run, requested, cars, conns, items, outputs, tests, table);
    if Setup(run, requested, cars, conns).Failure? then (op, table)
    else if op.Success? then (op, op.value.table)
    else (op, OtherRuns(table, runId))
  }

  /** Every row belongs to the run and scores within [0, 10]. */
  predicate AllInRun(rows: seq<JudgeRow>, runId: int) {
    forall k :: 0 <= k < |rows| ==> rows[k].runId == runId && RowInRange(rows[k])
  }

  lemma CarAggregatesInRange(runId: int, rows: seq<JudgeRow>, cars: seq<int>)
    requires AllInRun(rows, runId)
    requires forall c :: c in cars ==> exists k :: 0 <= k < |rows| && rows[k].carId == Some(c)
    ensures AllInRun(CarAggregates(runId, rows, cars), runId)
  {
    var aggs := CarAggregates(runId, rows, cars);
    forall k | 0 <= k < |cars| ensures aggs[k].runId == runId && RowInRange(aggs[k]) {
      AggregateInRange(runId, Some(cars[k]), RowsOfCar(rows, cars[k]), CarAggregateRationale);
    }
  }

  lemma RunAggregateInRange(runId: int, rows: seq<JudgeRow>)
    requires AllInRun(rows, runId)
    ensures AllInRun(RunAggregate(runId, rows), runId)
  {
    if |rows| > 0 {
      AggregateInRange(runId, None, rows, RunAggregateRationale);
    }
  }

  lemma AllInRunConcat(a: seq<JudgeRow>, b: seq<JudgeRow>, runId: int)
    requires AllInRun(a, runId) && AllInRun(b, runId)
    ensures AllInRun(a + b, runId)
  {
    assert forall k :: |a| <= k < |a + b| ==> (a + b)[k] == b[k - |a|];
  }

  /** The new rows all belong to the run and score within [0, 10]. */
  lemma NewRowsInRange(runId: int, itemRows: seq<JudgeRow>)
    requires AllInRun(itemRows, runId)
    ensures AllInRun(NewRows(runId, itemRows), runId)
  {
    var cars := Dedup(CarIdsOf(itemRows));
    CarAggregatesInRange(runId, itemRows, cars);
    RunAggregateInRange(runId, itemRows);
    AllInRunConcat(itemRows, CarAggregates(runId, itemRows, cars), runId);
    AllInRunConcat(itemRows + CarAggregates(runId, itemRows, cars), RunAggregate(runId, itemRows), runId);
  }

  /** The item rows of a successful judging are those of the judged items, in order. */
  lemma ItemRowsOf(ext: Externals, provider: JudgeProvider, runId: int, judge: (Car, Connection), items: seq<RunItem>,
                   outputs: seq<OutputRow>, tests: seq<TestCase>)
    requires ItemRows(ext, provider, runId, judge, items, outputs, tests).Success?
    ensures var rows := ItemRows(ext, provider, runId, judge, items, outputs, tests).value;
            var judged := JudgeableItems(RunItemsById(items, runId), outputs, tests);
            forall k :: 0 <= k < |rows| ==>
              rows[k].runId == runId && rows[k].runItemId == Some(judged[k].id) && rows[k].carId == judged[k].carId &&
              RowInRange(rows[k])
  {
    var rows := ItemRows(ext, provider, runId, judge, items, outputs, tests).value;
    forall k | 0 <= k < |rows|
      ensures var judged := JudgeableItems(RunItemsById(items, runId), outputs, tests);
              rows[k].runId == runId && rows[k].runItemId == Some(judged[k].id) && rows[k].carId == judged[k].carId &&
              RowInRange(rows[k])
    {
      ScoreItemsRows(ext, provider, runId, judge.0, judge.1, outputs, tests, RunItemsById(items, runId), k);
    }
  }

  /** What a successful judging consists of: the item rows it scored. */
  lemma JudgeRunShape(ext: Externals, provider: JudgeProvider, runId: int, run: Option<RunRecord>, requested: Option<int>,
                      cars: seq<Car>, conns: seq<Connection>, items: seq<RunItem>, outputs: seq<OutputRow>,
                      tests: seq<TestCase>, table: seq<JudgeRow>) returns (rows: seq<JudgeRow>)
    requires JudgeRunOp(ext, provider, runId, run, requested, cars, conns, items, outputs, tests, table).Success?
    ensures Setup(run, requested, cars, conns).Success?
    ensures ItemRows(ext, provider, runId, Setup(run, requested, cars, conns).value, items, outputs, tests) == Success(rows)
    ensures var o := JudgeRunOp(ext, provider, runId, run, requested, cars, conns, items, outputs, tests, table).value;
            o.table == OtherRuns(table, runId) + NewRows(runId, rows) && o.itemScores == |rows| &&
            o.carAggregates == |Dedup(CarIdsOf(rows))|
  {
    rows := ItemRows(ext, provider, runId, Setup(run, requested, cars, conns).value, items, outputs, tests).value;
  }

  /** After judging, the other runs' rows are exactly kept, every row of the run is new and
      scores within [0, 10], and one item score is reported per judged item. */
  lemma JudgeRunTable(ext: Externals, provider: JudgeProvider, runId: int, run: Option<RunRecord>, requested: Option<int>,
                      cars: seq<Car>, conns: seq<Connection>, items: seq<RunItem>, outputs: seq<OutputRow>,
                      tests: seq<TestCase>, table: seq<JudgeRow>)
    requires JudgeRunOp(ext, provider, runId, run, requested, cars, conns, items, outputs, tests, table).Success?
    ensures var o := JudgeRunOp(ext, provider, runId, run, requested, cars, conns, items, outputs, tests, table).value;
            (forall k :: 0 <= k < |o.table| && o.table[k].runId != runId ==> o.table[k] in table) &&
            (forall k :: 0 <= k < |table| && table[k].runId != runId ==> table[k] in o.table) &&
            (forall k :: 0 <= k < |o.table| && o.table[k].runId == runId ==> RowInRange(o.table[k])) &&
            o.itemScores == |JudgeableItems(RunItemsById(items, runId), outputs, tests)|
  {
    var rows := JudgeRunShape(ext, provider, runId, run, requested, cars, conns, items, outputs, tests, table);
    ItemRowsOf(ext, provider, runId, Setup(run, requested, cars, conns).value, items, outputs, tests);
    NewRowsInRange(runId, rows);
    ReplaceRows(table, runId, NewRows(runId, rows));
  }

  /** Replacing a run's rows by rows of that run keeps the other runs' rows exactly. */
  lemma ReplaceRows(table: seq<JudgeRow>, runId: int, created: seq<JudgeRow>)
    requires AllInRun(created, runId)
    ensures var t := OtherRuns(table, runId) + created;
            (forall k :: 0 <= k < |t| && t[k].runId != runId ==> t[k] in table) &&
            (forall k :: 0 <= k < |table| && table[k].runId != runId ==> table[k] in t) &&
            (forall k :: 0 <= k < |t| && t[k].runId == runId ==> RowInRange(t[k]))
  {
    var others := OtherRuns(table, runId);
    assert forall k :: |others| <= k < |others + created| ==> (others + created)[k] == created[k - |others|];
  }

  /** The car ids of the items that have one, in order. */
  function ItemCarIds(items: seq<RunItem>): (r: seq<int>)
    ensures forall c :: c in r <==> exists k :: 0 <= k < |items| && items[k].carId == Some(c)
  {
    if |items| == 0 then []
    else ItemCarIds(items[..|items| - 1]) + (if items[|items| - 1].carId.Some? then [items[|items| - 1].carId.value] else [])
  }

  lemma {:induction false} CarIdsMatch(rows: seq<JudgeRow>, items: seq<RunItem>)
    requires |rows| == |items|
    requires forall k :: 0 <= k < |rows| ==> rows[k].carId == items[k].carId
    ensures CarIdsOf(rows) == ItemCarIds(items)
    decreases |rows|
  {
    if |rows| > 0 {
      CarIdsMatch(rows[..|rows| - 1], items[..|items| - 1]);
    }
  }

  /** One car aggregate is reported per distinct car among the judged items. */
  lemma JudgeRunCarCount(ext: Externals, provider: JudgeProvider, runId: int, run: Option<RunRecord>, requested: Option<int>,
                         cars: seq<Car>, conns: seq<Connection>, items: seq<RunItem>, outputs: seq<OutputRow>,
                         tests: seq<TestCase>, table: seq<JudgeRow>)
    requires JudgeRunOp(ext, provider, runId, run, requested, cars, conns, items, outputs, tests, table).Success?
    ensures JudgeRunOp(ext, provider, runId, run, requested, cars, conns, items, outputs, tests, table).value.carAggregates ==
            |Dedup(ItemCarIds(JudgeableItems(RunItemsById(items, runId), outputs, tests)))|
  {
    var rows := JudgeRunShape(ext, provider, runId, run, requested, cars, conns, items, outputs, tests, table);
    ItemRowsOf(ext, provider, runId, Setup(run, requested, cars, conns).value, items, outputs, tests);
    CarIdsMatch(rows, JudgeableItems(RunItemsById(items, runId), outputs, tests));
  }
}
