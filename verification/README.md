# LLMRace run engine in Dafny

LLMRace races "cars" against each other. A car is a model plus its sampling settings, and it reaches a provider through a "connection". The cars run over a "suite" of test cases. Starting a run creates one run item per test and car. A background executor then does four things for each item:

- it sends the test's messages to the car's provider;
- it runs a bounded loop of tool calls;
- it scores the output against the test's expected-output directives;
- it stores metrics and telemetry events.

Scorecards, run comparisons, an LLM judge and a cross-run leaderboard summarise the results.

This project models the deterministic core of that engine as pure functions over immutable values, and proves properties of them:

- the directive language and its evaluator;
- the metric arithmetic;
- telemetry sequence numbers and replay;
- the executor's dispatch order, retry loop, tool loop, item and run status, and semaphore rule;
- the run-start validation;
- scorecard, leaderboard and judge aggregation, the comparator, and the stream cursor;
- request normalisation and the provider client's pure helpers, including the OpenAI-compatible SSE stream;
- tool dispatch, fenced-code extraction and the fallback tool-command parser;
- judge messages and judge-JSON parsing;
- the provider-settings update.

Database rows are sequences of records, in insertion order. Library calls the core relies on are parameters. The datatype `Externals.Externals` bundles `json.loads`, `json.dumps`, `str()` of a JSON value, `re.search`, the calculator, and pydantic's lax reading of a string as a float. The provider client takes `decrypt_secret` and `os.getenv` as parameters of its own. Times are integer parameters. Floats are Dafny `real`s.

Modules, one per file:

- `Wrappers`: `Option` and `Result`.
- `Text`: Python string behaviour, covering `split`, `strip`, `lower`, `find`, `int` and `str`.
- `Json` and `Externals`: decoded JSON values and the library parameters.
- `Sorting`: a stable sort and `Dedup`.
- `Domain`: enums and rows of `db/models.py`.
- One module per component of the core, named after it. The executor is split into `Dispatch` (visiting order and the run's final status), `RetryLoop`, `ToolRounds` (the tool-call loop) and `Executor` (one attempt, one item and the semaphores).

## Model

| member | source | states |
|---|---|---|
| Assertions.ParseConstraints | proxy/app/runs/assertions.py:16-26 | A missing or empty constraint string gives no directives. Every directive produced has a stripped, lower-cased name without `:` and a stripped value. |
| Assertions.ParseChunk | proxy/app/runs/assertions.py:21-25 | A chunk without `:` is dropped (exactly those). Any other chunk yields a directive of the right shape. |
| Assertions.ParseChunkSplit | proxy/app/runs/assertions.py:24-25 | A chunk is split at its first colon. The name is stripped and lower-cased, the value is stripped, and the value may contain further colons. |
| Assertions.CleanPieces | proxy/app/runs/assertions.py:19 | After stripping, only non-empty pieces remain, and there are no more pieces than were given. |
| Assertions.ParseRender | proxy/app/runs/assertions.py:16-26 | Round trip: rendering well-formed directives joined by `;` and parsing the result gives back the same directives, in order. |
| Assertions.ParseRenderedChunks | proxy/app/runs/assertions.py:21-25 | Parsing the rendered chunks of directives gives the directives back. |
| Assertions.RenderChunkFacts | proxy/app/runs/assertions.py:19-25 | A rendered directive survives the split, the strip and the first-colon split unchanged. |
| Assertions.NonBlankWords | proxy/app/runs/assertions.py:12 | The `if w.strip()` filter after `split()` never removes a word. |
| Assertions.CheckMaxWords | proxy/app/runs/assertions.py:7-13 | A value `int()` rejects fails. Otherwise the directive passes iff the whitespace word count is at most the parsed limit. |
| Assertions.Check | proxy/app/runs/assertions.py:39-55 | Only a `regex` directive whose pattern the engine rejects raises. `contains` passes iff the value occurs in the text, `icontains` iff it occurs after lower-casing both, and `not_contains` iff it does not occur. `regex` passes iff the search matches. `max_words` passes iff `int()` accepts the value and the word count is at most it. A directive with any other name always fails. The result records the directive's kind and value. |
| Assertions.CheckAll | proxy/app/runs/assertions.py:35-64 | The evaluation raises iff some directive raises. Otherwise it yields one result per directive, in order, each equal to that directive's check. |
| Assertions.CountPassed | proxy/app/runs/assertions.py:66 | The passed count is the number of positions that hold a passed result. So it is at most the number of results, equal to it iff every result passed, and 0 iff none passed. |
| Assertions.PassedPositionsSnoc | proxy/app/runs/assertions.py:66 | Appending a result adds its position to the passed positions exactly when it passed. |
| Assertions.Evaluate | proxy/app/runs/assertions.py:29-71 | `total` is the number of parsed directives, unknown ones included. `passed` is the number of results that passed, so `passed <= total`, with equality iff every directive passed. Result `i` is the check of directive `i`. The whole evaluation fails iff some regex pattern is rejected. |
| Assertions.ContainsOpposite | proxy/app/runs/assertions.py:39-47 | `contains:v` and `not_contains:v` always give opposite results on the same text. |
| Assertions.IContainsIsLoweredContains | proxy/app/runs/assertions.py:42-43 | `icontains:v` on a text is `contains` of the lower-cased value in the lower-cased text. |
| AssertionExamples.ParseAllPass | proxy/tests/unit/test_assertions.py:6-10 | `"contains:Hello;regex:^Hello;max_words:3"` parses to those three directives. |
| AssertionExamples.ExampleAllPass | proxy/tests/unit/test_assertions.py:6-10 | That string evaluated on "Hello world" gives 3 passed out of 3, given a regex engine that matches `^Hello` there. |
| AssertionExamples.EvaluateAllPassed | proxy/app/runs/assertions.py:66-70 | When every directive passes, `passed == total ==` the number of directives. |
| AssertionExamples.EvaluateNonePassed | proxy/app/runs/assertions.py:66-70 | When no directive passes and none raises, `passed` is 0 and `total` is the number of directives. |
| AssertionExamples.ExampleUnknownCounts | proxy/tests/unit/test_assertions.py:13-18 | A failing `contains`, a failing `not_contains` and an `unknown_check` give 0 passed out of 3: the unknown directive counts, and it fails. |
| AssertionExamples.WordsHelloWorld | proxy/app/runs/assertions.py:12 | "Hello world" has two words. |
| Metrics.EstimateTokens | proxy/app/runs/metrics.py:16-18 | The estimate is at least 1. It is 1 without words. Otherwise it is the floor of 5/4 of the word count, stated as `4n <= 5w < 4(n+1)`. |
| Metrics.EstimateMonotone | proxy/app/runs/metrics.py:16-18 | More words never give a smaller estimate. |
| Metrics.TokensPerSec | proxy/app/runs/metrics.py:43 | The rate times the generation time in seconds is the token count. The rate is positive whenever tokens are. |
| Metrics.ComputeMetrics | proxy/app/runs/metrics.py:21-52 | Total latency is `finished - started`, clamped at 0. Generation time is present iff TTFT is, and it is `max(1, total - ttft)`. Output tokens are at least 1. Without usage, tokens are the estimate, flagged as estimated; otherwise the usage value is taken and its flag passed through. The rate is present iff generation time is. |
| Metrics.ExampleEstimated | proxy/tests/unit/test_metrics_and_judge.py:5-18 | Started 100, finished 1200, TTFT 200 and four words give total 1100, generation 900, 5 estimated tokens and a rate. |
| Telemetry.MaxSeq | proxy/app/runs/telemetry.py:19 | The maximum is absent iff the run has no events. Otherwise it is some event's number of that run, and no event of that run has a larger one. |
| Telemetry.NextSeq | proxy/app/runs/telemetry.py:19-23 | The next number is 1 for a run without events. It is larger than every number of the run and exactly one above the largest. |
| Telemetry.StampPayload | proxy/app/runs/telemetry.py:25-30 | The stored payload has the caller's keys plus `timestamp`, `run_id` and `run_item_id`. These three replace caller keys of the same name. Every other caller value is kept. |
| Telemetry.Emit | proxy/app/runs/telemetry.py:12-35 | The table only grows by one event at the end. Its number is above every earlier number of its run. It carries the run, item, type and stamped payload. |
| Telemetry.NextSeqOwnRun | proxy/app/runs/telemetry.py:19 | Events of other runs never change a run's next sequence number. |
| Telemetry.SequentialNumbering | proxy/app/runs/telemetry.py:19-33 | In a table built by emission, a run's events are numbered exactly 1..n in insertion order: no gaps, no duplicates. |
| Telemetry.SequentialMax | proxy/app/runs/telemetry.py:19 | In such a table, the stored maximum, or 0, is the run's event count. |
| Telemetry.EmitSequential | proxy/app/runs/telemetry.py:12-35 | Emitting keeps the table sequentially numbered. |
| Telemetry.EventsAfter | proxy/app/runs/telemetry.py:38-45 | Every listed event belongs to the run and has a number above the cursor. |
| Telemetry.EventsAfterMembers | proxy/app/runs/telemetry.py:38-45 | Exactly the run's events above the cursor are listed; none is missed. |
| Telemetry.EventsAfterIsSuffix | proxy/app/runs/telemetry.py:38-45 | In an emitted table, replay after `k` is the run's event list without its first `k` events. |
| Telemetry.EventsAfterAscending | proxy/app/runs/telemetry.py:43 | Replayed events come in strictly ascending sequence order. |
| Telemetry.ReplayNoDuplicatesNoGaps | proxy/app/api/runs.py:477-486 | Poll after `k`, move the cursor to the last event sent, then poll again after more events are appended. The two batches together are exactly one poll after `k` on the longer table: nothing twice, nothing skipped. |
| Telemetry.StartCursor | proxy/app/api/runs.py:466-474 | The stream starts after `after_seq` when it is given. Otherwise it starts after the `Last-Event-ID` header read as an integer. It starts after 0 when the header is missing, empty or unreadable. |
| Telemetry.ResumeFromEventId | proxy/app/api/runs.py:466-486 | A client that reconnects with the `id:` of the last event it saw resumes right after that event. |
| Telemetry.StopsIffCaughtUp | proxy/app/api/runs.py:493-494 | For a finished run, the stream stops iff the run has no events or the cursor has passed all of them. |
| Dispatch.OrderTests | proxy/app/runs/executor.py:100-104 | The tests are a permutation of the suite's tests. |
| Dispatch.OrderTestsSorted | proxy/app/runs/executor.py:102 | The ordered tests ascend by `order_index`. |
| Dispatch.KnownIds | proxy/app/runs/executor.py:105-107 | A selected id is kept iff it names an existing car. |
| Dispatch.OrderedCarsIds | proxy/app/runs/executor.py:105-107 | The visited cars are exactly the existing selected ids, in selection order. |
| Dispatch.VisitsAt | proxy/app/runs/executor.py:109-110 | Visit `i·m + j` is test `i` with car `j`: test-major, car-minor. |
| Dispatch.FindItem | proxy/app/runs/executor.py:112-118 | The lookup returns the first item of the run for that test and car. It returns none iff no such item exists. |
| Dispatch.Plan | proxy/app/runs/executor.py:109-135 | Every action of the dispatch loop targets an existing item. |
| Dispatch.PlanCoversVisit | proxy/app/runs/executor.py:112-135 | A visit whose test and car have an item yields an action on the first such item. |
| Dispatch.ApplyActions | proxy/app/runs/executor.py:119-135 | An item that no action targets is left exactly as it was. |
| Dispatch.CountsMeaning | proxy/app/runs/executor.py:141-147 | The total count is positive iff the run has items. The failed count equals the total iff every item failed. |
| Dispatch.FinalRunStatus | proxy/app/runs/executor.py:141-148 | A run ends FAILED iff it has items and every one failed. Otherwise it ends COMPLETED. |
| RetryLoop.Report | proxy/app/runs/executor.py:193-207 | A failed attempt is reported as retrying iff another attempt follows. A backoff is taken exactly then. |
| RetryLoop.Retry | proxy/app/runs/executor.py:183-207 | Between 1 and `retries + 1` attempts are made, and every attempt before the last failed. A success is the last attempt's outcome. The result is a failure iff all `retries + 1` attempts failed, and then it carries the last error. One report is made per failed attempt. |
| RetryLoop.RetryFrom | proxy/app/runs/executor.py:187-207 | The same as `Retry`, for the attempts after the first `k`. |
| ToolRounds.RoundOf | proxy/app/runs/executor.py:345-351 | Native tool calls are used when present, and then no fallback is looked for. Otherwise the single fallback command, with id `fallback_<loop>`, is used when the text holds one. A round has no calls iff neither exists. |
| ToolRounds.ToolArgs | proxy/app/runs/executor.py:364-366 | Arguments that are not an object are wrapped as `{"raw": value}`. |
| ToolRounds.RunTool | proxy/app/runs/executor.py:362-409 | A call is "ok" iff the tool succeeds, and then the tool's result is recorded. Otherwise `{"error": message}` is recorded. The tool message carries the dumped result, the call id and the tool name. |
| ToolRounds.RunTools | proxy/app/runs/executor.py:362-409 | A round's calls are executed in order, one record and one tool message each. |
| ToolRounds.Step | proxy/app/runs/executor.py:338-360 | Each response adds its round. The loop continues iff the round has calls. `exhausted` is set iff a round at index `limit - 1` has calls. |
| ToolRounds.ToolLoop | proxy/app/runs/executor.py:275-422 | The loop keeps the rounds made so far. It never goes past the limit, and it makes at least one more round when below it. |
| ToolRounds.ToolLoopUnfold | proxy/app/runs/executor.py:275-354 | One loop iteration either stops after its round or continues from the stepped state. |
| ToolRounds.ToolLoopRoundsOf | proxy/app/runs/executor.py:345-351 | Every round the loop adds is computed from its own response at its own loop index. |
| ToolRounds.ToolLoopContinues | proxy/app/runs/executor.py:353-354 | Every round but the last asked for tools. |
| ToolRounds.ToolLoopStopsEarly | proxy/app/runs/executor.py:353-354 | Stopping before the limit means the last round asked for no tools. |
| ToolRounds.ToolLoopExhausted | proxy/app/runs/executor.py:356-357 | The loop is exhausted iff the round at index `limit - 1` still asked for tools. |
| ToolRounds.RunToolLoop | proxy/app/runs/executor.py:270-357 | An attempt makes at most `limit` provider calls, and no rounds iff the limit is not positive. Every round but the last asked for tools. A last round before the limit asked for none. `exhausted` holds iff round `limit - 1` asked for tools. |
| ToolRounds.FallbackOnlyWithoutNativeCalls | proxy/app/runs/executor.py:347-351 | A round that used a fallback command had no native tool calls. |
| Executor.OutputText | proxy/app/runs/executor.py:438 | The output is the streamed pieces joined when anything streamed. Otherwise it is the last response's text, or "" without responses. |
| Executor.SummaryJson | proxy/app/runs/executor.py:459-460 | The stored summary carries `total` and `passed`. |
| Executor.LastRaw | proxy/app/runs/executor.py:458 | The raw payload is the last response's, or empty without responses. |
| Executor.WithAssertions | proxy/app/runs/executor.py:458-460 | A summary with checks is added under "assertions", and every other key of the raw payload is kept. Without checks the payload is stored unchanged. |
| Executor.ExecuteAttempt | proxy/app/runs/executor.py:231-546 | A successful attempt is PARTIAL_TOOL_SUPPORT iff its tool loop was exhausted, and COMPLETED otherwise. Its output is the loop's output text, its TTFT is present iff something streamed, its assertions are the evaluation of that text, and its payload is the last raw payload with the summary. A `completion_tokens` the provider did not report gives an estimated token count from the output. The attempt succeeds iff the loop, the evaluation and the reading of `completion_tokens` do. |
| Executor.UsageTokens | proxy/app/runs/executor.py:439-448 | `completion_tokens` is missing iff it is absent or null. An int is taken as is, a bool as 1 or 0, and a float at its floor. A string, list or object fails with `'>' not supported between instances of 'str' and 'int'` (`list`, `dict` for the others), the text of the `TypeError` that Python's `max(1, value)` in `compute_metrics` raises and that is stored as the item's error. |
| Executor.SettingsFor | proxy/app/runs/executor.py:162-169 | The executor uses the type's settings row. When there is none, it uses a fresh row with the column defaults from `proxy/app/db/models.py:73-76`. |
| Executor.SettingsForAppendAbsent | proxy/app/runs/executor.py:165-169 | A row appended for a type that had none is the row the executor finds for it afterwards. |
| Executor.EnsureSettings | proxy/app/runs/executor.py:162-169 | The settings used are those of `SettingsFor`. A table that has a row of the type is kept. Otherwise the default row is appended and committed, and reading the type again finds that same row. |
| Executor.MetricOf | proxy/app/runs/executor.py:486-507 | A successful attempt's metric row belongs to the item and is not flagged as an error. |
| Executor.ErrorMetric | proxy/app/runs/executor.py:218-221 | The metric added for a failed item without one is flagged as an error and as estimated. |
| Executor.ExecuteItem | proxy/app/runs/executor.py:153-229 | `attempt_count` is set to the number of the attempt that ran last, at most `max(0, retry_count) + 1`. After a success the item takes that attempt's status and metric. After the last failure it is FAILED with the last error, and an existing metric is kept or an error metric added. One report is made per failed attempt. |
| Executor.ExecutedItemSettles | proxy/app/runs/executor.py:187-229 | An executed item is never left PENDING or RUNNING. It is FAILED iff every allowed attempt failed. |
| Executor.GetSemaphore | proxy/app/runs/executor.py:548-554 | A key gets a new semaphore the first time it is requested, with capacity `max_in_flight` when that is at least 1. After that the existing semaphore is returned and the map is unchanged. |
| Executor.CapacityFixedAtCreation | proxy/app/runs/executor.py:548-554 | After any sequence of requests, a key's capacity is `max(1, max_in_flight)` of the first request for it. Later settings never resize it. |
| Executor.KeptOnceCreated | proxy/app/runs/executor.py:550-554 | An existing semaphore survives every later request unchanged. |
| Executor.SemaphorePerType | proxy/app/runs/executor.py:255-265 | Semaphores are keyed by connection type, so two types never share one. |
| RunStart.StartRunAsWritten | proxy/app/api/runs.py:220-258 | A missing suite is reported first. A started run is QUEUED with the requested ids, and its items are one per ordered test and requested id. |
| RunStart.StartRunAccepts | proxy/app/api/runs.py:225-235 | A run starts iff the suite exists, every requested id names a car and the suite has tests. Each failure has its own message, checked in that order. |
| RunStart.CarCountCheck | proxy/app/api/runs.py:229-231 | "Cars found == distinct requested ids" holds iff every requested id names a car. |
| RunStart.MatchingAll | proxy/app/api/runs.py:229 | Distinct ids match as many car rows as there are ids iff every id names a car. |
| RunStart.MatchingOne | proxy/app/api/runs.py:229 | In a table keyed by id, an id matches one row when a car has it and none otherwise. |
| RunStart.StartedItems | proxy/app/api/runs.py:233-256 | Item `i·m + j` is a PENDING item of test `i` with requested car `j`, with `attempt_count` 0, numbered consecutively. |
| RunStart.PairsAt | proxy/app/api/runs.py:246-247 | Pair `i·m + j` is test `i` with car `j`. |
| RunStart.ItemAt | proxy/app/api/runs.py:246-256 | Created item `k` is a PENDING item of test `i` with car `j`, numbered `nextId + k`, for the `i`, `j` with `k == i·m + j`. |
| RunStart.Decompose | proxy/app/api/runs.py:246-247 | Every position below `n·m` is `i·m + j` for some test `i` and car `j`. |
| RunStart.FindCreated | proxy/app/runs/executor.py:112-118 | With distinct test ids and car ids, the executor's lookup for test `i` and car `j` finds exactly item `i·m + j`. |
| RunStart.RepeatedCarStarts | proxy/app/api/runs.py:229-256 | A request naming its one car twice passes the car-count validation, and it creates two PENDING items for the test and that car. |
| RunStart.RepeatedCarPlan | proxy/app/runs/executor.py:107-135 | For those two items the executor visits the car twice, and both visits resolve to the first item. |
| RunStart.RepeatedCarLeavesItemPending | proxy/app/api/runs.py:229-256 | The second item of a repeated car is never executed and stays PENDING, yet the run ends COMPLETED. |
| RunStart.StartRun | proxy/app/api/runs.py:220-258 | The corrected start accepts and rejects exactly as the endpoint does. Its selected ids have no duplicates and have the same members as the requested ids. |
| RunStart.EveryItemDispatched | proxy/app/runs/executor.py:100-135 | With the ids deduplicated, every item of a started run is the target of some executor action. |
| RunStart.KnownIdsAll | proxy/app/runs/executor.py:105-107 | When every selected id names a car, the executor visits all of them. |
| Scorecard.AddItem | proxy/app/api/runs.py:95-132 | Counting an item adds one to the total, and at most one to the status counts and to each sample count. It adds one error iff the item is an error: a flagged metric, or a FAILED item without a metric. |
| Scorecard.BucketOf | proxy/app/api/runs.py:70-132 | A car's completed + failed + partial and its errors never exceed its total. Its sample counts stay within the total. It is empty iff the car has no items. |
| Scorecard.BucketErrors | proxy/app/api/runs.py:103-117 | A car's error count is the number of its items that are errors. |
| Scorecard.PassIsPerCar | proxy/app/api/runs.py:70-132 | The single pass keeps one bucket per car that has items, lists each such car once, and each bucket equals that car's own reference count. |
| Scorecard.CarLabel | proxy/app/api/runs.py:138-143 | A car that no longer exists is shown as `car:<id>` with model "unknown". |
| Scorecard.RowOf | proxy/app/api/runs.py:134-165 | The row carries the car's counts. Its error rate times the total is the error count, and it is a fraction. Each average is absent iff it has no samples. The pass rate is absent iff the assertion total is 0, and otherwise it times the total is the passed count. |
| Scorecard.ScorecardRows | proxy/app/api/runs.py:43-175 | The scorecard is a permutation of the per-car rows. |
| Scorecard.ScorecardOrdered | proxy/app/api/runs.py:167-174 | Rows are ordered descending by (judge or -1, pass rate or -1, -error rate), and tied rows keep their cars' first-appearance order. |
| Scorecard.ScorecardRowOfCar | proxy/app/api/runs.py:70-165 | Each row counts exactly its own car's items. |
| Scorecard.ScorecardCars | proxy/app/api/runs.py:67-76 | A car has a row iff it has items in the run. |
| Scorecard.ScorecardOneRowPerCar | proxy/app/api/runs.py:135 | No car has two rows. |
| Scorecard.ScorecardBounds | proxy/app/api/runs.py:95-148 | Every row has at least one item, completed + failed + partial is within its total, and its error rate lies in [0, 1]. |
| Ranking.AddSample | proxy/app/api/runs.py:107-115 | A null value is skipped. A present one adds one sample and its value. |
| Ranking.Mean | proxy/app/api/runs.py:149-163 | The average is absent iff there are no samples. Otherwise it times the count is the sum. |
| Ranking.MeanBounds | proxy/app/api/leaderboard.py:150 | The average of samples in `[lo, hi]` lies in `[lo, hi]`. |
| Ranking.ErrorRate | proxy/app/api/runs.py:148 | The rate is 0.0 without items, and otherwise it times the total is the error count. It lies in [0, 1] when errors are at most the total. |
| Ranking.AssertionCounts | proxy/app/api/runs.py:119-127 | Counts are taken iff the payload and its "assertions" entry are objects, both counts are integers (a boolean counts as one) and the total is positive. |
| Ranking.OrMinusOne | proxy/app/api/runs.py:169-170 | A missing average ranks as -1. |
| Ranking.RankTies | proxy/app/api/runs.py:167-174 | Two keys rank equal iff their (judge or -1, pass rate or -1, error rate) tuples are equal. |
| Ranking.JudgedRanksFirst | proxy/app/api/runs.py:169 | A judged row always ranks above an unjudged one, because judge scores are at least 0. |
| Compare.Vote | proxy/app/api/runs.py:186-210 | A missing delta votes 0. A present one votes +1 iff it moved at least the threshold in the good direction and -1 iff it moved that far in the bad direction; the direction depends on the metric. |
| Compare.Score | proxy/app/api/runs.py:185-210 | The score is the sum of five votes, so it lies in [-5, 5]. |
| Compare.Classify | proxy/app/api/runs.py:212-216 | The label is "improved" iff the score is at least 2, "regressed" iff it is at most -2, and "mixed" otherwise. |
| Compare.ClassifySwapped | proxy/app/api/runs.py:178-216 | Negating every delta negates the score, swaps "improved" and "regressed", and keeps "mixed". |
| Compare.OneDeltaIsMixed | proxy/app/api/runs.py:212-216 | A single present delta always gives "mixed". |
| Compare.WithinThresholdsIsMixed | proxy/app/api/runs.py:186-216 | Deltas strictly inside every threshold give score 0 and "mixed". |
| Compare.ExampleFasterAndSafer | proxy/app/api/runs.py:186-216 | 60 ms faster with 0.1 fewer errors is "improved", the mirror image is "regressed", and faster but 1 tps slower is "mixed". |
| Compare.Diff | proxy/app/api/runs.py:415-435 | A delta is present iff both values are, and then baseline plus delta is current. |
| Compare.BaselineFor | proxy/app/api/runs.py:394-398 | The baseline row found is one of the car's rows. None is found iff the baseline has no row for the car. |
| Compare.RowFor | proxy/app/api/runs.py:397-449 | Without a baseline row, every delta is absent and the summary is "new profile in current run". With one, the error delta is always present, the other deltas are `Diff`s, and the summary classifies the deltas. |
| Compare.RowsFor | proxy/app/api/runs.py:397-449 | One comparison row per current row, paired with that car's baseline row. |
| Compare.CompareRuns | proxy/app/api/runs.py:380-452 | A missing run is reported before the same-id check. Same ids are rejected. On success the rows are a permutation of the paired rows of the current scorecard. |
| Compare.CompareRunsSorted | proxy/app/api/runs.py:451 | The comparison has one row per current scorecard row, in lower-cased name order. Rows whose names are equal once lower-cased keep their scorecard order, since `list.sort` is stable. |
| Compare.CompareRunsRows | proxy/app/api/runs.py:397-449 | Every compared car is a car of the current run, so baseline-only cars are left out. Its row pairs its current and baseline rows. |
| Compare.StrLeAntisymmetric | proxy/app/api/runs.py:451 | Names that order both ways are equal. |
| Leaderboard.Facts | proxy/app/api/leaderboard.py:17-86 | The counted rows are the metric rows followed by the output rows. |
| Leaderboard.AddFact | proxy/app/api/leaderboard.py:31-114 | A metric row counts one item plus its status, error flag and timings. An output row adds only assertion counts: it never adds items, failures or errors. |
| Leaderboard.StatsOf | proxy/app/api/leaderboard.py:31-114 | A car's failed + partial and its errors never exceed its item total. |
| Leaderboard.StatsOfAbsent | proxy/app/api/leaderboard.py:34-50 | A car without rows has empty counters. |
| Leaderboard.PassIsPerCar | proxy/app/api/leaderboard.py:31-114 | The pass lists each car with rows once, in first-row order, and keeps exactly that car's reference counters. |
| Leaderboard.CarJudgeRows | proxy/app/api/leaderboard.py:69-80 | Only judge rows with both a car and an item are averaged for a car. |
| Leaderboard.JudgeAverageInRange | proxy/app/api/leaderboard.py:150 | Judge scores in [0, 10] average in [0, 10]. |
| Leaderboard.RowOf | proxy/app/api/leaderboard.py:117-152 | The row carries the car's counters. A missing connection shows as "unknown". The error rate is 0.0 without items and otherwise times the total gives the errors. Each average is absent iff it has no samples. The pass rate is absent iff there are no assertions. The judge average is the mean of the car's item judge scores. |
| Leaderboard.Leaderboard | proxy/app/api/leaderboard.py:15-162 | The leaderboard is a permutation of the rows of existing cars. |
| Leaderboard.LeaderboardRanked | proxy/app/api/leaderboard.py:154-161 | The leaderboard is ordered descending by (judge or -1, pass rate or -1, -error rate), with ties in first-row order. |
| Leaderboard.LeaderboardRowOfCar | proxy/app/api/leaderboard.py:117-152 | A listed row belongs to an existing car with a metric or output row, and it holds the statistics of that car's rows alone. |
| Leaderboard.LeaderboardCars | proxy/app/api/leaderboard.py:117-120 | A car is listed iff its car row exists and it has a metric or output row. |
| Leaderboard.LeaderboardHasCar | proxy/app/api/leaderboard.py:117-120 | Every existing car with a metric or output row is listed. |
| JudgeRun.ChooseJudgeCar | proxy/app/api/runs.py:507 | The request's judge car wins when truthy, then the run's. There is none when neither is truthy. |
| JudgeRun.Setup | proxy/app/api/runs.py:503-517 | The run, then a judge car, then the car's row, then its connection must exist, each with its own error, checked in that order. On success the car and connection are those rows. |
| JudgeRun.FindOutput | proxy/app/api/runs.py:525-528 | The output found belongs to the item. None is found iff the item has no output. |
| JudgeRun.FindTest | proxy/app/api/runs.py:529-534 | Only truthy test ids are looked up, and the test found has that id. |
| JudgeRun.JudgedText | proxy/app/api/runs.py:538 | The judge sees the final text when it is non-empty, else the streamed text, else "". |
| JudgeRun.JudgeRequest | proxy/app/api/runs.py:539-547 | The request uses the judge car's model and the two judge messages, temperature 0, top_p 1 and at most 300 tokens. It is streamed and tagged with the run and item. |
| JudgeRun.ReplyText | proxy/app/api/runs.py:562 | The reply is the response text, or the streamed pieces when that is empty. |
| JudgeRun.ScoresOf | proxy/app/api/runs.py:563-572 | Stored scores are always in [0, 10]. They are the parsed judge JSON, or zeros with "Judge JSON parse failed". |
| JudgeRun.JudgeableItems | proxy/app/api/runs.py:532-536 | Only items with both an output and a test are judged. |
| JudgeRun.ScoreItem | proxy/app/api/runs.py:532-587 | An item yields a row iff it is judgeable. The row is tagged with the run, the item and its car, and has all scores in [0, 10]. Only a judgeable item can fail. |
| JudgeRun.ScoreItems | proxy/app/api/runs.py:532-587 | On success there is one row per judged item. |
| JudgeRun.ScoreItemsRows | proxy/app/api/runs.py:574-586 | Row `k` is tagged with judged item `k` and its car, and its scores are in [0, 10]. |
| JudgeRun.AggregateRow | proxy/app/api/runs.py:611-640 | Each score of an aggregate row is the mean of that score over its rows. The row has no item. |
| JudgeRun.AggregateInRange | proxy/app/api/runs.py:611-640 | The aggregate of in-range rows is in range. |
| JudgeRun.CarAggregates | proxy/app/api/runs.py:600-624 | One aggregate per car, in order of first row, over exactly that car's rows. |
| JudgeRun.RowsOfCar | proxy/app/api/runs.py:600-604 | A car's rows are rows of that car, and there is at least one when the car has any. |
| JudgeRun.RunAggregate | proxy/app/api/runs.py:626-640 | A run aggregate exists iff there are item rows, and it averages all of them. |
| JudgeRun.OtherRuns | proxy/app/api/runs.py:521 | The deletion keeps exactly the judge rows of other runs. |
| JudgeRun.RunItemsById | proxy/app/api/runs.py:524 | The items are a permutation of the run's items. |
| JudgeRun.JudgeRunOp | proxy/app/api/runs.py:502-645 | A setup error is returned as is. After setup, judging succeeds iff scoring every judged item succeeds. |
| JudgeRun.JudgeRunState | proxy/app/api/runs.py:502-587 | The table left behind: unchanged on a setup error, the outcome's table on success. When a judge call fails after setup, the committed delete stays: exactly the other runs' rows remain, and none of the run's. |
| JudgeRun.JudgeRunShape | proxy/app/api/runs.py:521-645 | The new table is the other runs' rows plus the new item and aggregate rows. One item score is reported per row, and one car aggregate per distinct car. |
| JudgeRun.JudgeRunTable | proxy/app/api/runs.py:521-645 | After judging, the other runs' rows are exactly kept, every row of the run is new and scores in [0, 10], and one item score is reported per judged item. |
| JudgeRun.ItemRowsOf | proxy/app/api/runs.py:524-587 | The item rows are those of the judged items, in ascending id order. |
| JudgeRun.NewRowsInRange | proxy/app/api/runs.py:574-640 | Every new row belongs to the run and scores in [0, 10]. |
| JudgeRun.ReplaceRows | proxy/app/api/runs.py:521-522 | Replacing a run's rows keeps the other runs' rows exactly. |
| JudgeRun.JudgeRunCarCount | proxy/app/api/runs.py:606-624 | `car_aggregates` is the number of distinct cars among the judged items. |
| Judge.JudgeUserContent | proxy/app/runs/judge.py:23-28 | The user message starts with the test name, prompt and output labels in template order, and ends with the output and the key list. |
| Judge.BuildJudgeMessages | proxy/app/runs/judge.py:18-32 | Exactly two messages: the system rubric, then the user message. |
| Judge.JudgeMessagesDetermineOutput | proxy/app/runs/judge.py:23-28 | For a fixed test, different outputs give different user messages. |
| Judge.Score | proxy/app/runs/judge.py:11-14 | pydantic's lax `float` reading: an int or float is taken as its value, `true` and `false` as 1.0 and 0.0, and a string as the external float parser reads it. Null, lists and objects are rejected. |
| Judge.ScoreField | proxy/app/runs/judge.py:11-14 | A score field is accepted iff it is present, reads as a float and is in [0, 10]. The value is that float. |
| Judge.Validate | proxy/app/runs/judge.py:10-15 | A payload is accepted iff it is an object with four scores that read as floats in [0, 10] and a string rationale. The accepted payload carries those values. |
| Judge.ValidateDump | proxy/app/runs/judge.py:10-15 | Round trip: any payload with scores in [0, 10], written as a JSON object, validates back to itself. |
| Judge.ExampleLaxScores | proxy/app/runs/judge.py:11-14 | Scores written as `"8"`, `7` and `true` validate to 8.0, 7.0 and 1.0. |
| Judge.ParseJudgeJsonBySpan | proxy/app/runs/judge.py:35-47 | Whichever branch runs, the parse is the decoding of the first-`{`-to-last-`}` span, and it fails with the validation error when there is no span. |
| Judge.WrappedReplyParses | proxy/app/runs/judge.py:41-47 | A braced object between brace-free prose, such as a markdown fence, is decoded as that object. When it decodes to a valid payload written as JSON, the reply parses to that payload. |
| Judge.ParseJudgeJson | proxy/app/runs/judge.py:35-47 | A brace-delimited stripped reply is decoded whole, with no second chance. Otherwise the first-`{`-to-last-`}` span is decoded. Without a span the parse fails. Accepted scores are in [0, 10]. |
| Judge.ExampleSolid | proxy/tests/unit/test_metrics_and_judge.py:21-24 | The bare JSON reply parses to overall 8 with rationale "Solid". |
| Tools.ExtractCodeBlocks | proxy/app/runs/tools.py:57-59 | The result is the stripped bodies of the regex matches, in order. |
| Tools.ExtractDocument | proxy/app/runs/tools.py:57-59 | Round trip: the bodies of backtick-free fenced blocks with valid tags, written between backtick-free text, come back stripped and in order. |
| Tools.FindAllBlock | proxy/app/runs/tools.py:58 | A block at the start is matched whole, and the scan resumes behind it. |
| Tools.MatchBlock | proxy/app/runs/tools.py:58 | A written block is matched exactly: the body starts after the tag's newline and ends at the first closing fence. |
| Tools.FindAllSkipsGap | proxy/app/runs/tools.py:58 | Text without a backtick holds no match. |
| Tools.FindFence | proxy/app/runs/tools.py:58 | The lazy body stops at the first closing fence: there is none before it. None is found iff there is no fence at all. |
| Tools.TagRun | proxy/app/runs/tools.py:58 | The tag is the longest run of tag characters. |
| Tools.MatchAtStart | proxy/app/runs/tools.py:58 | A match opens with a fence and ends just before a closing fence. |
| Tools.ExecuteTool | proxy/app/runs/tools.py:62-70 | Dispatch is on the exact tool name, and missing arguments read as "". The call fails iff the name is unknown, which gives "Unknown tool: <name>", or the calculator fails. `json_validate` and `extract_code_blocks` return their results. |
| Tools.JsonValidate | proxy/app/runs/tools.py:49-54 | `valid` is whether the text decodes. An `error` key is added exactly when it does not. |
| Tools.StrArg | proxy/app/runs/tools.py:64-69 | A missing argument reads as "", and a string argument as itself. |
| Tools.CommandOf | proxy/app/runs/tools.py:99-103 | A command is produced iff `tool` is a string and `args`, defaulting to `{}`, is an object. |
| Tools.DecodeObject | proxy/app/runs/tools.py:78-92 | A candidate counts iff it decodes to an object. |
| Tools.ParseFallback | proxy/app/runs/tools.py:73-103 | The stripped text is tried whole when brace-delimited. Only when that yields no object is the first-`{`-to-last-`}` span tried. Without a span there is no command. |
| Tools.NoBracesNoCommand | proxy/app/runs/tools.py:86-88 | A text without braces never yields a command. |
| Tools.ExampleCalculatorCommand | proxy/tests/unit/test_tools.py:22-24 | The bare calculator command parses to name `calculator` with its arguments. |
| ToolExamples.ExampleExtract | proxy/tests/unit/test_tools.py:17-19 | The two-block example gives `print(1)` and `console.log(2)`. |
| ToolExamples.ExtractTwo | proxy/app/runs/tools.py:57-59 | Two well-formed blocks come back as their two stripped bodies. |
| Text.Tokens | proxy/app/runs/assertions.py:19 | Splitting yields only non-empty pieces that contain no separator. |
| Text.TokensOfJoin | proxy/app/runs/assertions.py:19 | Splitting a joined list of non-empty, separator-free pieces gives the pieces back. |
| Text.StripSlice | proxy/app/runs/assertions.py:19-25 | `strip()` returns a slice of its input with only whitespace on either side. |
| Text.StripIdempotent | proxy/app/runs/assertions.py:19-25 | `strip()` is idempotent. |
| Text.BraceBounds | proxy/app/runs/tools.py:86 | The span runs from the first `{` to the last `}` after it, which is the leftmost-longest match. |
| Text.BracedHasSpan | proxy/app/runs/tools.py:76-86 | A brace-delimited stripped text is itself such a span. |
| Text.BracedStripIsSpan | proxy/app/runs/judge.py:36-42 | When the stripped text is brace-delimited, it is exactly the first-`{`-to-last-`}` span of the whole text. |
| Text.WrappedSpan | proxy/app/runs/judge.py:42 | A braced text between brace-free text is the span of the whole. |
| Text.ParseShowInt | proxy/app/api/runs.py:469 | `int(str(n)) == n`. |
| Normalize.BuildMessages | proxy/app/providers/normalize.py:7-12 | The messages are an optional system message then the user prompt. The system message is present iff the system prompt is non-empty. |
| Normalize.BuildRequest | proxy/app/providers/normalize.py:15-32 | The request copies the model and sampling settings from the car and the tools from the test, and streams. Its metadata holds exactly the connection type, connection id, car id and test id. |
| Normalize.MetadataIdentifies | proxy/app/providers/normalize.py:26-31 | Equal metadata means the same connection (by id and type), car and test. |
| Normalize.ProviderMode | proxy/app/providers/normalize.py:35-38 | The mode is "ollama" iff the type is OLLAMA, else "openai_compat". It is never "anthropic". |
| Normalize.ExampleModes | proxy/tests/unit/test_normalize.py:5-9 | The repository's four mapping examples. |
| Adapters.ResolveApiKey | proxy/app/providers/adapters.py:345-356 | A key is returned iff a source exists, and it is never empty. The stored key wins iff it decrypts to a non-empty value. The environment variable is used iff it does not and the variable holds a non-empty value. |
| Adapters.Headers | proxy/app/providers/adapters.py:358-381 | ANTHROPIC gets `x-api-key` iff a key exists, always `anthropic-version`, and never `Authorization`. Other types get `Authorization: Bearer <key>` iff a key exists. `X-API-Key`/`api-key` are added iff the type is OPENAI_COMPAT, LLAMACPP_OPENAI or CUSTOM and has a key. OPENROUTER adds `HTTP-Referer` and `X-Title` iff configured. |
| Adapters.ApiRoot | proxy/app/providers/adapters.py:383-391 | OPENROUTER uses `/api/v1`, every other type `/v1`. |
| Adapters.ModelsPath | proxy/app/providers/adapters.py:383-386 | The models path is the type's API root plus `/models`. |
| Adapters.ChatCompletionsPath | proxy/app/providers/adapters.py:388-391 | The chat path is the type's API root plus `/chat/completions`. |
| Adapters.ExtractModelIds | proxy/app/providers/adapters.py:393-403 | Without a `data` list there are no ids. Otherwise the ids are those of the list's entries. |
| Adapters.IdsOfMembers | proxy/app/providers/adapters.py:397-401 | An id is kept iff some entry is an object whose `id` is a non-empty string equal to it. |
| Adapters.ExtractListing | proxy/app/providers/adapters.py:393-403 | Round trip: a listing `{"data": [{"id": m}, ...]}` of non-empty ids gives back exactly those ids, in order. |
| Adapters.ToOpenAIMessage | proxy/app/providers/adapters.py:501-507 | Every message carries role and content. A tool message also carries exactly `tool_call_id` and `name`, null when unset. |
| Adapters.ToOllamaMessage | proxy/app/providers/adapters.py:509-510 | An Ollama message carries exactly role and content. |
| Adapters.OllamaAgreesWithOpenAI | proxy/app/providers/adapters.py:501-510 | The Ollama mapping agrees with the OpenAI one on every key it has, and equals it for non-tool messages. |
| Adapters.ToAnthropic | proxy/app/providers/adapters.py:195-204 | Every message goes to exactly one side, and chat messages only have the roles `user` or `assistant`. |
| Adapters.ToAnthropicRoles | proxy/app/providers/adapters.py:197-204 | The chat messages' roles are the non-system messages' roles in order, with every role other than `user` and `assistant` sent as `user`. |
| Adapters.ToAnthropicKeepsContents | proxy/app/providers/adapters.py:195-204 | The lifted system texts are the system messages' contents, and the chat messages keep all other contents, in order. |
| Adapters.AnthropicSystem | proxy/app/providers/adapters.py:214-215 | The `system` field is present iff there is a system message, and it joins their texts with blank lines. |
| Adapters.JanTrustedHostHint | proxy/app/providers/adapters.py:479-489 | The hint appears iff the status is 403 and the body mentions "invalid host header" in any case. |
| Adapters.ApiKeyHint | proxy/app/providers/adapters.py:491-499 | A hint appears iff the status is 401, and it is chosen by the key's source. |
| Adapters.ApiKeyHintDistinguishesSources | proxy/app/providers/adapters.py:494-499 | Equal 401 hints mean the same key source. |
| Adapters.ExampleEncryptedBeatsEnv | proxy/tests/unit/test_provider_auth.py:24-32 | A stored key that decrypts wins over the environment variable. |
| Adapters.ExampleAnthropicNative | proxy/tests/unit/test_provider_auth.py:35-43 | Anthropic connections get native headers only. |
| Adapters.ExampleOpenRouterHeaders | proxy/tests/unit/test_provider_auth.py:46-55 | OpenRouter adds the configured attribution headers next to the bearer token. |
| OpenAIStream.DataPayload | proxy/app/providers/adapters.py:129-131 | A line counts iff it starts with `data:`, and then its payload is the rest, stripped. |
| OpenAIStream.ReadLines | proxy/app/providers/adapters.py:128-155 | Reading only ever appends to the text pieces and the raw chunks. |
| OpenAIStream.NonDataLineIgnored | proxy/app/providers/adapters.py:129-130 | A line that is not a `data:` line changes nothing, wherever it appears. |
| OpenAIStream.DoneEndsStream | proxy/app/providers/adapters.py:132-133 | Nothing after a `[DONE]` line is read. |
| OpenAIStream.UpdatedUsage | proxy/app/providers/adapters.py:137-138 | A truthy `usage` object replaces the stored one, and a falsy one leaves it. A truthy `usage` that is not an object fails; Python would store it (see "## Left out"). |
| OpenAIStream.ApplyDelta | proxy/app/providers/adapters.py:143-149 | Truthy content is appended to the text, and tool-call deltas are appended after the earlier ones. |
| OpenAIStream.ApplyChunk | proxy/app/providers/adapters.py:134-155 | Each chunk is kept raw, usage is updated, and text and deltas only grow. |
| OpenAIStream.IndexKeyOf | proxy/app/providers/adapters.py:150-151 | A JSON value is a `tool_fragments` key iff it is not a list or object, which Python cannot hash. Numbers and bools are keyed by numeric value, strings by text, and null by itself. |
| OpenAIStream.IndexKeyOfEqual | proxy/app/providers/adapters.py:150-151 | Two hashable indices name the same fragment iff Python's `==` holds between them, so `0`, `0.0` and `false` coincide. |
| OpenAIStream.DecodeDelta | proxy/app/providers/adapters.py:150-155 | A delta's index is the dict key of its `index`, 0 when absent; its id, name and arguments are the texts of those fields. It fails iff the entry or its `function` is not an object (Python's `.get` raises), the index is a list or object (the lookup raises `TypeError`), the arguments are truthy and not a string (`+=` raises), or the id or name is truthy and not a string, which Python would keep (see "## Left out"). |
| OpenAIStream.MergeInto | proxy/app/providers/adapters.py:151-155 | A non-empty id or name replaces the stored one, and arguments are appended. |
| OpenAIStream.Put | proxy/app/providers/adapters.py:117-151 | An index already present is updated in place; a new one is appended at the end. |
| OpenAIStream.LookupPut | proxy/app/providers/adapters.py:117-151 | After storing, the index reads back the new fragment and every other index is unchanged. |
| OpenAIStream.AccumulateFragments | proxy/app/providers/adapters.py:149-155 | An index's fragment is determined by its own deltas: the arguments are their concatenation, and the id and name are the last non-empty ones. Indices are kept in order of first appearance. |
| OpenAIStream.AccumulateKeys | proxy/app/providers/adapters.py:117-151 | No index is stored twice, and the stored indices are exactly those the deltas mention. |
| OpenAIStream.ParseArguments | proxy/app/providers/adapters.py:161-164 | Empty arguments give `{}`, decodable ones their value, and others `{"raw": text}`. |
| OpenAIStream.CallOf | proxy/app/providers/adapters.py:165-171 | A call has its fragment's name and decoded arguments. Its id is the fragment's, or `call_<n+1>` when that is empty. |
| OpenAIStream.AssembleToolCalls | proxy/app/providers/adapters.py:157-171 | The calls are exactly the named fragments, in order. Each has a name, and the `k`-th falls back to id `call_<k+1>`. |
| OpenAIStream.EstimatedUsage | proxy/app/providers/adapters.py:177-178 | Missing usage is estimated as one token per word, at least one, and flagged as estimated. |
| OpenAIStream.Finish | proxy/app/providers/adapters.py:157-185 | The response text is the joined pieces. Usage is the reported one, or the estimate when none was reported. The tool calls are assembled from the deltas, and the raw payload holds the chunks. |
| OpenAIStream.ReadStream | proxy/app/providers/adapters.py:87-185 | A stream fails iff reading its lines fails. Python fails too on an undecodable payload, an unhashable tool-call index, a chunk, choice, delta or `function` that is not an object, a truthy non-list `choices` or `tool_calls`, and truthy content or arguments that are not strings. The model also fails on a truthy non-string id or name and a truthy non-object `usage`, which Python carries on (see "## Left out"). Otherwise it yields the finished response of the lines read. |
| OpenAIStream.EmptyStream | proxy/app/providers/adapters.py:176-185 | An empty stream yields empty text, no calls and a one-token estimate. |
| OpenAIStream.ExampleSplitArguments | proxy/app/providers/adapters.py:149-171 | Two deltas for one index that split the arguments give a single call with the joined arguments and the first delta's id and name. |
| SettingsUpdate.NewRow | proxy/app/api/provider_settings.py:23-30 | A new row takes each provided value, or 1 / 90000 / 1 / 500 for a missing or zero one. |
| SettingsUpdate.Patched | proxy/app/api/provider_settings.py:32-40 | A patched row takes every provided field, zero included, and keeps the others. |
| SettingsUpdate.FindRow | proxy/app/api/provider_settings.py:22 | The lookup finds the first row of the type. It finds none iff the type has no row. |
| SettingsUpdate.ApplyPatch | proxy/app/api/provider_settings.py:21-40 | An existing row of the type is patched in place and every other row is unchanged. Otherwise a new row is appended. Either way the type then has a row. |
| SettingsUpdate.UpdateSettingsAsWritten | proxy/app/api/provider_settings.py:19-43 | The endpoint as written commits only when the table keeps one row per type. Otherwise it fails with the unique-constraint error. |
| SettingsUpdate.NewTypeTwiceFails | proxy/app/api/provider_settings.py:21-42 | A request that names a type without a row twice adds two rows for it, and the commit fails. |
| SettingsUpdate.AsWrittenAgrees | proxy/app/api/provider_settings.py:21-40 | When every patch names a type that already has a row, the endpoint as written equals the sequential update. |
| SettingsUpdate.UpdateSettings | proxy/app/api/provider_settings.py:19-43 | The corrected update never fails on a table with one row per type. On success it returns the whole table after the patches in order, still with one row per type. |
| SettingsUpdate.ApplyPatchesOneRowPerType | proxy/app/api/provider_settings.py:21-42 | Any sequence of patches keeps one row per type. |
| SettingsUpdate.ApplyPatchesCovers | proxy/app/api/provider_settings.py:21-31 | Every type some patch names has a row afterwards. |
| SettingsUpdate.ApplyPatchesOthers | proxy/app/api/provider_settings.py:21-22 | A type no patch names keeps its position and its row. |
| SettingsUpdate.OtherTypeUntouched | proxy/app/api/provider_settings.py:21-22 | A patch leaves the rows of other types where and as they were. |
| SettingsUpdate.RepeatPatch | proxy/app/api/provider_settings.py:21-40 | Repeating a patch changes nothing more, unless it created the row from a zero. |
| SettingsUpdate.ZeroPatchNotRepeatable | proxy/app/api/provider_settings.py:26-34 | A zero for a missing type creates the row with the fallback 1, and the same patch again stores 0. |
| SettingsUpdate.PatchAfterFirstRun | proxy/app/runs/executor.py:165-169 | After the executor has created a type's default row, a patch for that type overwrites the provided fields of the default row. |
| SettingsUpdate.PatchReachesExecutor | proxy/app/runs/executor.py:162-169 | After a patch, the executor's settings for that type are the old ones with the provided fields overwritten, or the new row. |
| Sorting.SortByCorrect | proxy/app/api/runs.py:167-174 | The sort used for scorecards, comparisons and the leaderboard is ordered and a permutation. It is stable, as Python's `list.sort` is. |
| Sorting.SortBySorted | proxy/app/api/runs.py:451 | An already ordered list is left as it is. |
| Sorting.Dedup | proxy/app/api/runs.py:230 | `set(car_ids)` as a list: no duplicates, the same members, and no longer than the input. |

## Left out

- Network I/O is not modelled. This covers the httpx calls, `discover_models`, `test_connection`, `verify_runtime`, HTTP status and timeout handling, and `_format_connection_error`. The OpenAI-compatible stream is modelled over a given sequence of lines.
- The Ollama and Anthropic streaming loops (`proxy/app/providers/adapters.py:224-343`) are not modelled. `provider_mode` never selects the Anthropic loop; only its message mapping is modelled. The Anthropic `max_tokens or 1024` default is also left out.
- asyncio is not modelled: the worker queue and its failure handler, cancellation, semaphore waiting, the `asyncio.sleep` backoff, and the stream's polling and heartbeat timing. The backoff is recorded in each failure report but not slept.
- Telemetry events emitted by the executor, judge and stream are not modelled, apart from the sequence and payload rule of `emit_event`. The `item.error` reports of the retry loop are modelled as `RetryLoop.Report` values.
- Persistence is modelled only as row sequences: sessions, commits, `refresh`, and Output/Metric updates in place. A select without `ORDER BY` is modelled as insertion order.
- `list_provider_settings` has no logic beyond a select and is not modelled.
- `Dispatch.Plan` / `Dispatch.ApplyActions` do not model connection rows disappearing between the dispatch lookup and the attempt.
- JSON decoding, JSON encoding, `re.search` for `regex:` directives, the calculator's AST evaluator, `decrypt_secret`, `os.getenv` and `str()` of non-string values are parameters. Their results are assumed, not computed.
- Floats are modelled as mathematical reals, so rounding in averages, rates and `int(words * 1.25)` is not modelled.
- Text.Lower: lower-cases ASCII letters only. Python's Unicode case mapping is not modelled. `Text.IsSpace` is Python's full `str.isspace` set, so `split()` and `strip()` are exact.
- Text.ParseInt: accepts ASCII digits with single `_` separators between them, as `int()` does. Other Unicode decimal digits, which `int()` also accepts, are rejected.
- Wall-clock timestamps and `perf_counter` are integer parameters.
- The hint helpers `_docker_localhost_hint`, `_windows_host_hint` and `_runtime_hints` are cosmetic diagnostics and are not modelled.
- The judge row's `raw_json` column is not modelled.
- `db/session.py`, `db/models.py` beyond the enums and defaults, the seeds, the CRUD routers and `core/security.py` are not part of this model.
- ToolRounds.ToolLoop: the tool-loop limit is a parameter. The deployed default `tool_loop_limit` of 3 lives in `core/settings.py`, which is not part of this model.
- Executor.UsageTokens: a fractional float `completion_tokens` is taken at its floor. Python carries the float itself into `tokens_per_sec` and the integer column, so the stored count and rate are not modelled exactly for such a value.
- Judge.Score: the string-to-float reading is a parameter. Its grammar (whitespace, `_`, `inf`, `nan`) is not modelled, and a non-finite result is treated as rejected.
- Metrics.ComputeMetrics: for a reported usage below 1, only `output_tokens >= 1` is stated, not the exact `max(1, usage)`.
- Telemetry.EventsAfter: the query's `ORDER BY seq_no` is not applied. The filter keeps insertion order, and `Telemetry.EventsAfterIsSuffix` and `Telemetry.EventsAfterAscending` prove that this is ascending order for any table built by `Emit`.
- OpenAIStream.ReadStream: a truthy tool-call `id` or function `name` that is not a string, and a truthy `usage` that is not an object, fail the stream. Python keeps such values (`proxy/app/providers/adapters.py:137-138`, `:152`, `:154`), because neither the fragment dict nor the `ProviderResponse` dataclass checks types. The model's `ToolCall` holds a string id and name, and its `ProviderResponse` holds a usage object, so it rejects such a stream. Carrying them would need JSON-valued ids, names and usage throughout the tool loop and the executor. In the executor, a non-object usage later makes `usage.get` raise `AttributeError`, so only the error text differs there. A numeric id or name, or a judge reply with such a usage, goes on in Python but fails here.
- OpenAIStream.DecodeDelta: fails on a truthy non-string `id` or `name`, which Python keeps; see the `OpenAIStream.ReadStream` line.
- OpenAIStream.UpdatedUsage: fails on a truthy non-object `usage`, which Python stores; see the `OpenAIStream.ReadStream` line.
- Compare.CompareRuns: its own contract states a permutation. The order is stated separately by `Compare.CompareRunsSorted`.

## Behaviour as written

The model follows the code in these places, where a reader of the product description might expect otherwise:

- An unsupported directive counts towards `total` and always fails; it is not ignored.
- A `regex:` pattern the regex engine rejects raises out of the whole evaluation; it does not just fail the directive.
- The comparator's neutral label is "mixed". The thresholds are integer votes with cut-offs at +2 and -2.
- A run ends FAILED when it has items and every item failed, not only when the scheduler fails.
- `attempt_count` is set to the number of the current attempt, not incremented.
- Judging a run again deletes the run's earlier judge rows, and commits the delete, before scoring anything. A judge call that then raises leaves the run with no judge rows at all.
- A settings row the executor creates on demand is committed. A later settings update patches that row; it does not create the update endpoint's defaults.
- The semaphore capacity of a provider type is fixed by the first attempt that uses it. Later settings changes do not resize it.
- A settings row created by the update endpoint defaults to 1 / 90000 / 1 / 500. A row the executor creates on demand takes the column defaults 1 / 60000 / 1 / 400 (`proxy/app/db/models.py:73-76`).

## Findings

| source | as written | input that shows it | evidently intended | confidence | as-written member | corrected member |
|---|---|---|---|---|---|---|
| proxy/app/api/runs.py:229-256 | `start_run` compares the cars found with `len(set(car_ids))`, so a repeated id passes. It then creates one item per entry of `car_ids`. The executor's lookup (`proxy/app/runs/executor.py:112-118`) returns the first matching item on both visits. | A suite with one test and `car_ids = [c, c]` for an existing car `c`. Two items are created. The first is executed twice and the second stays PENDING, while the run ends COMPLETED. | Every item a run creates is executed. In the corrected model the requested ids are deduplicated before the items are created. | not executed; high that the second item is never dispatched | RunStart.RepeatedCarLeavesItemPending | RunStart.EveryItemDispatched |
| proxy/app/api/provider_settings.py:21-42 | Each item's lookup is a fresh `select`. The session is built with `autoflush=False` (`proxy/app/db/session.py:14`), so a row added earlier in the same request is not seen. A second item for the same new provider type adds a second row, and the commit violates the unique `provider_type` column (`proxy/app/db/models.py:72`). | One update naming a type with no settings row twice, e.g. `[{OPENROUTER, max_in_flight: 2}, {OPENROUTER, timeout_ms: 1000}]`. The request fails instead of creating one row with both values. | Items apply in order, and a later item patches the row an earlier one created, leaving one row per type. | not executed; medium, since it depends on SQLAlchemy not flushing before the select | SettingsUpdate.NewTypeTwiceFails | SettingsUpdate.UpdateSettings |
