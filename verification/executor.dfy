/** One attempt and one item of the race executor (proxy/app/runs/executor.py) as pure
    functions over abstract provider outcomes: the attempt's final text, metrics,
    assertion summary and status after the tool loop, the item's state after the retry
    loop, and the per-provider concurrency limit. Clock readings are given per attempt. */
module Executor {
  import opened Wrappers
  import opened Json
  import opened Externals
  import opened Text
  import opened Domain
  import opened Metrics
  import opened Assertions
  import opened RetryLoop
  import opened ToolRounds

  // ---------------------------------------------------------------------------------------
  // One attempt
  // ---------------------------------------------------------------------------------------

  /** The clock readings of one attempt: start, first streamed token, end. */
  datatype AttemptClock = AttemptClock(startedMs: int, firstTokenMs: int, finishedMs: int)

  datatype AttemptOutcome = AttemptOutcome(
    status: ItemStatus,
    outputText: string,
    streamedText: string,
    messages: seq<Message>,
    executed: seq<ExecutedCall>,
    metrics: MetricComputation,
    assertions: Summary,
    rawPayload: map<string, Json>)

  /** All text pieces streamed over the rounds, in order. */
  function StreamedParts(rounds: seq<Round>): seq<string> {
    if |rounds| == 0 then [] else StreamedParts(rounds[..|rounds| - 1]) + rounds[|rounds| - 1].response.streamed
  }

  /** The final text: the streamed pieces when anything streamed, else the last
      response's text. */
  function OutputText(rounds: seq<Round>): (t: string)
    ensures |StreamedParts(rounds)| > 0 ==> t == Concat(StreamedParts(rounds))
    ensures |StreamedParts(rounds)| == 0 && |rounds| > 0 ==> t == rounds[|rounds| - 1].response.text
    ensures |rounds| == 0 ==> t == ""
  {
    var parts := StreamedParts(rounds);
    if |parts| > 0 then Concat(parts)
    else if |rounds| > 0 then rounds[|rounds| - 1].response.text
    else ""
  }

  const CompletionTokens := "completion_tokens"

  /** `usage.get("completion_tokens")` as `compute_metrics` takes it: a missing or null
      value means no count and an int (a bool is one) is the count. A float is taken at
      its integral part, which is its value when it has no fraction. Any other value makes
      `max(1, value)` raise `TypeError`, so the attempt fails with that error's text. */
  function UsageTokens(usage: map<string, Json>): (r: Result<Option<int>>)
    ensures r.Failure? <==> CompletionTokens in usage && (usage[CompletionTokens].JStr? || usage[CompletionTokens].JArr? || usage[CompletionTokens].JObj?)
    ensures CompletionTokens in usage && usage[CompletionTokens].JStr? ==> r == Failure(UnorderableError("str"))
    ensures CompletionTokens in usage && usage[CompletionTokens].JArr? ==> r == Failure(UnorderableError("list"))
    ensures CompletionTokens in usage && usage[CompletionTokens].JObj? ==> r == Failure(UnorderableError("dict"))
    ensures r == Success(None) <==> CompletionTokens !in usage || usage[CompletionTokens].JNull?
    ensures CompletionTokens in usage && usage[CompletionTokens].JInt? ==> r == Success(Some(usage[CompletionTokens].i))
    ensures CompletionTokens in usage && usage[CompletionTokens].JBool? ==> r == Success(Some(if usage[CompletionTokens].b then 1 else 0))
    ensures CompletionTokens in usage && usage[CompletionTokens].JReal? ==>
              r.Success? && r.value.Some? && r.value.value as real <= usage[CompletionTokens].r < r.value.value as real + 1.0
  {
    match Get(usage, CompletionTokens, JNull)
    case JNull => Success(None)
    case JInt(i) => Success(Some(i))
    case JBool(b) => Success(Some(if b then 1 else 0))
    case JReal(x) => Success(Some(x.Floor))
    case JStr(_) => Failure(UnorderableError("str"))
    case JArr(_) => Failure(UnorderableError("list"))
    case JObj(_) => Failure(UnorderableError("dict"))
  }

  /** `str()` of the `TypeError` that `max(1, value)` raises when it compares a value of
      the named Python type with the int 1. */
  function UnorderableError(typeName: string): string {
    "'>' not supported between instances of '" + typeName + "' and 'int'"
  }

  /** The usage of the last response, empty when there was none. */
  function LastUsage(rounds: seq<Round>): (u: map<string, Json>)
    ensures |rounds| > 0 ==> u == rounds[|rounds| - 1].response.usage
    ensures |rounds| == 0 ==> u == map[]
  {
    if |rounds| > 0 then rounds[|rounds| - 1].response.usage else map[]
  }

  function CheckResultJson(c: CheckResult): Json {
    JObj(map["type" := JStr(c.kind), "expected" := JStr(c.expected), "passed" := JBool(c.passed), "detail" := JStr(c.detail)])
  }

  function CheckResultsJson(cs: seq<CheckResult>): (r: seq<Json>)
    ensures |r| == |cs|
  {
    if |cs| == 0 then [] else [CheckResultJson(cs[0])] + CheckResultsJson(cs[1..])
  }

  /** The assertion summary as stored in the raw payload. */
  function SummaryJson(s: Summary): (j: Json)
    ensures j.JObj? && "total" in j.fields && "passed" in j.fields
    ensures j.fields["total"] == JInt(s.total) && j.fields["passed"] == JInt(s.passed)
  {
    JObj(map["total" := JInt(s.total), "passed" := JInt(s.passed), "results" := JArr(CheckResultsJson(s.results))])
  }

  /** The raw payload of the last response, empty when there was none. */
  function LastRaw(rounds: seq<Round>): (raw: map<string, Json>)
    ensures |rounds| == 0 ==> raw == map[]
    ensures |rounds| > 0 ==> raw == rounds[|rounds| - 1].response.raw
  {
    if |rounds| > 0 then rounds[|rounds| - 1].response.raw else map[]
  }

  /** The stored payload: a summary with checks is added under "assertions"; without
      checks the raw payload is stored as it is, whatever it holds under that key. */
  function WithAssertions(raw: map<string, Json>, s: Summary): (p: map<string, Json>)
    ensures s.total > 0 ==> "assertions" in p && p["assertions"] == SummaryJson(s)
    ensures p.Keys == raw.Keys + (if s.total > 0 then {"assertions"} else {})
    ensures forall k :: k in raw && k != "assertions" ==> p[k] == raw[k]
    ensures s.total <= 0 ==> p == raw
  {
    if s.total > 0 then raw["assertions" := SummaryJson(s)] else raw
  }

  /** `_execute_item_attempt` after the item's rows are read: the tool loop, then the
      metrics and the assertion summary of the final text. */
  function ExecuteAttempt(ext: Externals, limit: int, request: ChatRequest, constraints: Option<string>,
                          provider: Provider, clock: AttemptClock): (r: Result<AttemptOutcome>)
    ensures r.Success? ==> RunToolLoop(ext, limit, provider, request.messages).Success?
    ensures r.Success? ==> (r.value.status == ItemPartial <==> RunToolLoop(ext, limit, provider, request.messages).value.exhausted)
    ensures r.Success? ==> r.value.status == ItemPartial || r.value.status == ItemCompleted
    ensures r.Success? ==> r.value.outputText == OutputText(RunToolLoop(ext, limit, provider, request.messages).value.rounds)
    ensures r.Success? ==> (r.value.metrics.ttftMs.Some? <==>
                             |StreamedParts(RunToolLoop(ext, limit, provider, request.messages).value.rounds)| > 0)
    ensures r.Success? ==> Evaluate(constraints, r.value.outputText, ext) == Success(r.value.assertions)
    ensures r.Success? ==> r.value.rawPayload == WithAssertions(LastRaw(RunToolLoop(ext, limit, provider, request.messages).value.rounds), r.value.assertions)
    ensures r.Success? ==> UsageTokens(LastUsage(RunToolLoop(ext, limit, provider, request.messages).value.rounds)).Success?
    ensures r.Success? && UsageTokens(LastUsage(RunToolLoop(ext, limit, provider, request.messages).value.rounds)).value.None?
            ==> r.value.metrics.outputTokensEstimated &&
                r.value.metrics.outputTokens == EstimateTokens(r.value.outputText)
    ensures RunToolLoop(ext, limit, provider, request.messages).Success? &&
            UsageTokens(LastUsage(RunToolLoop(ext, limit, provider, request.messages).value.rounds)).Success? &&
            Evaluate(constraints, OutputText(RunToolLoop(ext, limit, provider, request.messages).value.rounds), ext).Success?
            ==> r.Success?
  {
    var loop :- RunToolLoop(ext, limit, provider, request.messages);
    var parts := StreamedParts(loop.rounds);
    var text := OutputText(loop.rounds);
    var usage := LastUsage(loop.rounds);
    var ttft := if |parts| > 0 then Some(if clock.firstTokenMs - clock.startedMs < 0 then 0 else clock.firstTokenMs - clock.startedMs) else None;
    var tokens :- UsageTokens(usage);
    var metrics := ComputeMetrics(clock.startedMs, clock.finishedMs, ttft, text, tokens,
                                  Truthy(Get(usage, "estimated", JBool(false))));
    var summary :- Evaluate(constraints, text, ext);
    var payload := WithAssertions(LastRaw(loop.rounds), summary);
    Success(AttemptOutcome(
      if loop.exhausted then ItemPartial else ItemCompleted,
      text, Concat(parts), loop.messages, loop.executed, metrics, summary, payload))
  }

  // ---------------------------------------------------------------------------------------
  // One item
  // ---------------------------------------------------------------------------------------

  /** The settings row of a provider type, or a fresh row with the column defaults. */
  function SettingsFor(rows: seq<ProviderSettings>, t: ConnectionType): (s: ProviderSettings)
    ensures s.providerType == t
    ensures (forall k :: 0 <= k < |rows| ==> rows[k].providerType != t) ==> s == DefaultSettings(t)
    ensures s != DefaultSettings(t) ==> s in rows
  {
    if |rows| == 0 then DefaultSettings(t)
    else if rows[0].providerType == t then rows[0]
    else SettingsFor(rows[1..], t)
  }

  lemma {:induction false} SettingsForAppendAbsent(rows: seq<ProviderSettings>, t: ConnectionType, row: ProviderSettings)
    requires forall k :: 0 <= k < |rows| ==> rows[k].providerType != t
    requires row.providerType == t
    ensures SettingsFor(rows + [row], t) == row
    decreases |rows|
  {
    if |rows| > 0 {
      assert (rows + [row])[1..] == rows[1..] + [row];
      SettingsForAppendAbsent(rows[1..], t, row);
    }
  }

  /** The lookup of `_execute_item` with its side effect: a provider type without a row
      gets one with the column defaults, which is committed, so the table keeps it and every
      later lookup (and every later settings update) finds that row. */
  function EnsureSettings(rows: seq<ProviderSettings>, t: ConnectionType): (r: (ProviderSettings, seq<ProviderSettings>))
    ensures r.0 == SettingsFor(rows, t)
    ensures (exists k :: 0 <= k < |rows| && rows[k].providerType == t) ==> r.1 == rows
    ensures (forall k :: 0 <= k < |rows| ==> rows[k].providerType != t) ==> r.1 == rows + [DefaultSettings(t)]
    ensures SettingsFor(r.1, t) == r.0
  {
    if forall k :: 0 <= k < |rows| ==> rows[k].providerType != t then
      SettingsForAppendAbsent(rows, t, DefaultSettings(t));
      (DefaultSettings(t), rows + [DefaultSettings(t)])
    else (SettingsFor(rows, t), rows)
  }

  /** The metric row of a successful attempt. */
  function MetricOf(itemId: int, m: MetricComputation): (row: Metric)
    ensures !row.errorFlag && row.runItemId == itemId
  {
    Metric(itemId, m.ttftMs, Some(m.totalLatencyMs), m.generationMs, Some(m.outputTokens), m.outputTokensEstimated, m.tokensPerSec, false)
  }

  /** The metric row added for an item that failed without one. */
  function ErrorMetric(itemId: int): (row: Metric)
    ensures row.errorFlag && row.outputTokensEstimated && row.runItemId == itemId
  {
    Metric(itemId, None, None, None, None, true, None, true)
  }

  datatype ItemResult = ItemResult(item: RunItem, metric: Option<Metric>, outcome: Option<AttemptOutcome>, failures: seq<FailedAttempt>)

  function MaxZero(x: int): nat {
    if x < 0 then 0 else x
  }

  /** `_execute_item`: up to `max(0, retry_count) + 1` attempts. `attempt_count` is set to
      the number of the attempt that ran last. After a success the item takes the
      attempt's status and metrics; after the last failure it is FAILED with that error,
      and an error metric is added if the item has none. */
  function ExecuteItem(item: RunItem, settings: ProviderSettings, metric: Option<Metric>,
                       attempt: nat -> Result<AttemptOutcome>): (r: ItemResult)
    ensures r.item.id == item.id && r.item.runId == item.runId && r.item.testId == item.testId && r.item.carId == item.carId
    ensures 1 <= r.item.attemptCount <= MaxZero(settings.retryCount) + 1
    ensures forall n :: 1 <= n < r.item.attemptCount ==> attempt(n).Failure?
    ensures r.outcome.None? <==> forall n :: 1 <= n <= MaxZero(settings.retryCount) + 1 ==> attempt(n).Failure?
    ensures r.outcome.None? ==>
              r.item.status == ItemFailed &&
              r.item.errorMessage == Some(attempt(r.item.attemptCount).error) &&
              r.item.attemptCount == MaxZero(settings.retryCount) + 1 &&
              r.metric.Some? && (metric.Some? ==> r.metric == metric) && (metric.None? ==> r.metric == Some(ErrorMetric(item.id)))
    ensures r.outcome.Some? ==>
              attempt(r.item.attemptCount) == Success(r.outcome.value) &&
              r.item.status == r.outcome.value.status && r.item.errorMessage.None? &&
              r.metric == Some(MetricOf(item.id, r.outcome.value.metrics))
    ensures r.failures == Retry(MaxZero(settings.retryCount), MaxZero(settings.retryBackoffMs) as real / 1000.0, attempt).failures
  {
    var retries := MaxZero(settings.retryCount);
    var backoff := MaxZero(settings.retryBackoffMs) as real / 1000.0;
    var rt := Retry(retries, backoff, attempt);
    match rt.result
    case Success(o) =>
      ItemResult(item.(status := o.status, attemptCount := rt.attempts, errorMessage := None),
                 Some(MetricOf(item.id, o.metrics)), Some(o), rt.failures)
    case Failure(e) =>
      ItemResult(item.(status := ItemFailed, attemptCount := rt.attempts, errorMessage := Some(e)),
                 if metric.Some? then metric else Some(ErrorMetric(item.id)), None, rt.failures)
  }

  /** Attempts end COMPLETED or PARTIAL, so an executed item is never left PENDING or
      RUNNING, and it is FAILED exactly when every allowed attempt failed. */
  lemma ExecutedItemSettles(item: RunItem, settings: ProviderSettings, metric: Option<Metric>,
                            attempt: nat -> Result<AttemptOutcome>)
    requires forall n :: attempt(n).Success? ==> attempt(n).value.status == ItemCompleted || attempt(n).value.status == ItemPartial
    ensures ExecuteItem(item, settings, metric, attempt).item.status != ItemPending
    ensures ExecuteItem(item, settings, metric, attempt).item.status != ItemRunning
    ensures ExecuteItem(item, settings, metric, attempt).item.status == ItemFailed
            <==> forall n :: 1 <= n <= MaxZero(settings.retryCount) + 1 ==> attempt(n).Failure?
  {
  }

  // ---------------------------------------------------------------------------------------
  // Concurrency limit (_get_semaphore)
  // ---------------------------------------------------------------------------------------

  type Capacity = n: nat | n >= 1 witness 1

  /** Capacities of the semaphores created so far, by key. */
  type Semaphores = map<string, Capacity>

  /** The semaphore for `key`: created with capacity `max(1, max_in_flight)` the first
      time, reused unchanged afterwards. */
  function GetSemaphore(sems: Semaphores, key: string, maxInFlight: int): (r: (Semaphores, Capacity))
    ensures key in r.0 && r.0[key] == r.1
    ensures key in sems ==> r.0 == sems
    ensures key !in sems ==> r.0 == sems[key := r.1] && (maxInFlight >= 1 ==> r.1 == maxInFlight)
  {
    if key in sems then (sems, sems[key])
    else
      var size: Capacity := if maxInFlight < 1 then 1 else maxInFlight;
      (sems[key := size], size)
  }

  /** A sequence of requests `(key, max_in_flight)`, one per attempt, in order. */
  function GetAll(sems: Semaphores, reqs: seq<(string, int)>): Semaphores
    decreases |reqs|
  {
    if |reqs| == 0 then sems else GetAll(GetSemaphore(sems, reqs[0].0, reqs[0].1).0, reqs[1..])
  }

  /** The capacity of a key is fixed by the first request for it: later settings changes
      never resize it. */
  lemma {:induction false} CapacityFixedAtCreation(sems: Semaphores, reqs: seq<(string, int)>, key: string, first: nat)
    requires key !in sems
    requires first < |reqs| && reqs[first].0 == key
    requires forall k :: 0 <= k < first ==> reqs[k].0 != key
    ensures key in GetAll(sems, reqs)
    ensures GetAll(sems, reqs)[key] == (if reqs[first].1 < 1 then 1 else reqs[first].1)
    decreases |reqs|
  {
    var next := GetSemaphore(sems, reqs[0].0, reqs[0].1).0;
    if first == 0 {
      KeptOnceCreated(next, reqs[1..], key);
    } else {
      CapacityFixedAtCreation(next, reqs[1..], key, first - 1);
    }
  }

  lemma {:induction false} KeptOnceCreated(sems: Semaphores, reqs: seq<(string, int)>, key: string)
    requires key in sems
    ensures key in GetAll(sems, reqs) && GetAll(sems, reqs)[key] == sems[key]
    decreases |reqs|
  {
    if |reqs| > 0 {
      KeptOnceCreated(GetSemaphore(sems, reqs[0].0, reqs[0].1).0, reqs[1..], key);
    }
  }

  /** Semaphores are keyed by the connection type's stored value, so two types never share
      one. */
  lemma SemaphorePerType(sems: Semaphores, a: ConnectionType, b: ConnectionType, ma: int, mb: int)
    requires a != b
    requires a.Value() !in sems
    ensures GetSemaphore(GetSemaphore(sems, a.Value(), ma).0, b.Value(), mb).0[a.Value()] == GetSemaphore(sems, a.Value(), ma).1
  {
  }
}
