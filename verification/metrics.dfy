/** Latency and throughput figures of one run item (proxy/app/runs/metrics.py).
    Times are integer milliseconds passed in by the caller; the throughput is a real. */
module Metrics {
  import opened Wrappers
  import opened Text

  datatype MetricComputation = MetricComputation(
    ttftMs: Option<int>,
    totalLatencyMs: int,
    generationMs: Option<int>,
    outputTokens: int,
    outputTokensEstimated: bool,
    tokensPerSec: Option<real>)

  /** `estimate_tokens`: one and a quarter tokens per whitespace-separated word, rounded
      down, and never less than one. Python computes `int(words * 1.25)` in floating point;
      the product is exact for any realistic word count, so it is the integer quotient
      below. */
  function EstimateTokens(text: string): (n: int)
    ensures n >= 1
    ensures |Words(text)| == 0 ==> n == 1
    ensures |Words(text)| > 0 ==> 4 * n <= 5 * |Words(text)| < 4 * (n + 1)
  {
    var words := |Words(text)|;
    var scaled := (5 * words) / 4;
    if scaled < 1 then 1 else scaled
  }

  /** More words never give fewer estimated tokens. */
  lemma EstimateMonotone(a: string, b: string)
    requires |Words(a)| <= |Words(b)|
    ensures EstimateTokens(a) <= EstimateTokens(b)
  {
  }

  /** Tokens per second over a generation time in milliseconds, computed as Python does:
      `tokens / (generation_ms / 1000)`. */
  function TokensPerSec(tokens: int, generationMs: int): (r: real)
    requires generationMs > 0
    ensures r * (generationMs as real) == (tokens * 1000) as real
    ensures tokens > 0 ==> r > 0.0
  {
    var seconds := (generationMs as real) / 1000.0;
    var r := (tokens as real) / seconds;
    assert r * seconds == tokens as real;
    assert (generationMs as real) == seconds * 1000.0;
    r
  }

  /** `compute_metrics`. */
  function ComputeMetrics(
    startedMs: int,
    finishedMs: int,
    ttftMs: Option<int>,
    outputText: string,
    usageCompletionTokens: Option<int>,
    usageEstimated: bool): (m: MetricComputation)
    // the first-token time is passed through
    ensures m.ttftMs == ttftMs
    // total latency is the elapsed time, clamped at zero
    ensures m.totalLatencyMs >= 0
    ensures finishedMs >= startedMs ==> m.totalLatencyMs == finishedMs - startedMs
    ensures finishedMs < startedMs ==> m.totalLatencyMs == 0
    // generation time exists exactly when a first-token time does, and is at least 1
    ensures m.generationMs.Some? <==> ttftMs.Some?
    ensures m.generationMs.Some? ==> m.generationMs.value >= 1
    ensures m.generationMs.Some? && m.totalLatencyMs - ttftMs.value >= 1
            ==> m.generationMs.value == m.totalLatencyMs - ttftMs.value
    ensures m.generationMs.Some? && m.totalLatencyMs - ttftMs.value < 1 ==> m.generationMs.value == 1
    // the token count is at least 1; it is estimated exactly when usage is missing
    ensures m.outputTokens >= 1
    ensures usageCompletionTokens.None? ==> m.outputTokens == EstimateTokens(outputText) && m.outputTokensEstimated
    ensures usageCompletionTokens.Some? && usageCompletionTokens.value >= 1
            ==> m.outputTokens == usageCompletionTokens.value
    ensures usageCompletionTokens.Some? ==> m.outputTokensEstimated == usageEstimated
    // throughput exists exactly when a generation time does: tokens per generation second
    ensures m.tokensPerSec.Some? <==> m.generationMs.Some?
    ensures m.tokensPerSec.Some? ==> m.tokensPerSec.value == TokensPerSec(m.outputTokens, m.generationMs.value)
  {
    var total := if finishedMs - startedMs < 0 then 0 else finishedMs - startedMs;
    var generation :=
      match ttftMs
      case None => None
      case Some(t) => Some(if total - t < 1 then 1 else total - t);
    var tokens := if usageCompletionTokens.None? then EstimateTokens(outputText)
                  else if usageCompletionTokens.value < 1 then 1 else usageCompletionTokens.value;
    var estimated := if usageCompletionTokens.None? then true else usageEstimated;
    var tps :=
      match generation
      case Some(g) => if g > 0 then Some(TokensPerSec(tokens, g)) else None
      case None => None;
    MetricComputation(ttftMs, total, generation, tokens, estimated, tps)
  }

  /** The repository's metrics example: started at 100 ms, finished at 1200 ms, first token
      at 200 ms, four words of output and no usage report. */
  lemma ExampleEstimated(text: string)
    requires text == "hello world from llm"
    ensures ComputeMetrics(100, 1200, Some(200), text, None, false).totalLatencyMs == 1100
    ensures ComputeMetrics(100, 1200, Some(200), text, None, false).generationMs == Some(900)
    ensures ComputeMetrics(100, 1200, Some(200), text, None, false).outputTokens == 5
    ensures ComputeMetrics(100, 1200, Some(200), text, None, false).outputTokensEstimated
    ensures ComputeMetrics(100, 1200, Some(200), text, None, false).tokensPerSec.Some?
  {
    WordsOfExample(text);
  }

  lemma WordsOfExample(text: string)
    requires text == "hello world from llm"
    ensures |Words(text)| == 4
  {
    var ws := ["hello", "world", "from", "llm"];
    assert ws[1..][1..][1..] == ["llm"];
    assert Join(ws[1..][1..], ' ') == "from" + " " + "llm";
    assert Join(ws[1..], ' ') == "world" + " " + "from" + " " + "llm";
    assert Join(ws, ' ') == text;
    TokensOfJoin(ws, ' ', Whitespace);
  }
}
