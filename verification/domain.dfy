/** The stored entities of the run engine (proxy/app/db/models.py) and the normalized
    request/response shapes of the provider layer (proxy/app/providers/types.py), as
    immutable values. Timestamps are left out; database ids are plain integers. */
module Domain {
  import opened Wrappers
  import opened Json

  /** The provider families a connection can speak to. */
  datatype ConnectionType = Ollama | OpenAI | Anthropic | OpenRouter | OpenAICompat | LlamaCppOpenAI | Custom {

    /** The stored enum value, which is also the semaphore key. */
    function Value(): string {
      match this
      case Ollama => "OLLAMA"
      case OpenAI => "OPENAI"
      case Anthropic => "ANTHROPIC"
      case OpenRouter => "OPENROUTER"
      case OpenAICompat => "OPENAI_COMPAT"
      case LlamaCppOpenAI => "LLAMACPP_OPENAI"
      case Custom => "CUSTOM"
    }
  }

  datatype RunStatus = RunQueued | RunRunning | RunCompleted | RunFailed

  datatype ItemStatus = ItemPending | ItemRunning | ItemCompleted | ItemFailed | ItemPartial

  /** Per-provider-type dispatch settings. */
  datatype ProviderSettings = ProviderSettings(
    providerType: ConnectionType,
    maxInFlight: int,
    timeoutMs: int,
    retryCount: int,
    retryBackoffMs: int)

  /** Column defaults of a settings row created without values (the executor does this
      when a provider type has no row yet). */
  const ColumnDefaultMaxInFlight := 1
  const ColumnDefaultTimeoutMs := 60000
  const ColumnDefaultRetryCount := 1
  const ColumnDefaultRetryBackoffMs := 400

  function DefaultSettings(t: ConnectionType): (s: ProviderSettings)
    ensures s.providerType == t
  {
    ProviderSettings(t, ColumnDefaultMaxInFlight, ColumnDefaultTimeoutMs, ColumnDefaultRetryCount, ColumnDefaultRetryBackoffMs)
  }

  datatype Connection = Connection(
    id: int,
    name: string,
    ctype: ConnectionType,
    baseUrl: string,
    apiKeyEnvVar: Option<string>,
    apiKeyEncrypted: Option<string>)

  /** A "car": a model profile on a connection with its sampling parameters. */
  datatype Car = Car(
    id: int,
    name: string,
    connectionId: int,
    modelName: string,
    temperature: real,
    topP: real,
    maxTokens: Option<int>,
    stop: Option<seq<string>>,
    seed: Option<int>)

  datatype TestCase = TestCase(
    id: int,
    suiteId: int,
    orderIndex: int,
    name: string,
    systemPrompt: Option<string>,
    userPrompt: string,
    expectedConstraints: Option<string>,
    toolsSchema: Option<seq<Json>>)

  /** A run row: its suite, status, the car ids it was started with, and the judge car
      chosen at start. */
  datatype RunRecord = RunRecord(id: int, suiteId: int, status: RunStatus, selectedCarIds: seq<int>, judgeCarId: Option<int>)

  datatype RunItem = RunItem(
    id: int,
    runId: int,
    testId: Option<int>,
    carId: Option<int>,
    status: ItemStatus,
    attemptCount: int,
    errorMessage: Option<string>)

  datatype Metric = Metric(
    runItemId: int,
    ttftMs: Option<int>,
    totalLatencyMs: Option<int>,
    generationMs: Option<int>,
    outputTokens: Option<int>,
    outputTokensEstimated: bool,
    tokensPerSec: Option<real>,
    errorFlag: bool)

  /** One stored judge row: per item (`runItemId` set), per car, or per run. */
  datatype JudgeRow = JudgeRow(
    runId: int,
    runItemId: Option<int>,
    carId: Option<int>,
    writing: real,
    coding: real,
    tool: real,
    overall: real,
    rationale: string)

  /** A chat message in the provider-independent form. */
  datatype Message = Message(role: string, content: string, toolCallId: Option<string>, name: Option<string>)

  function PlainMessage(role: string, content: string): Message {
    Message(role, content, None, None)
  }

  /** A provider-independent chat request. */
  datatype ChatRequest = ChatRequest(
    model: string,
    messages: seq<Message>,
    temperature: Option<real>,
    topP: Option<real>,
    maxTokens: Option<int>,
    stop: Option<seq<string>>,
    seed: Option<int>,
    tools: Option<seq<Json>>,
    toolChoice: Option<Json>,
    stream: bool,
    metadata: map<string, Json>)

  /** A tool call the provider asked for. */
  datatype ToolCall = ToolCall(id: string, name: string, arguments: Json)

  /** What a provider call returns. `streamed` holds the text pieces the adapter passed to
      the token callback while the response was streaming, in order. */
  datatype ProviderResponse = ProviderResponse(
    text: string,
    streamed: seq<string>,
    toolCalls: seq<ToolCall>,
    usage: map<string, Json>,
    raw: map<string, Json>)
}
