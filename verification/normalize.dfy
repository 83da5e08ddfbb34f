/** Building the provider-independent chat request for one (test, car) pair
    (proxy/app/providers/normalize.py). */
module Normalize {
  import opened Wrappers
  import opened Json
  import opened Domain

  /** `build_messages`: an optional system message, then the user prompt. */
  function BuildMessages(tc: TestCase): (ms: seq<Message>)
    ensures 1 <= |ms| <= 2
    ensures ms[|ms| - 1] == PlainMessage("user", tc.userPrompt)
    ensures |ms| == 2 <==> tc.systemPrompt.Some? && tc.systemPrompt.value != ""
    ensures |ms| == 2 ==> ms[0] == PlainMessage("system", tc.systemPrompt.value)
  {
    var user := PlainMessage("user", tc.userPrompt);
    match tc.systemPrompt
    case Some(sp) => if sp != "" then [PlainMessage("system", sp), user] else [user]
    case None => [user]
  }

  const ConnectionTypeKey := "connection_type"
  const ConnectionIdKey := "connection_id"
  const CarIdKey := "car_id"
  const TestIdKey := "test_id"

  /** `build_request`: the car's model and sampling settings, the test's messages and tool
      schema, streaming on, and metadata naming the connection, car and test. */
  function BuildRequest(conn: Connection, car: Car, tc: TestCase): (r: ChatRequest)
    ensures r.model == car.modelName && r.messages == BuildMessages(tc)
    ensures r.temperature == Some(car.temperature) && r.topP == Some(car.topP)
    ensures r.maxTokens == car.maxTokens && r.stop == car.stop && r.seed == car.seed
    ensures r.tools == tc.toolsSchema && r.toolChoice.None? && r.stream
    ensures r.metadata.Keys == {ConnectionTypeKey, ConnectionIdKey, CarIdKey, TestIdKey}
    ensures r.metadata[ConnectionTypeKey] == JStr(conn.ctype.Value())
    ensures r.metadata[ConnectionIdKey] == JInt(conn.id)
    ensures r.metadata[CarIdKey] == JInt(car.id) && r.metadata[TestIdKey] == JInt(tc.id)
  {
    ChatRequest(
      car.modelName,
      BuildMessages(tc),
      Some(car.temperature),
      Some(car.topP),
      car.maxTokens,
      car.stop,
      car.seed,
      tc.toolsSchema,
      None,
      true,
      map[ConnectionTypeKey := JStr(conn.ctype.Value()), ConnectionIdKey := JInt(conn.id),
          CarIdKey := JInt(car.id), TestIdKey := JInt(tc.id)])
  }

  /** Distinct connection types have distinct stored values. */
  lemma ValueInjective(a: ConnectionType, b: ConnectionType)
    requires a.Value() == b.Value()
    ensures a == b
  {
  }

  /** The request metadata identifies the connection (by id and type), the car and the test. */
  lemma MetadataIdentifies(c1: Connection, car1: Car, t1: TestCase, c2: Connection, car2: Car, t2: TestCase)
    requires BuildRequest(c1, car1, t1).metadata == BuildRequest(c2, car2, t2).metadata
    ensures c1.id == c2.id && c1.ctype == c2.ctype && car1.id == car2.id && t1.id == t2.id
  {
    var m1 := BuildRequest(c1, car1, t1).metadata;
    assert m1[ConnectionTypeKey] == JStr(c2.ctype.Value());
    ValueInjective(c1.ctype, c2.ctype);
  }

  const OllamaMode := "ollama"
  const OpenAICompatMode := "openai_compat"
  const AnthropicMode := "anthropic"

  /** `provider_mode`: Ollama speaks its own protocol, every other type the OpenAI-compatible
      one. No type maps to the Anthropic mode, so the client's Anthropic branch is never taken. */
  function ProviderMode(t: ConnectionType): (m: string)
    ensures m == OllamaMode <==> t == Ollama
    ensures m == OpenAICompatMode <==> t != Ollama
    ensures m != AnthropicMode
  {
    if t == Ollama then OllamaMode else OpenAICompatMode
  }

  /** The repository's mapping examples. */
  lemma ExampleModes()
    ensures ProviderMode(Ollama) == "ollama"
    ensures ProviderMode(OpenAICompat) == "openai_compat"
    ensures ProviderMode(LlamaCppOpenAI) == "openai_compat"
    ensures ProviderMode(Custom) == "openai_compat"
  {
  }
}
