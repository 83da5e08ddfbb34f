/** The pure helpers of the provider client (proxy/app/providers/adapters.py): API-key
    resolution, request headers, endpoint paths, model-id extraction, message mappings and
    the error hints that depend on status codes. Secret decryption and the process
    environment are parameters. */
module Adapters {
  import opened Wrappers
  import opened Json
  import opened Text
  import opened Domain

  /** What the client reads from outside: `decrypt_secret`, `os.getenv`, and the two
      OpenRouter settings. */
  datatype ClientEnv = ClientEnv(
    decrypt: string -> Option<string>,
    getenv: string -> Option<string>,
    openrouterReferer: Option<string>,
    openrouterTitle: Option<string>)

  datatype AuthSource = EncryptedDb | EnvVar | NoAuth {
    function Value(): string {
      match this
      case EncryptedDb => "encrypted_db"
      case EnvVar => "env_var"
      case NoAuth => "none"
    }
  }

  /** `bool(x)` for an optional string. */
  predicate Present(x: Option<string>) {
    x.Some? && x.value != ""
  }

  /** The stored key decrypts to a non-empty secret. */
  predicate DecryptsToKey(env: ClientEnv, conn: Connection) {
    Present(conn.apiKeyEncrypted) && Present(env.decrypt(conn.apiKeyEncrypted.value))
  }

  /** The named environment variable holds a non-empty value. */
  predicate EnvHoldsKey(env: ClientEnv, conn: Connection) {
    Present(conn.apiKeyEnvVar) && Present(env.getenv(conn.apiKeyEnvVar.value))
  }

  /** `_resolve_api_key`: the decrypted stored key first, then the environment variable,
      else no key. */
  function ResolveApiKey(env: ClientEnv, conn: Connection): (r: (Option<string>, AuthSource))
    ensures r.0.Some? <==> r.1 != NoAuth
    ensures r.0.Some? ==> r.0.value != ""
    ensures r.1 == EncryptedDb <==> DecryptsToKey(env, conn)
    ensures r.1 == EncryptedDb ==> r.0 == env.decrypt(conn.apiKeyEncrypted.value)
    ensures r.1 == EnvVar <==> !DecryptsToKey(env, conn) && EnvHoldsKey(env, conn)
    ensures r.1 == EnvVar ==> r.0 == env.getenv(conn.apiKeyEnvVar.value)
  {
    if DecryptsToKey(env, conn) then (env.decrypt(conn.apiKeyEncrypted.value), EncryptedDb)
    else if EnvHoldsKey(env, conn) then (env.getenv(conn.apiKeyEnvVar.value), EnvVar)
    else (None, NoAuth)
  }

  const AnthropicVersion := "2023-06-01"

  /** The types that also accept the key in `X-API-Key` and `api-key`. */
  predicate TakesExtraKeyHeaders(t: ConnectionType) {
    t == OpenAICompat || t == LlamaCppOpenAI || t == Custom
  }

  /** `_headers_for`. */
  function Headers(env: ClientEnv, conn: Connection): (h: map<string, string>)
    // Anthropic: its own key header and version header, never a bearer token
    ensures conn.ctype == Anthropic ==>
              "Authorization" !in h && "anthropic-version" in h && h["anthropic-version"] == AnthropicVersion &&
              ("x-api-key" in h <==> ResolveApiKey(env, conn).0.Some?) &&
              ("x-api-key" in h ==> h["x-api-key"] == ResolveApiKey(env, conn).0.value)
    // every other type: a bearer token exactly when a key resolves
    ensures conn.ctype != Anthropic ==>
              ("Authorization" in h <==> ResolveApiKey(env, conn).0.Some?) &&
              ("Authorization" in h ==> h["Authorization"] == "Bearer " + ResolveApiKey(env, conn).0.value) &&
              "x-api-key" !in h && "anthropic-version" !in h
    ensures ("X-API-Key" in h <==> TakesExtraKeyHeaders(conn.ctype) && ResolveApiKey(env, conn).0.Some?)
    ensures "X-API-Key" in h ==> "api-key" in h && h["X-API-Key"] == h["api-key"] == ResolveApiKey(env, conn).0.value
    // the OpenRouter attribution headers appear only for OpenRouter and only when configured
    ensures "HTTP-Referer" in h <==> conn.ctype == OpenRouter && Present(env.openrouterReferer)
    ensures "HTTP-Referer" in h ==> h["HTTP-Referer"] == env.openrouterReferer.value
    ensures "X-Title" in h <==> conn.ctype == OpenRouter && Present(env.openrouterTitle)
    ensures "X-Title" in h ==> h["X-Title"] == env.openrouterTitle.value
  {
    var key := ResolveApiKey(env, conn).0;
    if conn.ctype == Anthropic then
      var withKey: map<string, string> := if key.Some? then map["x-api-key" := key.value] else map[];
      withKey["anthropic-version" := AnthropicVersion]
    else
      var bearer: map<string, string> := if key.Some? then map["Authorization" := "Bearer " + key.value] else map[];
      var extra := if TakesExtraKeyHeaders(conn.ctype) && key.Some?
                   then bearer["X-API-Key" := key.value]["api-key" := key.value] else bearer;
      var referer := if conn.ctype == OpenRouter && Present(env.openrouterReferer)
                     then extra["HTTP-Referer" := env.openrouterReferer.value] else extra;
      if conn.ctype == OpenRouter && Present(env.openrouterTitle)
      then referer["X-Title" := env.openrouterTitle.value] else referer
  }

  /** The API root of a connection type: OpenRouter serves under `/api/v1`, all others
      under `/v1`. */
  function ApiRoot(t: ConnectionType): (p: string)
    ensures t == OpenRouter ==> p == "/api/v1"
    ensures t != OpenRouter ==> p == "/v1"
  {
    if t == OpenRouter then "/api/v1" else "/v1"
  }

  /** `_models_path`. */
  function ModelsPath(t: ConnectionType): (p: string)
    ensures p == ApiRoot(t) + "/models"
  {
    if t == OpenRouter then "/api/v1/models" else "/v1/models"
  }

  /** `_chat_completions_path`. */
  function ChatCompletionsPath(t: ConnectionType): (p: string)
    ensures p == ApiRoot(t) + "/chat/completions"
  {
    if t == OpenRouter then "/api/v1/chat/completions" else "/v1/chat/completions"
  }

  // ---------------------------------------------------------------------------------------
  // _extract_model_ids
  // ---------------------------------------------------------------------------------------

  /** The id an entry of `data` contributes, if any. */
  function EntryId(item: Json): (r: Option<string>)
    ensures r.Some? <==> item.JObj? && "id" in item.fields && item.fields["id"].JStr? && item.fields["id"].s != ""
    ensures r.Some? ==> r.value == item.fields["id"].s
  {
    if item.JObj? && "id" in item.fields && item.fields["id"].JStr? && item.fields["id"].s != ""
    then Some(item.fields["id"].s) else None
  }

  /** The non-empty string ids of the object entries, in order. */
  function IdsOf(items: seq<Json>): (r: seq<string>)
    ensures |r| <= |items|
    ensures forall k :: 0 <= k < |r| ==> r[k] != ""
  {
    if |items| == 0 then []
    else
      match EntryId(items[0])
      case Some(id) => [id] + IdsOf(items[1..])
      case None => IdsOf(items[1..])
  }

  /** `_extract_model_ids`: the ids under `data` when it is a list, else none. */
  function ExtractModelIds(payload: map<string, Json>): (r: seq<string>)
    ensures !("data" in payload && payload["data"].JArr?) ==> r == []
    ensures "data" in payload && payload["data"].JArr? ==> r == IdsOf(payload["data"].items)
  {
    var data := Get(payload, "data", JNull);
    if data.JArr? then IdsOf(data.items) else []
  }

  /** Exactly the ids of qualifying entries are kept. */
  lemma {:induction false} IdsOfMembers(items: seq<Json>, id: string)
    ensures id in IdsOf(items) <==> exists k :: 0 <= k < |items| && EntryId(items[k]) == Some(id)
    decreases |items|
  {
    if |items| > 0 {
      IdsOfMembers(items[1..], id);
      if exists k :: 0 <= k < |items[1..]| && EntryId(items[1..][k]) == Some(id) {
        var k :| 0 <= k < |items[1..]| && EntryId(items[1..][k]) == Some(id);
        assert EntryId(items[k + 1]) == Some(id);
      }
      if exists k :: 0 <= k < |items| && EntryId(items[k]) == Some(id) {
        var k :| 0 <= k < |items| && EntryId(items[k]) == Some(id);
        if k > 0 {
          assert EntryId(items[1..][k - 1]) == Some(id);
        }
      }
    }
  }

  /** The listing `{"data": [{"id": m1}, ...]}` of non-empty ids gives back exactly those
      ids, in order. */
  function ModelListing(ids: seq<string>): (r: seq<Json>)
    ensures |r| == |ids|
    ensures forall k :: 0 <= k < |r| ==> r[k] == JObj(map["id" := JStr(ids[k])])
  {
    if |ids| == 0 then [] else [JObj(map["id" := JStr(ids[0])])] + ModelListing(ids[1..])
  }

  lemma {:induction false} ExtractListing(ids: seq<string>)
    requires forall k :: 0 <= k < |ids| ==> ids[k] != ""
    ensures IdsOf(ModelListing(ids)) == ids
    decreases |ids|
  {
    if |ids| > 0 {
      var l := ModelListing(ids);
      assert l[1..] == ModelListing(ids[1..]);
      assert EntryId(l[0]) == Some(ids[0]);
      ExtractListing(ids[1..]);
    }
  }

  // ---------------------------------------------------------------------------------------
  // Message mappings
  // ---------------------------------------------------------------------------------------

  function OptionalString(x: Option<string>): Json {
    match x
    case None => JNull
    case Some(s) => JStr(s)
  }

  /** `_to_openai_message`: role and content; a tool message also carries `tool_call_id`
      and `name` (null when unset). */
  function ToOpenAIMessage(m: Message): (r: map<string, Json>)
    ensures "role" in r && "content" in r
    ensures r["role"] == JStr(m.role) && r["content"] == JStr(m.content)
    ensures m.role == "tool" ==> r.Keys == {"role", "content", "tool_call_id", "name"}
    ensures m.role == "tool" ==> r["tool_call_id"] == OptionalString(m.toolCallId) && r["name"] == OptionalString(m.name)
    ensures m.role != "tool" ==> r.Keys == {"role", "content"}
  {
    var base := map["role" := JStr(m.role)];
    var withTool := if m.role == "tool"
                    then base["tool_call_id" := OptionalString(m.toolCallId)]["name" := OptionalString(m.name)]
                    else base;
    withTool["content" := JStr(m.content)]
  }

  /** `_to_ollama_message`: role and content only. */
  function ToOllamaMessage(m: Message): (r: map<string, Json>)
    ensures r.Keys == {"role", "content"}
    ensures r["role"] == JStr(m.role) && r["content"] == JStr(m.content)
  {
    map["role" := JStr(m.role), "content" := JStr(m.content)]
  }

  /** The Ollama mapping forgets exactly the tool fields: it agrees with the OpenAI mapping
      on every key it has. */
  lemma OllamaAgreesWithOpenAI(m: Message)
    ensures forall k :: k in ToOllamaMessage(m) ==> k in ToOpenAIMessage(m) && ToOllamaMessage(m)[k] == ToOpenAIMessage(m)[k]
    ensures m.role != "tool" ==> ToOllamaMessage(m) == ToOpenAIMessage(m)
  {
  }

  /** An Anthropic chat message: role and content. */
  datatype AnthropicMessage = AnthropicMessage(role: string, content: string)

  /** Roles Anthropic accepts as they are. */
  predicate NativeAnthropicRole(role: string) {
    role == "user" || role == "assistant"
  }

  /** The Anthropic message mapping: system messages are lifted out (in order); user and
      assistant messages pass through; any other role is sent as a user message. */
  function ToAnthropic(ms: seq<Message>): (r: (seq<string>, seq<AnthropicMessage>))
    ensures |r.0| + |r.1| == |ms|
    ensures forall k :: 0 <= k < |r.1| ==> NativeAnthropicRole(r.1[k].role)
  {
    if |ms| == 0 then ([], [])
    else
      var rest := ToAnthropic(ms[1..]);
      var m := ms[0];
      if m.role == "system" then ([m.content] + rest.0, rest.1)
      else if NativeAnthropicRole(m.role) then (rest.0, [AnthropicMessage(m.role, m.content)] + rest.1)
      else (rest.0, [AnthropicMessage("user", m.content)] + rest.1)
  }

  /** Contents of the system messages, in order. */
  function SystemContents(ms: seq<Message>): seq<string> {
    if |ms| == 0 then [] else (if ms[0].role == "system" then [ms[0].content] else []) + SystemContents(ms[1..])
  }

  /** Contents of the other messages, in order. */
  function ChatContents(ms: seq<Message>): seq<string> {
    if |ms| == 0 then [] else (if ms[0].role != "system" then [ms[0].content] else []) + ChatContents(ms[1..])
  }

  function AnthropicContents(as_: seq<AnthropicMessage>): seq<string> {
    if |as_| == 0 then [] else [as_[0].content] + AnthropicContents(as_[1..])
  }

  /** No content is lost or reordered: the lifted system text is the system messages'
      contents and the chat messages keep the other contents in order. */
  lemma {:induction false} ToAnthropicKeepsContents(ms: seq<Message>)
    ensures ToAnthropic(ms).0 == SystemContents(ms)
    ensures AnthropicContents(ToAnthropic(ms).1) == ChatContents(ms)
    decreases |ms|
  {
    if |ms| > 0 {
      ToAnthropicKeepsContents(ms[1..]);
      var rest := ToAnthropic(ms[1..]);
      if ms[0].role != "system" {
        var a := ToAnthropic(ms).1;
        assert a[1..] == rest.1;
      }
    }
  }

  /** The role a non-system message is sent with: `user` and `assistant` as they are,
      anything else as `user`. */
  function AnthropicRole(role: string): string {
    if NativeAnthropicRole(role) then role else "user"
  }

  /** The roles the non-system messages are sent with, in order. */
  function ChatRoles(ms: seq<Message>): seq<string> {
    if |ms| == 0 then [] else (if ms[0].role != "system" then [AnthropicRole(ms[0].role)] else []) + ChatRoles(ms[1..])
  }

  function AnthropicRoles(as_: seq<AnthropicMessage>): seq<string> {
    if |as_| == 0 then [] else [as_[0].role] + AnthropicRoles(as_[1..])
  }

  /** `assistant` and `user` keep their role and every other non-system role becomes
      `user`, message by message. */
  lemma {:induction false} ToAnthropicRoles(ms: seq<Message>)
    ensures AnthropicRoles(ToAnthropic(ms).1) == ChatRoles(ms)
    decreases |ms|
  {
    if |ms| > 0 {
      ToAnthropicRoles(ms[1..]);
      var rest := ToAnthropic(ms[1..]);
      if ms[0].role != "system" {
        var a := ToAnthropic(ms).1;
        assert a[1..] == rest.1;
      }
    }
  }

  /** The `system` field of the Anthropic payload: the lifted texts joined by blank lines,
      present only when there is at least one. */
  function AnthropicSystem(ms: seq<Message>): (r: Option<string>)
    ensures r.Some? <==> |SystemContents(ms)| > 0
    ensures r.Some? ==> r.value == JoinWith(SystemContents(ms), "\n\n")
  {
    ToAnthropicKeepsContents(ms);
    var sys := ToAnthropic(ms).0;
    if |sys| == 0 then None else Some(JoinWith(sys, "\n\n"))
  }

  /** `sep.join(parts)` for a string separator. */
  function JoinWith(parts: seq<string>, sep: string): string {
    if |parts| == 0 then ""
    else if |parts| == 1 then parts[0]
    else parts[0] + sep + JoinWith(parts[1..], sep)
  }

  // ---------------------------------------------------------------------------------------
  // Status-code hints
  // ---------------------------------------------------------------------------------------

  const JanHint :=
    "Tip: Jan Local API Server rejected the host header. In Jan > Settings > Local API Server, set Trusted Hosts to host.docker.internal,localhost,127.0.0.1."
  const NoKeyHint := "Tip: endpoint requires API auth. Save API key in the connection wizard."
  const EnvKeyHint := "Tip: using legacy env-var auth. Prefer stored encrypted key in connection wizard."
  const StoredKeyHint := "Tip: stored API key exists. Verify the key value and provider account scope."

  /** `_jan_trusted_host_hint`: only a 403 whose body mentions an invalid host header
      (case-insensitively) gets the hint. */
  function JanTrustedHostHint(statusCode: Option<int>, responseBody: string): (h: string)
    ensures h != "" <==> statusCode == Some(403) && Contains(Lower(responseBody), "invalid host header")
    ensures h != "" ==> h == JanHint
  {
    if statusCode != Some(403) then ""
    else if Contains(Lower(responseBody), "invalid host header") then JanHint
    else ""
  }

  /** `_api_key_hint`: only a 401 gets a hint, chosen by where the key came from. */
  function ApiKeyHint(env: ClientEnv, conn: Connection, statusCode: Option<int>): (h: string)
    ensures h != "" <==> statusCode == Some(401)
    ensures statusCode == Some(401) ==>
              h == (match ResolveApiKey(env, conn).1
                    case NoAuth => NoKeyHint
                    case EnvVar => EnvKeyHint
                    case EncryptedDb => StoredKeyHint)
  {
    if statusCode != Some(401) then ""
    else
      match ResolveApiKey(env, conn).1
      case NoAuth => NoKeyHint
      case EnvVar => EnvKeyHint
      case EncryptedDb => StoredKeyHint
  }

  /** A 401 hint tells the three key sources apart. */
  lemma ApiKeyHintDistinguishesSources(env: ClientEnv, c1: Connection, c2: Connection)
    requires ApiKeyHint(env, c1, Some(401)) == ApiKeyHint(env, c2, Some(401))
    ensures ResolveApiKey(env, c1).1 == ResolveApiKey(env, c2).1
  {
  }

  // ---------------------------------------------------------------------------------------
  // The repository's header examples
  // ---------------------------------------------------------------------------------------

  /** A stored key that decrypts wins over the environment variable. */
  lemma ExampleEncryptedBeatsEnv(env: ClientEnv, conn: Connection)
    requires conn.ctype == OpenAI
    requires conn.apiKeyEncrypted.Some? && conn.apiKeyEncrypted.value != ""
    requires env.decrypt(conn.apiKeyEncrypted.value) == Some("from-db")
    requires conn.apiKeyEnvVar == Some("LEGACY_KEY") && env.getenv("LEGACY_KEY") == Some("from-env")
    ensures Headers(env, conn)["Authorization"] == "Bearer from-db"
  {
  }

  /** Anthropic connections carry native headers only. */
  lemma ExampleAnthropicNative(env: ClientEnv, conn: Connection)
    requires conn.ctype == Anthropic
    requires conn.apiKeyEncrypted.Some? && conn.apiKeyEncrypted.value != ""
    requires env.decrypt(conn.apiKeyEncrypted.value) == Some("anthropic-key")
    ensures Headers(env, conn)["x-api-key"] == "anthropic-key"
    ensures Headers(env, conn)["anthropic-version"] == "2023-06-01"
    ensures "Authorization" !in Headers(env, conn)
  {
  }

  /** OpenRouter adds the configured attribution headers next to the bearer token. */
  lemma ExampleOpenRouterHeaders(env: ClientEnv, conn: Connection)
    requires conn.ctype == OpenRouter
    requires conn.apiKeyEncrypted.Some? && conn.apiKeyEncrypted.value != ""
    requires env.decrypt(conn.apiKeyEncrypted.value) == Some("openrouter-key")
    requires env.openrouterReferer == Some("https://example.app") && env.openrouterTitle == Some("LLMRace Tests")
    ensures Headers(env, conn)["Authorization"] == "Bearer openrouter-key"
    ensures Headers(env, conn)["HTTP-Referer"] == "https://example.app"
    ensures Headers(env, conn)["X-Title"] == "LLMRace Tests"
  {
  }
}
