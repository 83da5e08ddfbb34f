/** The bounded tool-call loop of one attempt (`_execute_item_attempt` in
    proxy/app/runs/executor.py): the provider is a function of the loop index and the
    messages sent, and each response's tool calls (native, or one command recovered from
    the text) are executed and fed back before the next call. */
module ToolRounds {
  import opened Wrappers
  import opened Json
  import opened Externals
  import opened Text
  import opened Domain
  import opened Tools

  /** A tool call to execute, native or recovered from the text. */
  datatype PendingCall = PendingCall(id: Option<string>, name: string, arguments: Json)

  /** One provider call of the loop and the calls it asked for. */
  datatype Round = Round(response: ProviderResponse, calls: seq<PendingCall>, fallback: bool)

  /** An executed tool call as it is recorded. */
  datatype ExecutedCall = ExecutedCall(
    loopIndex: nat,
    toolName: string,
    args: map<string, Json>,
    result: map<string, Json>,
    ok: bool,
    fallback: bool)

  /** The provider as the loop sees it: loop index and messages to a response, or the
      exception the call raised. */
  type Provider = (nat, seq<Message>) -> Result<ProviderResponse>

  function FallbackId(loopIndex: nat): string {
    "fallback_" + ShowInt(loopIndex)
  }

  function NativeCalls(tcs: seq<ToolCall>): (r: seq<PendingCall>)
    ensures |r| == |tcs|
    ensures forall k :: 0 <= k < |r| ==> r[k] == PendingCall(Some(tcs[k].id), tcs[k].name, tcs[k].arguments)
  {
    if |tcs| == 0 then [] else [PendingCall(Some(tcs[0].id), tcs[0].name, tcs[0].arguments)] + NativeCalls(tcs[1..])
  }

  /** The calls of one response: its native tool calls, or else at most one command
      recovered from its text. */
  function RoundOf(ext: Externals, resp: ProviderResponse, loopIndex: nat): (r: Round)
    ensures r.response == resp
    ensures |resp.toolCalls| > 0 ==> !r.fallback && r.calls == NativeCalls(resp.toolCalls)
    ensures |resp.toolCalls| == 0 ==> (r.fallback <==> ParseFallback(ext, resp.text).Some?)
    ensures r.fallback ==> r.calls == [PendingCall(Some(FallbackId(loopIndex)), ParseFallback(ext, resp.text).value.name,
                                                   JObj(ParseFallback(ext, resp.text).value.arguments))]
    ensures |r.calls| == 0 <==> |resp.toolCalls| == 0 && ParseFallback(ext, resp.text).None?
  {
    if |resp.toolCalls| > 0 then Round(resp, NativeCalls(resp.toolCalls), false)
    else
      match ParseFallback(ext, resp.text)
      case Some(cmd) => Round(resp, [PendingCall(Some(FallbackId(loopIndex)), cmd.name, JObj(cmd.arguments))], true)
      case None => Round(resp, [], false)
  }

  /** The arguments as a dict: anything else is wrapped as `{"raw": value}`. */
  function ToolArgs(arguments: Json): (r: map<string, Json>)
    ensures arguments.JObj? ==> r == arguments.fields
    ensures !arguments.JObj? ==> r == map["raw" := arguments]
  {
    if arguments.JObj? then arguments.fields else map["raw" := arguments]
  }

  /** Execute one call: a tool error becomes `{"error": message}` with status "error". */
  function RunTool(ext: Externals, call: PendingCall, loopIndex: nat, fallback: bool): (r: (ExecutedCall, Message))
    ensures r.0.ok <==> ExecuteTool(ext, call.name, ToolArgs(call.arguments)).Success?
    ensures r.0.ok ==> r.0.result == ExecuteTool(ext, call.name, ToolArgs(call.arguments)).value
    ensures !r.0.ok ==> r.0.result == map["error" := JStr(ExecuteTool(ext, call.name, ToolArgs(call.arguments)).error)]
    ensures r.0.toolName == call.name && r.0.args == ToolArgs(call.arguments)
    ensures r.0.loopIndex == loopIndex && r.0.fallback == fallback
    ensures r.1 == Message("tool", ext.dumps(JObj(r.0.result)), call.id, Some(call.name))
  {
    var args := ToolArgs(call.arguments);
    var outcome := ExecuteTool(ext, call.name, args);
    var result := if outcome.Success? then outcome.value else map["error" := JStr(outcome.error)];
    (ExecutedCall(loopIndex, call.name, args, result, outcome.Success?, fallback),
     Message("tool", ext.dumps(JObj(result)), call.id, Some(call.name)))
  }

  /** Execute the calls of one round in order; each adds one tool message. */
  function RunTools(ext: Externals, calls: seq<PendingCall>, loopIndex: nat, fallback: bool): (r: (seq<ExecutedCall>, seq<Message>))
    ensures |r.0| == |calls| && |r.1| == |calls|
    ensures forall k :: 0 <= k < |calls| ==> (r.0[k], r.1[k]) == RunTool(ext, calls[k], loopIndex, fallback)
  {
    if |calls| == 0 then ([], [])
    else
      var first := RunTool(ext, calls[0], loopIndex, fallback);
      var rest := RunTools(ext, calls[1..], loopIndex, fallback);
      ([first.0] + rest.0, [first.1] + rest.1)
  }

  /** The loop state: the conversation so far, the rounds made, the executed calls and
      whether the last allowed round still asked for tools. */
  datatype LoopState = LoopState(messages: seq<Message>, rounds: seq<Round>, executed: seq<ExecutedCall>, exhausted: bool)

  /** One iteration on the response to loop index `|st.rounds|`: record the round; when it
      asked for tools, add the assistant text (if any) and one tool message per call, and
      continue. */
  function Step(ext: Externals, limit: int, st: LoopState, resp: ProviderResponse): (r: (LoopState, bool))
    ensures r.0.rounds == st.rounds + [RoundOf(ext, resp, |st.rounds|)]
    ensures r.1 <==> |RoundOf(ext, resp, |st.rounds|).calls| > 0
    ensures r.0.exhausted <==> st.exhausted || (r.1 && |st.rounds| == limit - 1)
  {
    var idx := |st.rounds|;
    var round := RoundOf(ext, resp, idx);
    var rounds := st.rounds + [round];
    if |round.calls| == 0 then (st.(rounds := rounds), false)
    else
      var assistant := if resp.text != "" then [PlainMessage("assistant", resp.text)] else [];
      var ran := RunTools(ext, round.calls, idx, round.fallback);
      (LoopState(st.messages + assistant + ran.1, rounds, st.executed + ran.0, st.exhausted || idx == limit - 1), true)
  }

  /** `for loop_idx in range(tool_loop_limit)`, continuing from `st`: the rounds made so
      far are kept, and a loop that has not reached the limit makes at least one more. */
  function ToolLoop(ext: Externals, limit: int, provider: Provider, st: LoopState): (r: Result<LoopState>)
    ensures r.Success? ==> |st.rounds| <= |r.value.rounds| && r.value.rounds[..|st.rounds|] == st.rounds
    ensures r.Success? && |st.rounds| >= limit ==> r.value == st
    ensures r.Success? && |st.rounds| < limit ==> |st.rounds| < |r.value.rounds| <= limit
    decreases if limit > |st.rounds| then limit - |st.rounds| else 0
  {
    var idx := |st.rounds|;
    if idx >= limit then Success(st)
    else
      var resp :- provider(idx, st.messages);
      var (next, more) := Step(ext, limit, st, resp);
      if !more then Success(next)
      else
        var r := ToolLoop(ext, limit, provider, next);
        assert r.Success? ==> r.value.rounds[..idx] == st.rounds by {
          if r.Success? {
            assert r.value.rounds[..idx + 1] == next.rounds;
            assert next.rounds[..idx] == st.rounds;
          }
        }
        r
  }

  /** One step of the loop: stopping after the round, or continuing from the stepped state. */
  lemma ToolLoopUnfold(ext: Externals, limit: int, provider: Provider, st: LoopState)
    requires |st.rounds| < limit && provider(|st.rounds|, st.messages).Success?
    ensures var step := Step(ext, limit, st, provider(|st.rounds|, st.messages).value);
            ToolLoop(ext, limit, provider, st) == if step.1 then ToolLoop(ext, limit, provider, step.0) else Success(step.0)
  {
  }

  /** Every round the loop adds is the round of its response at its own loop index. */
  lemma {:induction false} ToolLoopRoundsOf(ext: Externals, limit: int, provider: Provider, st: LoopState)
    requires ToolLoop(ext, limit, provider, st).Success?
    ensures var rs := ToolLoop(ext, limit, provider, st).value.rounds;
            forall k :: |st.rounds| <= k < |rs| ==> rs[k] == RoundOf(ext, rs[k].response, k)
    decreases if limit > |st.rounds| then limit - |st.rounds| else 0
  {
    var idx := |st.rounds|;
    if idx < limit {
      var resp := provider(idx, st.messages).value;
      var step := Step(ext, limit, st, resp);
      ToolLoopUnfold(ext, limit, provider, st);
      if step.1 {
        ToolLoopRoundsOf(ext, limit, provider, step.0);
        var rs := ToolLoop(ext, limit, provider, step.0).value.rounds;
        assert rs[..idx + 1] == step.0.rounds;
        assert rs[idx] == step.0.rounds[idx];
      }
    }
  }

  /** Every new round but the last asked for tools. */
  lemma {:induction false} ToolLoopContinues(ext: Externals, limit: int, provider: Provider, st: LoopState)
    requires ToolLoop(ext, limit, provider, st).Success?
    ensures var rs := ToolLoop(ext, limit, provider, st).value.rounds;
            forall k :: |st.rounds| <= k < |rs| - 1 ==> |rs[k].calls| > 0
    decreases if limit > |st.rounds| then limit - |st.rounds| else 0
  {
    var idx := |st.rounds|;
    if idx < limit {
      var resp := provider(idx, st.messages).value;
      var step := Step(ext, limit, st, resp);
      ToolLoopUnfold(ext, limit, provider, st);
      if step.1 {
        ToolLoopContinues(ext, limit, provider, step.0);
        var rs := ToolLoop(ext, limit, provider, step.0).value.rounds;
        assert rs[..idx + 1] == step.0.rounds;
        assert rs[idx] == step.0.rounds[idx];
      }
    }
  }

  /** Stopping before the limit after a new round means that round asked for no tools. */
  lemma {:induction false} ToolLoopStopsEarly(ext: Externals, limit: int, provider: Provider, st: LoopState)
    requires ToolLoop(ext, limit, provider, st).Success?
    ensures var rs := ToolLoop(ext, limit, provider, st).value.rounds;
            |st.rounds| < |rs| < limit ==> |rs[|rs| - 1].calls| == 0
    decreases if limit > |st.rounds| then limit - |st.rounds| else 0
  {
    var idx := |st.rounds|;
    if idx < limit {
      var resp := provider(idx, st.messages).value;
      var step := Step(ext, limit, st, resp);
      ToolLoopUnfold(ext, limit, provider, st);
      if step.1 {
        ToolLoopStopsEarly(ext, limit, provider, step.0);
      }
    }
  }

  /** The loop is exhausted exactly when the round at the last allowed index still asked
      for tools. */
  lemma {:induction false} ToolLoopExhausted(ext: Externals, limit: int, provider: Provider, st: LoopState)
    requires ToolLoop(ext, limit, provider, st).Success?
    ensures var r := ToolLoop(ext, limit, provider, st).value;
            r.exhausted <==> st.exhausted || (|st.rounds| < |r.rounds| == limit && |r.rounds[limit - 1].calls| > 0)
    decreases if limit > |st.rounds| then limit - |st.rounds| else 0
  {
    var idx := |st.rounds|;
    if idx < limit {
      var resp := provider(idx, st.messages).value;
      var step := Step(ext, limit, st, resp);
      ToolLoopUnfold(ext, limit, provider, st);
      if step.1 {
        ToolLoopExhausted(ext, limit, provider, step.0);
        var rs := ToolLoop(ext, limit, provider, step.0).value.rounds;
        assert rs[..idx + 1] == step.0.rounds;
        assert rs[idx] == step.0.rounds[idx];
      }
    }
  }

  /** The loop of one attempt, starting from the request's messages. */
  function RunToolLoop(ext: Externals, limit: int, provider: Provider, messages: seq<Message>): (r: Result<LoopState>)
    ensures r.Success? ==> (|r.value.rounds| == 0 <==> limit <= 0)
    ensures r.Success? ==> |r.value.rounds| <= limit || limit <= 0
    ensures r.Success? ==> forall k :: 0 <= k < |r.value.rounds| - 1 ==> |r.value.rounds[k].calls| > 0
    ensures r.Success? && 0 < |r.value.rounds| < limit ==> |r.value.rounds[|r.value.rounds| - 1].calls| == 0
    ensures r.Success? ==> forall k :: 0 <= k < |r.value.rounds| ==> r.value.rounds[k] == RoundOf(ext, r.value.rounds[k].response, k)
    ensures r.Success? ==> (r.value.exhausted <==> 1 <= limit == |r.value.rounds| && |r.value.rounds[limit - 1].calls| > 0)
  {
    var r := ToolLoop(ext, limit, provider, LoopState(messages, [], [], false));
    if r.Success? then
      ToolLoopRoundsOf(ext, limit, provider, LoopState(messages, [], [], false));
      ToolLoopContinues(ext, limit, provider, LoopState(messages, [], [], false));
      ToolLoopStopsEarly(ext, limit, provider, LoopState(messages, [], [], false));
      ToolLoopExhausted(ext, limit, provider, LoopState(messages, [], [], false));
      r
    else r
  }

  /** A fallback command is looked for only in a response without native tool calls. */
  lemma FallbackOnlyWithoutNativeCalls(ext: Externals, limit: int, provider: Provider, messages: seq<Message>, k: nat)
    requires RunToolLoop(ext, limit, provider, messages).Success?
    requires k < |RunToolLoop(ext, limit, provider, messages).value.rounds|
    requires RunToolLoop(ext, limit, provider, messages).value.rounds[k].fallback
    ensures |RunToolLoop(ext, limit, provider, messages).value.rounds[k].response.toolCalls| == 0
  {
  }
}
