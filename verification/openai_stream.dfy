/** The OpenAI-compatible streaming reader of the provider client
    (proxy/app/providers/adapters.py, `_generate_openai_compat`), over a given sequence of
    response lines: `data:` lines carry JSON chunks, `[DONE]` ends the stream, text deltas
    are collected, and tool-call deltas are merged per index into fragments that become
    tool calls once the stream ends. */
module OpenAIStream {
  import opened Wrappers
  import opened Json
  import opened Externals
  import opened Text
  import opened Domain

  // ---------------------------------------------------------------------------------------
  // Tool-call deltas and fragments
  // ---------------------------------------------------------------------------------------

  /** A tool-call index as a key of the source's fragment dictionary. Python's dict
      identifies keys that compare equal, so `0`, `0.0` and `False` are one key, while the
      string `"0"` and `None` are keys of their own. */
  datatype IndexKey = NullKey | NumKey(n: real) | StrKey(s: string)

  /** The dictionary key of an `index` value; `None` for a list or an object, which are
      unhashable and make the lookup raise `TypeError`. */
  function IndexKeyOf(j: Json): (r: Option<IndexKey>)
    ensures r.None? <==> j.JArr? || j.JObj?
    ensures j.JInt? ==> r == Some(NumKey(j.i as real))
    ensures j.JBool? ==> r == Some(NumKey(if j.b then 1.0 else 0.0))
    ensures j.JReal? ==> r == Some(NumKey(j.r))
    ensures j.JStr? ==> r == Some(StrKey(j.s))
    ensures j.JNull? ==> r == Some(NullKey)
  {
    match j
    case JInt(i) => Some(NumKey(i as real))
    case JBool(b) => Some(NumKey(if b then 1.0 else 0.0))
    case JReal(x) => Some(NumKey(x))
    case JStr(s) => Some(StrKey(s))
    case JNull => Some(NullKey)
    case _ => None
  }

  /** Python's `==` on the hashable JSON values: numbers (bools included) by value,
      strings by content, and `None` only with itself. */
  predicate PyEqual(a: Json, b: Json) {
    if (a.JInt? || a.JBool? || a.JReal?) && (b.JInt? || b.JBool? || b.JReal?) then NumValue(a) == NumValue(b)
    else if a.JStr? && b.JStr? then a.s == b.s
    else a.JNull? && b.JNull?
  }

  function NumValue(j: Json): real
    requires j.JInt? || j.JBool? || j.JReal?
  {
    if j.JInt? then j.i as real else if j.JBool? then (if j.b then 1.0 else 0.0) else j.r
  }

  /** Two hashable indices select the same fragment exactly when Python finds them equal. */
  lemma IndexKeyOfEqual(a: Json, b: Json)
    requires IndexKeyOf(a).Some? && IndexKeyOf(b).Some?
    ensures IndexKeyOf(a) == IndexKeyOf(b) <==> PyEqual(a, b)
  {
  }

  /** One decoded entry of `delta.tool_calls`. An empty `id` or `name` stands for a missing
      or empty value, which leaves the fragment's current one in place. */
  datatype Delta = Delta(index: IndexKey, id: string, name: string, arguments: string)

  /** A tool call under construction. */
  datatype Fragment = Fragment(id: string, name: string, arguments: string)

  /** The fragments keyed by index, in the order their indices first appeared (the
      insertion order of the source's dictionary). */
  type Fragments = seq<(IndexKey, Fragment)>

  function Indices(fs: Fragments): (r: seq<IndexKey>)
    ensures |r| == |fs|
    ensures forall k :: 0 <= k < |fs| ==> r[k] == fs[k].0
  {
    if |fs| == 0 then [] else Indices(fs[..|fs| - 1]) + [fs[|fs| - 1].0]
  }

  predicate DistinctKeys(fs: Fragments) {
    forall a, b :: 0 <= a < b < |fs| ==> fs[a].0 != fs[b].0
  }

  /** The fragment stored under `index`, or the empty default of the source's
      `defaultdict`. */
  function Lookup(fs: Fragments, index: IndexKey): (f: Fragment)
    ensures (forall k :: 0 <= k < |fs| ==> fs[k].0 != index) ==> f == Fragment("", "", "")
  {
    if |fs| == 0 then Fragment("", "", "")
    else if fs[|fs| - 1].0 == index then fs[|fs| - 1].1
    else Lookup(fs[..|fs| - 1], index)
  }

  /** `x or fallback` for strings. */
  function OrElse(x: string, fallback: string): string {
    if x != "" then x else fallback
  }

  /** One delta applied to its fragment: a non-empty id or name replaces the stored one,
      arguments are appended. */
  function MergeInto(f: Fragment, d: Delta): (r: Fragment)
    ensures r.arguments == f.arguments + d.arguments
    ensures d.id != "" ==> r.id == d.id
    ensures d.id == "" ==> r.id == f.id
    ensures d.name != "" ==> r.name == d.name
    ensures d.name == "" ==> r.name == f.name
  {
    Fragment(OrElse(d.id, f.id), OrElse(d.name, f.name), f.arguments + d.arguments)
  }

  /** Overwrite the entry for `index`. */
  function Replace(fs: Fragments, index: IndexKey, f: Fragment): (r: Fragments)
    ensures |r| == |fs|
  {
    if |fs| == 0 then []
    else if fs[|fs| - 1].0 == index then fs[..|fs| - 1] + [(index, f)]
    else Replace(fs[..|fs| - 1], index, f) + [fs[|fs| - 1]]
  }

  /** Store `f` under `index`: in place when the index is already present, otherwise as a
      new last entry. */
  function Put(fs: Fragments, index: IndexKey, f: Fragment): (r: Fragments)
    ensures index in Indices(fs) ==> |r| == |fs|
    ensures index !in Indices(fs) ==> r == fs + [(index, f)]
  {
    if index in Indices(fs) then Replace(fs, index, f) else fs + [(index, f)]
  }

  /** The fragments after a sequence of deltas. */
  function Accumulate(ds: seq<Delta>): Fragments {
    if |ds| == 0 then []
    else
      var fs := Accumulate(ds[..|ds| - 1]);
      var d := ds[|ds| - 1];
      Put(fs, d.index, MergeInto(Lookup(fs, d.index), d))
  }

  // Reference definitions: what one index's fragment should hold, read off the deltas alone.

  /** The concatenated arguments of the deltas for `index`. */
  function ArgumentsFor(ds: seq<Delta>, index: IndexKey): string {
    if |ds| == 0 then ""
    else ArgumentsFor(ds[..|ds| - 1], index) + (if ds[|ds| - 1].index == index then ds[|ds| - 1].arguments else "")
  }

  /** The last non-empty id among the deltas for `index`, or "". */
  function LastIdFor(ds: seq<Delta>, index: IndexKey): string {
    if |ds| == 0 then ""
    else if ds[|ds| - 1].index == index && ds[|ds| - 1].id != "" then ds[|ds| - 1].id
    else LastIdFor(ds[..|ds| - 1], index)
  }

  /** The last non-empty name among the deltas for `index`, or "". */
  function LastNameFor(ds: seq<Delta>, index: IndexKey): string {
    if |ds| == 0 then ""
    else if ds[|ds| - 1].index == index && ds[|ds| - 1].name != "" then ds[|ds| - 1].name
    else LastNameFor(ds[..|ds| - 1], index)
  }

  /** Each index once, in order of first appearance. */
  function FirstAppearance(ds: seq<Delta>): seq<IndexKey> {
    if |ds| == 0 then []
    else
      var seen := FirstAppearance(ds[..|ds| - 1]);
      if ds[|ds| - 1].index in seen then seen else seen + [ds[|ds| - 1].index]
  }

  lemma {:induction false} LookupReplace(fs: Fragments, index: IndexKey, f: Fragment, other: IndexKey)
    requires index in Indices(fs)
    ensures Lookup(Replace(fs, index, f), index) == f
    ensures other != index ==> Lookup(Replace(fs, index, f), other) == Lookup(fs, other)
    ensures Indices(Replace(fs, index, f)) == Indices(fs)
    decreases |fs|
  {
    var init := fs[..|fs| - 1];
    var last := fs[|fs| - 1];
    assert Indices(fs) == Indices(init) + [last.0];
    if last.0 == index {
      var r := init + [(index, f)];
      assert r[..|fs| - 1] == init;
      assert Indices(r) == Indices(init) + [index];
    } else {
      LookupReplace(init, index, f, other);
      var r := Replace(init, index, f) + [last];
      assert r[..|r| - 1] == Replace(init, index, f);
      assert Indices(r) == Indices(Replace(init, index, f)) + [last.0];
    }
  }

  lemma LookupAppend(fs: Fragments, index: IndexKey, f: Fragment, other: IndexKey)
    ensures Lookup(fs + [(index, f)], index) == f
    ensures other != index ==> Lookup(fs + [(index, f)], other) == Lookup(fs, other)
    ensures Indices(fs + [(index, f)]) == Indices(fs) + [index]
  {
    assert (fs + [(index, f)])[..|fs|] == fs;
  }

  lemma LookupPut(fs: Fragments, index: IndexKey, f: Fragment, other: IndexKey)
    ensures Lookup(Put(fs, index, f), index) == f
    ensures other != index ==> Lookup(Put(fs, index, f), other) == Lookup(fs, other)
    ensures Indices(Put(fs, index, f)) == if index in Indices(fs) then Indices(fs) else Indices(fs) + [index]
  {
    if index in Indices(fs) {
      LookupReplace(fs, index, f, other);
    } else {
      LookupAppend(fs, index, f, other);
    }
  }

  /** Each index's fragment is determined by that index's deltas alone: its arguments are
      their concatenation and its id and name the last non-empty ones; the fragments are
      keyed by the indices in order of first appearance. */
  lemma {:induction false} AccumulateFragments(ds: seq<Delta>, index: IndexKey)
    ensures Lookup(Accumulate(ds), index) == Fragment(LastIdFor(ds, index), LastNameFor(ds, index), ArgumentsFor(ds, index))
    ensures Indices(Accumulate(ds)) == FirstAppearance(ds)
    decreases |ds|
  {
    if |ds| > 0 {
      var init := ds[..|ds| - 1];
      var d := ds[|ds| - 1];
      var fs := Accumulate(init);
      AccumulateFragments(init, index);
      AccumulateFragments(init, d.index);
      LookupPut(fs, d.index, MergeInto(Lookup(fs, d.index), d), index);
    }
  }

  lemma {:induction false} FirstAppearanceDistinct(ds: seq<Delta>)
    ensures forall a, b :: 0 <= a < b < |FirstAppearance(ds)| ==> FirstAppearance(ds)[a] != FirstAppearance(ds)[b]
    ensures forall i :: i in FirstAppearance(ds) <==> exists k :: 0 <= k < |ds| && ds[k].index == i
    decreases |ds|
  {
    if |ds| > 0 {
      var init := ds[..|ds| - 1];
      FirstAppearanceDistinct(init);
      forall i
        ensures i in FirstAppearance(ds) <==> exists k :: 0 <= k < |ds| && ds[k].index == i
      {
        if exists k :: 0 <= k < |init| && init[k].index == i {
          var k :| 0 <= k < |init| && init[k].index == i;
          assert ds[k].index == i;
        }
        if exists k :: 0 <= k < |ds| && ds[k].index == i {
          var k :| 0 <= k < |ds| && ds[k].index == i;
          if k < |init| {
            assert init[k].index == i;
          }
        }
      }
    }
  }

  /** No index is stored twice, and the stored indices are exactly those the deltas
      mention. */
  lemma AccumulateKeys(ds: seq<Delta>)
    ensures DistinctKeys(Accumulate(ds))
    ensures forall i :: i in Indices(Accumulate(ds)) <==> exists k :: 0 <= k < |ds| && ds[k].index == i
  {
    AccumulateFragments(ds, NumKey(0.0));
    FirstAppearanceDistinct(ds);
    var fs := Accumulate(ds);
    forall a, b | 0 <= a < b < |fs|
      ensures fs[a].0 != fs[b].0
    {
      assert Indices(fs)[a] == fs[a].0 && Indices(fs)[b] == fs[b].0;
    }
  }

  // ---------------------------------------------------------------------------------------
  // From fragments to tool calls
  // ---------------------------------------------------------------------------------------

  /** `json.loads(arguments or "{}")`, with undecodable text kept as `{"raw": text}`. */
  function ParseArguments(ext: Externals, arguments: string): (j: Json)
    ensures arguments == "" ==> j == JObj(map[])
    ensures arguments != "" && ext.loads(arguments).Some? ==> j == ext.loads(arguments).value
    ensures arguments != "" && ext.loads(arguments).None? ==> j == JObj(map["raw" := JStr(arguments)])
  {
    if arguments == "" then JObj(map[])
    else
      match ext.loads(arguments)
      case Some(v) => v
      case None => JObj(map["raw" := JStr(arguments)])
  }

  /** The fallback id of the `n`-th emitted call. */
  function GeneratedId(n: nat): string {
    "call_" + ShowInt(n)
  }

  /** The call a named fragment becomes when `n` calls precede it. */
  function CallOf(ext: Externals, f: Fragment, n: nat): (c: ToolCall)
    ensures c.name == f.name && c.arguments == ParseArguments(ext, f.arguments)
    ensures f.id != "" ==> c.id == f.id
    ensures f.id == "" ==> c.id == GeneratedId(n + 1)
  {
    ToolCall(OrElse(f.id, GeneratedId(n + 1)), f.name, ParseArguments(ext, f.arguments))
  }

  /** The tool-call loop after the stream: nameless fragments are skipped, and `emitted`
      counts the calls already produced. */
  function AssembleFrom(ext: Externals, fs: Fragments, emitted: nat): seq<ToolCall> {
    if |fs| == 0 then []
    else if fs[0].1.name == "" then AssembleFrom(ext, fs[1..], emitted)
    else [CallOf(ext, fs[0].1, emitted)] + AssembleFrom(ext, fs[1..], emitted + 1)
  }

  /** The fragments that have a name, in order. */
  function Named(fs: Fragments): (r: seq<Fragment>)
    ensures |r| <= |fs|
    ensures forall k :: 0 <= k < |r| ==> r[k].name != ""
  {
    if |fs| == 0 then []
    else (if fs[0].1.name != "" then [fs[0].1] else []) + Named(fs[1..])
  }

  lemma {:induction false} AssembleLength(ext: Externals, fs: Fragments, emitted: nat)
    ensures |AssembleFrom(ext, fs, emitted)| == |Named(fs)|
    decreases |fs|
  {
    if |fs| > 0 {
      AssembleLength(ext, fs[1..], if fs[0].1.name == "" then emitted else emitted + 1);
    }
  }

  /** A nameless first fragment produces no call: the calls and the named fragments are
      those of the rest. */
  lemma AssembleSkipStep(ext: Externals, fs: Fragments, emitted: nat)
    requires |fs| > 0 && fs[0].1.name == ""
    ensures Named(fs) == Named(fs[1..])
    ensures AssembleFrom(ext, fs, emitted) == AssembleFrom(ext, fs[1..], emitted)
  {
  }

  /** A named first fragment produces the first call, ahead of the calls of the rest. */
  lemma AssembleNamedStep(ext: Externals, fs: Fragments, emitted: nat, k: nat)
    requires |fs| > 0 && fs[0].1.name != "" && 0 < k < |Named(fs)|
    requires k - 1 < |AssembleFrom(ext, fs[1..], emitted + 1)|
    requires AssembleFrom(ext, fs[1..], emitted + 1)[k - 1] == CallOf(ext, Named(fs[1..])[k - 1], emitted + 1 + (k - 1))
    ensures AssembleFrom(ext, fs, emitted)[k] == CallOf(ext, Named(fs)[k], emitted + k)
  {
    assert Named(fs) == [fs[0].1] + Named(fs[1..]);
    assert AssembleFrom(ext, fs, emitted) == [CallOf(ext, fs[0].1, emitted)] + AssembleFrom(ext, fs[1..], emitted + 1);
  }

  /** The `k`-th call comes from the `k`-th named fragment. */
  lemma {:induction false} AssembleAt(ext: Externals, fs: Fragments, emitted: nat, k: nat)
    requires k < |Named(fs)|
    ensures k < |AssembleFrom(ext, fs, emitted)|
    ensures AssembleFrom(ext, fs, emitted)[k] == CallOf(ext, Named(fs)[k], emitted + k)
    decreases |fs|
  {
    AssembleLength(ext, fs, emitted);
    if fs[0].1.name == "" {
      AssembleSkipStep(ext, fs, emitted);
      AssembleAt(ext, fs[1..], emitted, k);
    } else if k == 0 {
      assert Named(fs)[0] == fs[0].1;
    } else {
      AssembleAt(ext, fs[1..], emitted + 1, k - 1);
      AssembleNamedStep(ext, fs, emitted, k);
    }
  }

  /** The calls are the named fragments, in order, the `k`-th falling back to id
      `call_<k+1>`. */
  lemma AssembleNamed(ext: Externals, fs: Fragments, emitted: nat)
    ensures |AssembleFrom(ext, fs, emitted)| == |Named(fs)|
    ensures forall k :: 0 <= k < |Named(fs)| ==> AssembleFrom(ext, fs, emitted)[k] == CallOf(ext, Named(fs)[k], emitted + k)
  {
    AssembleLength(ext, fs, emitted);
    forall k | 0 <= k < |Named(fs)|
      ensures AssembleFrom(ext, fs, emitted)[k] == CallOf(ext, Named(fs)[k], emitted + k)
    {
      AssembleAt(ext, fs, emitted, k);
    }
  }

  /** Every call has a name, and each is the fragment it comes from with its arguments
      decoded. */
  function AssembleToolCalls(ext: Externals, fs: Fragments): (calls: seq<ToolCall>)
    ensures |calls| == |Named(fs)|
    ensures forall k :: 0 <= k < |calls| ==> calls[k].name != "" && calls[k] == CallOf(ext, Named(fs)[k], k)
  {
    AssembleNamed(ext, fs, 0);
    AssembleFrom(ext, fs, 0)
  }

  // ---------------------------------------------------------------------------------------
  // Reading chunks
  // ---------------------------------------------------------------------------------------

  /** What the reader has collected so far. */
  datatype StreamState = StreamState(
    textChunks: seq<string>,
    rawChunks: seq<Json>,
    usage: map<string, Json>,
    deltas: seq<Delta>)

  const Initial := StreamState([], [], map[], [])

  /** A truthy value that is not a string, which the reader rejects where it wants text. */
  predicate NonText(j: Json) {
    Truthy(j) && !j.JStr?
  }

  /** A truthy value that must be a string, or "" for a falsy one. */
  function OptionalText(j: Json, what: string): (r: Result<string>)
    ensures r.Success? <==> !NonText(j)
    ensures r.Success? && Truthy(j) ==> r.value == j.s && r.value != ""
    ensures r.Success? && !Truthy(j) ==> r.value == ""
  {
    if !Truthy(j) then Success("")
    else if j.JStr? then Success(j.s)
    else Failure(what + " is not a string")
  }

  /** One entry of `delta.tool_calls`: its `index` (0 when absent) is the fragment key.
      It fails exactly when the entry or its `function` is not an object, the index is
      unhashable, or the id, name or arguments is truthy without being a string. */
  function DecodeDelta(tc: Json): (r: Result<Delta>)
    ensures r.Failure? <==>
              || !tc.JObj?
              || IndexKeyOf(Get(tc.fields, "index", JInt(0))).None?
              || NonText(Get(tc.fields, "id", JNull))
              || !Get(tc.fields, "function", JObj(map[])).JObj?
              || NonText(Get(Get(tc.fields, "function", JObj(map[])).fields, "name", JNull))
              || NonText(Get(Get(tc.fields, "function", JObj(map[])).fields, "arguments", JNull))
    ensures r.Success? ==> Some(r.value.index) == IndexKeyOf(Get(tc.fields, "index", JInt(0)))
    ensures r.Success? ==> OptionalText(Get(tc.fields, "id", JNull), "tool call id") == Success(r.value.id)
    ensures r.Success? ==>
              var func := Get(tc.fields, "function", JObj(map[]));
              OptionalText(Get(func.fields, "name", JNull), "tool call name") == Success(r.value.name) &&
              OptionalText(Get(func.fields, "arguments", JNull), "tool call arguments") == Success(r.value.arguments)
  {
    if !tc.JObj? then Failure("tool call delta is not an object")
    else
      var index := IndexKeyOf(Get(tc.fields, "index", JInt(0)));
      if index.None? then Failure("TypeError: unhashable tool call index")
      else
        var id :- OptionalText(Get(tc.fields, "id", JNull), "tool call id");
        var func := Get(tc.fields, "function", JObj(map[]));
        if !func.JObj? then Failure("tool call function is not an object")
        else
          var name :- OptionalText(Get(func.fields, "name", JNull), "tool call name");
          var arguments :- OptionalText(Get(func.fields, "arguments", JNull), "tool call arguments");
          Success(Delta(index.value, id, name, arguments))
  }

  function DecodeDeltas(items: seq<Json>): (r: Result<seq<Delta>>)
    ensures r.Success? ==> |r.value| == |items|
    ensures r.Success? ==> forall k :: 0 <= k < |items| ==> DecodeDelta(items[k]) == Success(r.value[k])
  {
    if |items| == 0 then Success([])
    else
      var d :- DecodeDelta(items[0]);
      var rest :- DecodeDeltas(items[1..]);
      Success([d] + rest)
  }

  /** The `delta` of the first choice, or `None` when `choices` is falsy. */
  function FirstDelta(chunk: map<string, Json>): Result<Option<map<string, Json>>> {
    var choices := Get(chunk, "choices", JArr([]));
    if !Truthy(choices) then Success(None)
    else if !choices.JArr? then Failure("choices is not a list")
    else if !choices.items[0].JObj? then Failure("choice is not an object")
    else
      var delta := Get(choices.items[0].fields, "delta", JObj(map[]));
      if !delta.JObj? then Failure("delta is not an object") else Success(Some(delta.fields))
  }

  /** A truthy `usage` replaces the stored one; a falsy one leaves it. */
  function UpdatedUsage(usage: map<string, Json>, chunk: map<string, Json>): (r: Result<map<string, Json>>)
    ensures r.Failure? <==> Truthy(Get(chunk, "usage", JNull)) && !chunk["usage"].JObj?
    ensures r.Success? && Truthy(Get(chunk, "usage", JNull)) ==> r.value == chunk["usage"].fields
    ensures r.Success? && !Truthy(Get(chunk, "usage", JNull)) ==> r.value == usage
  {
    var u := Get(chunk, "usage", JNull);
    if !Truthy(u) then Success(usage)
    else if u.JObj? then Success(u.fields)
    else Failure("usage is not an object")
  }

  /** The first choice's delta: its content (if any) is appended to the text pieces and its
      tool-call deltas to the deltas. */
  function ApplyDelta(textChunks: seq<string>, deltas: seq<Delta>, delta: map<string, Json>)
    : (r: Result<(seq<string>, seq<Delta>)>)
    ensures r.Success? && !Truthy(Get(delta, "content", JNull)) ==> r.value.0 == textChunks
    ensures r.Success? && Truthy(Get(delta, "content", JNull)) ==>
              delta["content"].JStr? && r.value.0 == textChunks + [delta["content"].s]
    ensures r.Success? ==> |r.value.1| >= |deltas| && r.value.1[..|deltas|] == deltas
  {
    var content :- OptionalText(Get(delta, "content", JNull), "content");
    var text := if content != "" then textChunks + [content] else textChunks;
    var calls := Get(delta, "tool_calls", JArr([]));
    if !Truthy(calls) then Success((text, deltas))
    else if !calls.JArr? then Failure("tool_calls is not a list")
    else
      var ds :- DecodeDeltas(calls.items);
      assert (deltas + ds)[..|deltas|] == deltas;
      Success((text, deltas + ds))
  }

  /** One decoded chunk: a truthy `usage` replaces the stored one, then the first choice's
      delta contributes its content and its tool-call deltas. */
  function ApplyChunk(st: StreamState, chunk: Json): (r: Result<StreamState>)
    ensures r.Success? ==> chunk.JObj? && r.value.rawChunks == st.rawChunks + [chunk]
    ensures r.Success? ==> UpdatedUsage(st.usage, chunk.fields).Success?
    ensures r.Success? ==> r.value.usage == UpdatedUsage(st.usage, chunk.fields).value
    ensures r.Success? ==> |r.value.textChunks| >= |st.textChunks| && r.value.textChunks[..|st.textChunks|] == st.textChunks
    ensures r.Success? ==> |r.value.deltas| >= |st.deltas| && r.value.deltas[..|st.deltas|] == st.deltas
  {
    if !chunk.JObj? then Failure("chunk is not an object")
    else
      var usage :- UpdatedUsage(st.usage, chunk.fields);
      var raw := st.rawChunks + [chunk];
      var delta :- FirstDelta(chunk.fields);
      match delta
      case None => Success(StreamState(st.textChunks, raw, usage, st.deltas))
      case Some(d) =>
        var next :- ApplyDelta(st.textChunks, st.deltas, d);
        assert next.0[..|st.textChunks|] == st.textChunks;
        Success(StreamState(next.0, raw, usage, next.1))
  }

  /** The JSON text of an SSE `data:` line, stripped; `None` for any other line (including
      the empty one). */
  function DataPayload(line: string): (r: Option<string>)
    ensures r.Some? <==> StartsWith(line, "data:")
    ensures r.Some? ==> r.value == Strip(line[5..])
  {
    if StartsWith(line, "data:") then Some(Strip(line[5..])) else None
  }

  const DoneMarker := "[DONE]"

  /** The line loop: other lines are skipped, `[DONE]` ends it, an undecodable payload
      raises the decoder's error. */
  function ReadLines(ext: Externals, st: StreamState, lines: seq<string>): (r: Result<StreamState>)
    ensures r.Success? ==> |st.rawChunks| <= |r.value.rawChunks|
    ensures r.Success? ==> |st.textChunks| <= |r.value.textChunks| && r.value.textChunks[..|st.textChunks|] == st.textChunks
    decreases |lines|
  {
    if |lines| == 0 then Success(st)
    else
      match DataPayload(lines[0])
      case None => ReadLines(ext, st, lines[1..])
      case Some(data) =>
        if data == DoneMarker then Success(st)
        else
          match ext.loads(data)
          case None => Failure(ext.loadsError(data))
          case Some(chunk) =>
            var next :- ApplyChunk(st, chunk);
            var r := ReadLines(ext, next, lines[1..]);
            assert r.Success? ==> r.value.textChunks[..|st.textChunks|] == next.textChunks[..|st.textChunks|];
            r
  }

  const CompletionTokensKey := "completion_tokens"
  const EstimatedKey := "estimated"

  /** The usage reported when the stream carried none: one token per word, at least one. */
  function EstimatedUsage(text: string): (u: map<string, Json>)
    ensures u.Keys == {CompletionTokensKey, EstimatedKey}
    ensures u[EstimatedKey] == JBool(true)
    ensures u[CompletionTokensKey].JInt? && u[CompletionTokensKey].i >= 1
    ensures |Words(text)| >= 1 ==> u[CompletionTokensKey] == JInt(|Words(text)|)
  {
    var words := |Words(text)|;
    map[CompletionTokensKey := JInt(if words < 1 then 1 else words), EstimatedKey := JBool(true)]
  }

  /** The response once the lines are read. */
  function Finish(ext: Externals, st: StreamState): (p: ProviderResponse)
    ensures p.text == Concat(st.textChunks) && p.streamed == st.textChunks
    ensures |st.usage| == 0 ==> p.usage == EstimatedUsage(p.text)
    ensures |st.usage| > 0 ==> p.usage == st.usage
    ensures p.toolCalls == AssembleToolCalls(ext, Accumulate(st.deltas))
    ensures p.raw == map["chunks" := JArr(st.rawChunks), "provider" := JStr("openai_compat")]
  {
    var text := Concat(st.textChunks);
    ProviderResponse(
      text,
      st.textChunks,
      AssembleToolCalls(ext, Accumulate(st.deltas)),
      if |st.usage| == 0 then EstimatedUsage(text) else st.usage,
      map["chunks" := JArr(st.rawChunks), "provider" := JStr("openai_compat")])
  }

  /** `_generate_openai_compat` over the response lines. */
  function ReadStream(ext: Externals, lines: seq<string>): (r: Result<ProviderResponse>)
    ensures ReadLines(ext, Initial, lines).Success? ==> r == Success(Finish(ext, ReadLines(ext, Initial, lines).value))
    ensures r.Failure? <==> ReadLines(ext, Initial, lines).Failure?
  {
    var st :- ReadLines(ext, Initial, lines);
    Success(Finish(ext, st))
  }

  // ---------------------------------------------------------------------------------------
  // Line-handling properties
  // ---------------------------------------------------------------------------------------

  /** A line that is not a `data:` line changes nothing, wherever it appears. */
  lemma {:induction false} NonDataLineIgnored(ext: Externals, st: StreamState, before: seq<string>, line: string, after: seq<string>)
    requires !StartsWith(line, "data:")
    ensures ReadLines(ext, st, before + [line] + after) == ReadLines(ext, st, before + after)
    decreases |before|
  {
    if |before| == 0 {
      assert before + [line] + after == [line] + after;
      assert ([line] + after)[1..] == after;
      assert before + after == after;
    } else {
      var l := before + [line] + after;
      var m := before + after;
      assert l[0] == m[0] == before[0];
      assert l[1..] == before[1..] + [line] + after;
      assert m[1..] == before[1..] + after;
      match DataPayload(before[0])
      case None =>
        NonDataLineIgnored(ext, st, before[1..], line, after);
      case Some(data) =>
        if data != DoneMarker && ext.loads(data).Some? && ApplyChunk(st, ext.loads(data).value).Success? {
          NonDataLineIgnored(ext, ApplyChunk(st, ext.loads(data).value).value, before[1..], line, after);
        }
    }
  }

  /** Nothing after a `[DONE]` line is read. */
  lemma {:induction false} DoneEndsStream(ext: Externals, st: StreamState, before: seq<string>, done: string, after: seq<string>)
    requires DataPayload(done) == Some(DoneMarker)
    ensures ReadLines(ext, st, before + [done] + after) == ReadLines(ext, st, before + [done])
    decreases |before|
  {
    if |before| == 0 {
      assert before + [done] + after == [done] + after;
      assert before + [done] == [done];
    } else {
      var l := before + [done] + after;
      var m := before + [done];
      assert l[0] == m[0] == before[0];
      assert l[1..] == before[1..] + [done] + after;
      assert m[1..] == before[1..] + [done];
      match DataPayload(before[0])
      case None =>
        DoneEndsStream(ext, st, before[1..], done, after);
      case Some(data) =>
        if data != DoneMarker && ext.loads(data).Some? && ApplyChunk(st, ext.loads(data).value).Success? {
          DoneEndsStream(ext, ApplyChunk(st, ext.loads(data).value).value, before[1..], done, after);
        }
    }
  }

  /** A stream with no usable lines yields empty text, no tool calls and the one-token
      estimate. */
  lemma EmptyStream(ext: Externals)
    ensures ReadStream(ext, []) == Success(ProviderResponse("", [], [], EstimatedUsage(""),
                                                           map["chunks" := JArr([]), "provider" := JStr("openai_compat")]))
    ensures EstimatedUsage("")[CompletionTokensKey] == JInt(1)
  {
    assert Words("") == [];
  }

  /** Two deltas for one index that split the arguments in two give a single call with the
      joined arguments, the id and name of the first, as a provider streams them. */
  lemma ExampleSplitArguments(ext: Externals, a1: string, a2: string)
    requires ext.loads(a1 + a2).Some?
    requires a1 != ""
    ensures AssembleToolCalls(ext, Accumulate([Delta(NumKey(0.0), "call_a", "calculator", a1), Delta(NumKey(0.0), "", "", a2)]))
            == [ToolCall("call_a", "calculator", ext.loads(a1 + a2).value)]
  {
    var ds := [Delta(NumKey(0.0), "call_a", "calculator", a1), Delta(NumKey(0.0), "", "", a2)];
    assert ds[..1] == [Delta(NumKey(0.0), "call_a", "calculator", a1)];
    assert [Delta(NumKey(0.0), "call_a", "calculator", a1)][..0] == [];
    assert "" + a1 == a1;
    var fs := Accumulate(ds);
    assert Accumulate(ds[..1]) == [(NumKey(0.0), Fragment("call_a", "calculator", a1))];
    assert fs == [(NumKey(0.0), Fragment("call_a", "calculator", a1 + a2))];
    assert Named(fs) == [Fragment("call_a", "calculator", a1 + a2)];
  }
}
