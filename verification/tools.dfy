/** The built-in tools and the text-command fallback (proxy/app/runs/tools.py). The
    `calculator` evaluator, JSON decoding and `str()` of decoded values come from `Externals`. */
module Tools {
  import opened Wrappers
  import opened Json
  import opened Externals
  import opened Text

  // ---------------------------------------------------------------------------------------
  // extract_code_blocks
  // ---------------------------------------------------------------------------------------

  /** A character of the optional language tag `[a-zA-Z0-9_+-]`. */
  predicate IsTagChar(c: char) {
    ('a' <= c <= 'z') || ('A' <= c <= 'Z') || ('0' <= c <= '9') || c == '_' || c == '+' || c == '-'
  }

  /** Three backticks at the start of `s`. */
  predicate FenceAtStart(s: string) {
    |s| >= 3 && s[0] == '`' && s[1] == '`' && s[2] == '`'
  }

  /** Length of the longest prefix of tag characters. */
  function TagRun(s: string): (n: nat)
    ensures n <= |s|
    ensures forall k {:trigger IsTagChar(s[k])} :: 0 <= k < n ==> IsTagChar(s[k])
    ensures n < |s| ==> !IsTagChar(s[n])
  {
    if |s| == 0 || !IsTagChar(s[0]) then 0 else 1 + TagRun(s[1..])
  }

  /** Position of the first fence in `s`: where the lazy `(.*?)` stops. */
  function FindFence(s: string): (r: Option<nat>)
    ensures r.Some? ==> r.value + 3 <= |s| && FenceAtStart(s[r.value..])
    ensures r.Some? ==> forall k {:trigger FenceAtStart(s[k..])} :: 0 <= k < r.value ==> !FenceAtStart(s[k..])
    ensures r.None? ==> forall k {:trigger FenceAtStart(s[k..])} :: 0 <= k <= |s| ==> !FenceAtStart(s[k..])
  {
    if |s| < 3 then
      assert forall k :: 0 <= k <= |s| ==> |s[k..]| < 3;
      None
    else if FenceAtStart(s) then Some(0)
    else
      match FindFence(s[1..])
      case None =>
        assert forall k :: 1 <= k <= |s| ==> s[k..] == s[1..][k - 1..];
        None
      case Some(i) =>
        assert forall k :: 1 <= k <= i + 1 ==> s[k..] == s[1..][k - 1..];
        Some(i + 1)
  }

  /** Where a block's body starts when `s` opens with a fence and an optional tag ended
      by a newline. The tag is greedy and cannot contain a newline, so the newline must
      follow the longest tag run. */
  function BodyStart(s: string): (b: Option<nat>)
    ensures b.Some? ==> FenceAtStart(s) && 4 <= b.value <= |s|
  {
    if !FenceAtStart(s) then None
    else
      var t := 3 + TagRun(s[3..]);
      if t < |s| && s[t] == '\n' then Some(t + 1) else None
  }

  /** A match of ```` ```(?:[a-zA-Z0-9_+-]+)?\n(.*?)``` ```` anchored at the start of `s`:
      the body's start and end offsets. */
  function MatchAtStart(s: string): (r: Option<(nat, nat)>)
    ensures r.Some? ==> FenceAtStart(s) && r.value.0 <= r.value.1 && r.value.1 + 3 <= |s|
    ensures r.Some? ==> FenceAtStart(s[r.value.1..])
  {
    match BodyStart(s)
    case None => None
    case Some(b) =>
      match FindFence(s[b..])
      case None => None
      case Some(j) =>
        assert s[b..][j..] == s[b + j..];
        Some((b, b + j))
  }

  /** `pattern.findall(text)`: try a match at each position, left to right; after a match
      the scan resumes behind its closing fence. */
  function FindAll(s: string): (r: seq<string>)
    decreases |s|
  {
    if |s| == 0 then []
    else
      match MatchAtStart(s)
      case None => FindAll(s[1..])
      case Some((b, e)) => [s[b..e]] + FindAll(s[e + 3..])
  }

  /** `extract_code_blocks`: the stripped bodies of the fenced blocks, in order. */
  function ExtractCodeBlocks(text: string): (r: seq<string>)
    ensures |r| == |FindAll(text)|
    ensures forall i :: 0 <= i < |r| ==> r[i] == Strip(FindAll(text)[i])
  {
    StripEach(FindAll(text))
  }

  function StripEach(ss: seq<string>): (r: seq<string>)
    ensures |r| == |ss|
    ensures forall i :: 0 <= i < |r| ==> r[i] == Strip(ss[i])
  {
    if |ss| == 0 then [] else [Strip(ss[0])] + StripEach(ss[1..])
  }

  /** One fenced block as a model would write it. */
  function Fenced(tag: string, body: string): string {
    "```" + tag + "\n" + body + "```"
  }

  /** Text between blocks, one fenced block, in a document. */
  datatype Segment = Segment(gap: string, tag: string, body: string)

  predicate SegmentOk(g: Segment) {
    '`' !in g.gap && '`' !in g.body && forall k :: 0 <= k < |g.tag| ==> IsTagChar(g.tag[k])
  }

  /** A document: each segment's gap followed by its block, then a closing text. */
  function Document(segs: seq<Segment>, tail: string): string
    decreases |segs|
  {
    if |segs| == 0 then tail else segs[0].gap + Fenced(segs[0].tag, segs[0].body) + Document(segs[1..], tail)
  }

  function Bodies(segs: seq<Segment>): (r: seq<string>)
    ensures |r| == |segs|
    ensures forall i :: 0 <= i < |r| ==> r[i] == segs[i].body
  {
    if |segs| == 0 then [] else [segs[0].body] + Bodies(segs[1..])
  }

  /** No match starts at a character other than a backtick. */
  lemma FindAllSkipsChar(s: string)
    requires |s| > 0 && s[0] != '`'
    ensures FindAll(s) == FindAll(s[1..])
  {
    assert MatchAtStart(s).None?;
  }

  /** Text without a backtick holds no match. */
  lemma {:induction false} FindAllSkipsGap(gap: string, rest: string)
    requires '`' !in gap
    ensures FindAll(gap + rest) == FindAll(rest)
    decreases |gap|
  {
    if |gap| > 0 {
      var s := gap + rest;
      var g1 := gap[1..];
      assert gap == [gap[0]] + g1;
      assert s[1..] == g1 + rest;
      FindAllSkipsChar(s);
      FindAllSkipsGap(g1, rest);
    } else {
      assert gap + rest == rest;
    }
  }

  lemma {:induction false} TagRunOfTag(tag: string, rest: string)
    requires forall k :: 0 <= k < |tag| ==> IsTagChar(tag[k])
    ensures TagRun(tag + "\n" + rest) == |tag|
    decreases |tag|
  {
    if |tag| == 0 {
      assert (tag + "\n" + rest)[0] == '\n';
    } else {
      assert (tag + "\n" + rest)[1..] == tag[1..] + "\n" + rest;
      TagRunOfTag(tag[1..], rest);
    }
  }

  lemma {:induction false} FindFenceAfterBody(body: string, rest: string)
    requires '`' !in body
    ensures FindFence(body + "```" + rest) == Some(|body|)
    decreases |body|
  {
    var s := body + "```" + rest;
    if |body| == 0 {
      assert FenceAtStart(s);
    } else {
      assert s[0] == body[0];
      assert s[1..] == body[1..] + "```" + rest;
      FindFenceAfterBody(body[1..], rest);
    }
  }

  lemma MatchBlock(tag: string, body: string, rest: string)
    requires forall k :: 0 <= k < |tag| ==> IsTagChar(tag[k])
    requires '`' !in body
    ensures MatchAtStart(Fenced(tag, body) + rest) == Some((4 + |tag|, 4 + |tag| + |body|))
  {
    FencedFacts(tag, body, rest);
    MatchAtStartAt(Fenced(tag, body) + rest, 3 + |tag|, |body|);
  }

  /** What the matcher sees in a block: the fence, the tag run up to the newline, and the
      closing fence right behind the body. */
  lemma FencedFacts(tag: string, body: string, rest: string)
    requires forall k :: 0 <= k < |tag| ==> IsTagChar(tag[k])
    requires '`' !in body
    ensures var s := Fenced(tag, body) + rest;
            FenceAtStart(s) && 3 + |tag| < |s| && s[3 + |tag|] == '\n' && TagRun(s[3..]) == |tag| &&
            FindFence(s[4 + |tag|..]) == Some(|body|)
  {
    var s := Fenced(tag, body) + rest;
    var after := body + "```" + rest;
    assert FenceAtStart(s) && s[3..] == tag + "\n" + after && s[3 + |tag|] == '\n' && s[4 + |tag|..] == after by {
      assert s == "```" + (tag + "\n" + after);
      FencedShape(tag, after, s);
    }
    assert TagRun(s[3..]) == |tag| by {
      TagRunOfTag(tag, after);
    }
    assert FindFence(s[4 + |tag|..]) == Some(|body|) by {
      FindFenceAfterBody(body, rest);
    }
  }

  /** The match at the start when the tag run ends at `t` with a newline and the closing
      fence is `j` characters behind it. */
  lemma MatchAtStartAt(s: string, t: nat, j: nat)
    requires FenceAtStart(s) && t == 3 + TagRun(s[3..]) && t < |s| && s[t] == '\n'
    requires FindFence(s[t + 1..]) == Some(j)
    ensures MatchAtStart(s) == Some((t + 1, t + 1 + j))
  {
    assert BodyStart(s) == Some(t + 1);
  }

  lemma FencedShape(tag: string, after: string, s: string)
    requires s == "```" + (tag + "\n" + after)
    ensures FenceAtStart(s)
    ensures s[3..] == tag + "\n" + after
    ensures s[3 + |tag|] == '\n'
    ensures s[4 + |tag|..] == after
  {
  }

  lemma BlockSlices(tag: string, body: string, rest: string)
    ensures (Fenced(tag, body) + rest)[4 + |tag|..4 + |tag| + |body|] == body
    ensures (Fenced(tag, body) + rest)[4 + |tag| + |body| + 3..] == rest
  {
    var s := Fenced(tag, body) + rest;
    assert s == ("```" + tag + "\n") + body + ("```" + rest);
  }

  /** A block at the start of the text is matched whole, and the scan resumes behind it. */
  lemma FindAllBlock(tag: string, body: string, rest: string)
    requires forall k :: 0 <= k < |tag| ==> IsTagChar(tag[k])
    requires '`' !in body
    ensures FindAll(Fenced(tag, body) + rest) == [body] + FindAll(rest)
  {
    MatchBlock(tag, body, rest);
    BlockSlices(tag, body, rest);
  }

  /** Extraction inverts writing blocks: the bodies of backtick-free blocks come back, in
      order, stripped. */
  lemma {:induction false} ExtractDocument(segs: seq<Segment>, tail: string)
    requires forall i :: 0 <= i < |segs| ==> SegmentOk(segs[i])
    requires '`' !in tail
    ensures FindAll(Document(segs, tail)) == Bodies(segs)
    ensures ExtractCodeBlocks(Document(segs, tail)) == StripEach(Bodies(segs))
    decreases |segs|
  {
    if |segs| == 0 {
      FindAllSkipsGap(tail, "");
      assert tail + "" == tail;
    } else {
      var g := segs[0];
      var rest := Document(segs[1..], tail);
      assert SegmentOk(g);
      assert Document(segs, tail) == g.gap + (Fenced(g.tag, g.body) + rest);
      FindAllSkipsGap(g.gap, Fenced(g.tag, g.body) + rest);
      FindAllBlock(g.tag, g.body, rest);
      ExtractDocument(segs[1..], tail);
    }
  }

  // ---------------------------------------------------------------------------------------
  // execute_tool
  // ---------------------------------------------------------------------------------------

  const CalculatorTool := "calculator"
  const JsonValidateTool := "json_validate"
  const ExtractCodeBlocksTool := "extract_code_blocks"

  /** A string argument: `str(args.get(key, ""))`. */
  function StrArg(ext: Externals, args: map<string, Json>, key: string): (r: string)
    ensures key !in args ==> r == ""
    ensures key in args && args[key].JStr? ==> r == args[key].s
  {
    PyStr(ext, Get(args, key, JStr("")))
  }

  /** `json_validate`. */
  function JsonValidate(ext: Externals, text: string): (r: map<string, Json>)
    ensures "valid" in r
    ensures r["valid"] == JBool(ext.loads(text).Some?)
    ensures ext.loads(text).Some? ==> r.Keys == {"valid"}
    ensures ext.loads(text).None? ==> r.Keys == {"valid", "error"} && r["error"] == JStr(ext.loadsError(text))
  {
    if ext.loads(text).Some? then map["valid" := JBool(true)]
    else map["valid" := JBool(false), "error" := JStr(ext.loadsError(text))]
  }

  /** `execute_tool`: dispatch on the exact tool name; a `Failure` is a `ToolExecutionError`. */
  function ExecuteTool(ext: Externals, name: string, args: map<string, Json>): (r: Result<map<string, Json>>)
    ensures r.Failure? <==>
              (name == CalculatorTool && ext.calculator(StrArg(ext, args, "expression")).Failure?) ||
              (name != CalculatorTool && name != JsonValidateTool && name != ExtractCodeBlocksTool)
    ensures name == CalculatorTool && r.Success? ==>
              r.value == map["result" := JReal(ext.calculator(StrArg(ext, args, "expression")).value)]
    ensures name == JsonValidateTool ==> r == Success(JsonValidate(ext, StrArg(ext, args, "json_string")))
    ensures name == ExtractCodeBlocksTool ==>
              r.Success? && r.value.Keys == {"blocks"} &&
              r.value["blocks"] == JArr(StringItems(ExtractCodeBlocks(StrArg(ext, args, "text"))))
    ensures r.Failure? && name != CalculatorTool ==> r.error == "Unknown tool: " + name
  {
    if name == CalculatorTool then
      match ext.calculator(StrArg(ext, args, "expression"))
      case Failure(e) => Failure(e)
      case Success(v) => Success(map["result" := JReal(v)])
    else if name == JsonValidateTool then
      Success(JsonValidate(ext, StrArg(ext, args, "json_string")))
    else if name == ExtractCodeBlocksTool then
      Success(map["blocks" := JArr(StringItems(ExtractCodeBlocks(StrArg(ext, args, "text"))))])
    else
      Failure("Unknown tool: " + name)
  }

  /** A list of strings as a JSON array. */
  function StringItems(ss: seq<string>): (r: seq<Json>)
    ensures |r| == |ss|
    ensures forall i :: 0 <= i < |r| ==> r[i] == JStr(ss[i])
  {
    if |ss| == 0 then [] else [JStr(ss[0])] + StringItems(ss[1..])
  }

  // ---------------------------------------------------------------------------------------
  // parse_fallback_tool_command
  // ---------------------------------------------------------------------------------------

  /** A tool command a model wrote as JSON text instead of a native tool call. */
  datatype FallbackCommand = FallbackCommand(name: string, arguments: map<string, Json>)

  /** The command a decoded object denotes: `tool` must be a string and `args` (default
      `{}`) an object. */
  function CommandOf(fields: map<string, Json>): (r: Option<FallbackCommand>)
    ensures r.Some? <==> "tool" in fields && fields["tool"].JStr? && Get(fields, "args", JObj(map[])).JObj?
    ensures r.Some? ==> r.value.name == fields["tool"].s
    ensures r.Some? && "args" in fields ==> r.value.arguments == fields["args"].fields
    ensures r.Some? && "args" !in fields ==> r.value.arguments == map[]
  {
    var tool := Get(fields, "tool", JNull);
    var args := Get(fields, "args", JObj(map[]));
    if tool.JStr? && args.JObj? then Some(FallbackCommand(tool.s, args.fields)) else None
  }

  /** The decoded object of a candidate text, if it decodes to an object. */
  function DecodeObject(ext: Externals, text: string): (r: Option<map<string, Json>>)
    ensures r.Some? <==> ext.loads(text).Some? && ext.loads(text).value.JObj?
    ensures r.Some? ==> r.value == ext.loads(text).value.fields
  {
    match ext.loads(text)
    case Some(JObj(f)) => Some(f)
    case _ => None
  }

  /** `parse_fallback_tool_command`. The whole stripped text is tried first when it is
      brace-delimited; only when that does not give an object is the first-`{`-to-last-`}`
      span of the original text tried. */
  function ParseFallback(ext: Externals, text: string): (r: Option<FallbackCommand>)
    // the whole text wins when it decodes to an object
    ensures Braced(Strip(text)) && DecodeObject(ext, Strip(text)).Some?
            ==> r == CommandOf(DecodeObject(ext, Strip(text)).value)
    // otherwise the brace span is used
    ensures !(Braced(Strip(text)) && DecodeObject(ext, Strip(text)).Some?) && BraceSpan(text).Some?
            ==> r == match DecodeObject(ext, BraceSpan(text).value)
                     case None => None
                     case Some(f) => CommandOf(f)
    // with no `{...}` span there is no command
    ensures BraceSpan(text).None? ==> r.None?
  {
    var stripped := Strip(text);
    BracedHasSpan(text);
    var whole := if Braced(stripped) then DecodeObject(ext, stripped) else None;
    var payload :=
      if whole.Some? then whole
      else
        match BraceSpan(text)
        case None => None
        case Some(span) => DecodeObject(ext, span);
    match payload
    case None => None
    case Some(f) => CommandOf(f)
  }

  /** A brace-free text never yields a command. */
  lemma NoBracesNoCommand(ext: Externals, text: string)
    requires '{' !in text
    ensures ParseFallback(ext, text).None?
  {
  }

  /** The repository's fallback example: a bare JSON command whose `tool` is `calculator`
      and whose `args` is `{"expression": "3*3"}`. */
  lemma ExampleCalculatorCommand(ext: Externals, text: string, args: map<string, Json>)
    requires Braced(Strip(text))
    requires ext.loads(Strip(text)) == Some(JObj(map["tool" := JStr("calculator"), "args" := JObj(args)]))
    requires args == map["expression" := JStr("3*3")]
    ensures ParseFallback(ext, text) == Some(FallbackCommand("calculator", args))
  {
  }
}
