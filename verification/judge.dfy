/** The LLM judge's prompt and reply parsing (proxy/app/runs/judge.py). JSON decoding
    comes from `Externals`. */
module Judge {
  import opened Wrappers
  import opened Json
  import opened Externals
  import opened Text
  import opened Domain

  /** A validated judge reply: four scores in [0, 10] and a rationale. */
  datatype JudgePayload = JudgePayload(writing: real, coding: real, tool: real, overall: real, rationale: string)

  predicate InScoreRange(x: real) {
    0.0 <= x <= 10.0
  }

  predicate ScoresInRange(p: JudgePayload) {
    InScoreRange(p.writing) && InScoreRange(p.coding) && InScoreRange(p.tool) && InScoreRange(p.overall)
  }

  // ---------------------------------------------------------------------------------------
  // build_judge_messages
  // ---------------------------------------------------------------------------------------

  const JudgeRubric :=
    "You are an LLM judge. Score output quality in strict JSON only. Scores are 0-10. Be deterministic and concise."
  const JudgeKeysLine := "Return JSON with keys: writing_score, coding_score, tool_score, overall, rationale."
  const TestNameLabel := "Test Name: "
  const PromptLabel := "\nPrompt: "
  const OutputLabel := "\nModel Output:\n"
  const KeysSeparator := "\n\n"

  /** The user message: test name, prompt and model output in that order, then the list
      of keys to return. */
  function JudgeUserContent(testName: string, prompt: string, outputText: string): (c: string)
    ensures StartsWith(c, TestNameLabel + testName + PromptLabel + prompt + OutputLabel)
    ensures EndsWith(c, outputText + KeysSeparator + JudgeKeysLine)
  {
    var head := TestNameLabel + testName + PromptLabel + prompt + OutputLabel;
    var tail := outputText + KeysSeparator + JudgeKeysLine;
    assert (head + tail)[..|head|] == head;
    assert (head + tail)[|head + tail| - |tail|..] == tail;
    head + tail
  }

  /** `build_judge_messages`: the system rubric, then the user message. */
  function BuildJudgeMessages(testName: string, prompt: string, outputText: string): (ms: seq<Message>)
    ensures |ms| == 2
    ensures ms[0] == PlainMessage("system", JudgeRubric)
    ensures ms[1] == PlainMessage("user", JudgeUserContent(testName, prompt, outputText))
  {
    [PlainMessage("system", JudgeRubric), PlainMessage("user", JudgeUserContent(testName, prompt, outputText))]
  }

  /** With the test fixed, the judge sees the output text exactly: different outputs give
      different user messages. */
  lemma JudgeMessagesDetermineOutput(testName: string, prompt: string, o1: string, o2: string)
    requires BuildJudgeMessages(testName, prompt, o1) == BuildJudgeMessages(testName, prompt, o2)
    ensures o1 == o2
  {
    var head := TestNameLabel + testName + PromptLabel + prompt + OutputLabel;
    var c1 := JudgeUserContent(testName, prompt, o1);
    var c2 := JudgeUserContent(testName, prompt, o2);
    assert c1 == c2;
    var k := |KeysSeparator + JudgeKeysLine|;
    assert |o1| == |c1| - |head| - k;
    assert o1 == c1[|head|..|c1| - k];
    assert o2 == c2[|head|..|c2| - k];
  }

  // ---------------------------------------------------------------------------------------
  // parse_judge_json
  // ---------------------------------------------------------------------------------------

  /** The number a `float` field reads in pydantic's lax mode: an int or float as it is, a
      bool as 0 or 1, and a numeric string as the number it spells. */
  function Score(ext: Externals, j: Json): (r: Option<real>)
    ensures j.JInt? ==> r == Some(j.i as real)
    ensures j.JReal? ==> r == Some(j.r)
    ensures j.JBool? ==> r == Some(if j.b then 1.0 else 0.0)
    ensures j.JStr? ==> r == ext.parseFloat(j.s)
    ensures j.JNull? || j.JArr? || j.JObj? ==> r.None?
  {
    match j
    case JInt(i) => Some(i as real)
    case JReal(x) => Some(x)
    case JBool(b) => Some(if b then 1.0 else 0.0)
    case JStr(s) => ext.parseFloat(s)
    case _ => None
  }

  /** One bounded score field of the payload. */
  function ScoreField(ext: Externals, fields: map<string, Json>, key: string): (r: Result<real>)
    ensures r.Success? <==> key in fields && Score(ext, fields[key]).Some? && InScoreRange(Score(ext, fields[key]).value)
    ensures r.Success? ==> r.value == Score(ext, fields[key]).value
  {
    if key !in fields then Failure("validation error: " + key + " missing")
    else
      match Score(ext, fields[key])
      case None => Failure("validation error: " + key + " is not a number")
      case Some(x) =>
        if InScoreRange(x) then Success(x) else Failure("validation error: " + key + " out of range")
  }

  /** `JudgePayload.model_validate`: an object with four scores in [0, 10] and a string
      rationale; other keys are ignored. */
  function Validate(ext: Externals, j: Json): (r: Result<JudgePayload>)
    ensures r.Success? ==> ScoresInRange(r.value)
    ensures r.Success? <==>
              j.JObj? &&
              ScoreField(ext, j.fields, "writing_score").Success? && ScoreField(ext, j.fields, "coding_score").Success? &&
              ScoreField(ext, j.fields, "tool_score").Success? && ScoreField(ext, j.fields, "overall").Success? &&
              "rationale" in j.fields && j.fields["rationale"].JStr?
    ensures r.Success? ==>
              r.value.overall == Score(ext, j.fields["overall"]).value && r.value.rationale == j.fields["rationale"].s
  {
    if !j.JObj? then Failure("validation error: payload is not an object")
    else
      var f := j.fields;
      var w :- ScoreField(ext, f, "writing_score");
      var c :- ScoreField(ext, f, "coding_score");
      var t :- ScoreField(ext, f, "tool_score");
      var o :- ScoreField(ext, f, "overall");
      if "rationale" in f && f["rationale"].JStr? then Success(JudgePayload(w, c, t, o, f["rationale"].s))
      else Failure("validation error: rationale")
  }

  /** Decode and validate one candidate text. */
  function DecodeAndValidate(ext: Externals, text: string): (r: Result<JudgePayload>)
    ensures ext.loads(text).None? ==> r == Failure(ext.loadsError(text))
    ensures ext.loads(text).Some? ==> r == Validate(ext, ext.loads(text).value)
  {
    match ext.loads(text)
    case None => Failure(ext.loadsError(text))
    case Some(j) => Validate(ext, j)
  }

  const NoJsonError := "validation error: no JSON object in judge reply"

  /** `parse_judge_json`. A brace-delimited stripped reply is decoded as a whole, with no
      second chance on the span; any other reply is cut to its first-`{`-to-last-`}` span. */
  function ParseJudgeJson(ext: Externals, rawText: string): (r: Result<JudgePayload>)
    ensures r.Success? ==> ScoresInRange(r.value)
    ensures Braced(Strip(rawText)) ==> r == DecodeAndValidate(ext, Strip(rawText))
    ensures !Braced(Strip(rawText)) && BraceSpan(rawText).Some?
            ==> r == DecodeAndValidate(ext, BraceSpan(rawText).value)
    ensures BraceSpan(rawText).None? ==> r == Failure(NoJsonError)
  {
    var stripped := Strip(rawText);
    BracedHasSpan(rawText);
    if Braced(stripped) then DecodeAndValidate(ext, stripped)
    else
      match BraceSpan(rawText)
      case None => Failure(NoJsonError)
      case Some(span) => DecodeAndValidate(ext, span)
  }

  /** A validated payload as `model_dump` returns it. */
  function PayloadJson(p: JudgePayload): Json {
    JObj(map["writing_score" := JReal(p.writing), "coding_score" := JReal(p.coding), "tool_score" := JReal(p.tool),
             "overall" := JReal(p.overall), "rationale" := JStr(p.rationale)])
  }

  /** Validation accepts a dumped payload and returns it unchanged. */
  lemma ValidateDump(ext: Externals, p: JudgePayload)
    requires ScoresInRange(p)
    ensures Validate(ext, PayloadJson(p)) == Success(p)
  {
    var f := PayloadJson(p).fields;
    assert ScoreField(ext, f, "writing_score") == Success(p.writing);
    assert ScoreField(ext, f, "coding_score") == Success(p.coding);
    assert ScoreField(ext, f, "tool_score") == Success(p.tool);
    assert ScoreField(ext, f, "overall") == Success(p.overall);
  }

  /** The shortcut for a brace-delimited reply never changes the outcome: every reply is
      judged by its first-`{`-to-last-`}` span. */
  lemma ParseJudgeJsonBySpan(ext: Externals, rawText: string)
    ensures BraceSpan(rawText).None? ==> ParseJudgeJson(ext, rawText) == Failure(NoJsonError)
    ensures BraceSpan(rawText).Some? ==> ParseJudgeJson(ext, rawText) == DecodeAndValidate(ext, BraceSpan(rawText).value)
  {
    BracedStripIsSpan(rawText);
  }

  /** A JSON object wrapped in prose without braces (a markdown fence, a preamble) is read
      as that object; when it decodes to a dumped payload, the reply parses to that
      payload. */
  lemma WrappedReplyParses(ext: Externals, pre: string, obj: string, post: string, p: JudgePayload)
    requires Braced(obj) && '{' !in pre && '}' !in pre && '{' !in post && '}' !in post
    ensures ParseJudgeJson(ext, pre + obj + post) == DecodeAndValidate(ext, obj)
    ensures ScoresInRange(p) && ext.loads(obj) == Some(PayloadJson(p)) ==> ParseJudgeJson(ext, pre + obj + post) == Success(p)
  {
    WrappedSpan(pre, obj, post);
    ParseJudgeJsonBySpan(ext, pre + obj + post);
    if ScoresInRange(p) {
      ValidateDump(ext, p);
    }
  }

  /** The repository's judge example: a bare JSON reply with overall 8 and rationale
      "Solid". */
  lemma ExampleSolid(ext: Externals, raw: string, fields: map<string, Json>)
    requires Braced(Strip(raw))
    requires fields == map["writing_score" := JInt(8), "coding_score" := JInt(7), "tool_score" := JInt(9),
                           "overall" := JInt(8), "rationale" := JStr("Solid")]
    requires ext.loads(Strip(raw)) == Some(JObj(fields))
    ensures ParseJudgeJson(ext, raw).Success?
    ensures ParseJudgeJson(ext, raw).value.overall == 8.0
    ensures ParseJudgeJson(ext, raw).value.rationale == "Solid"
  {
    assert ScoreField(ext, fields, "writing_score") == Success(8.0);
    assert ScoreField(ext, fields, "coding_score") == Success(7.0);
    assert ScoreField(ext, fields, "tool_score") == Success(9.0);
    assert ScoreField(ext, fields, "overall") == Success(8.0);
  }

  /** A score sent as the string "8" is read as 8.0 in lax mode, and a bool as 0 or 1. */
  lemma ExampleLaxScores(ext: Externals, fields: map<string, Json>)
    requires ext.parseFloat("8") == Some(8.0)
    requires fields == map["writing_score" := JStr("8"), "coding_score" := JInt(7), "tool_score" := JBool(true),
                           "overall" := JInt(7), "rationale" := JStr("ok")]
    ensures Validate(ext, JObj(fields)) == Success(JudgePayload(8.0, 7.0, 1.0, 7.0, "ok"))
  {
    assert ScoreField(ext, fields, "writing_score") == Success(8.0);
    assert ScoreField(ext, fields, "coding_score") == Success(7.0);
    assert ScoreField(ext, fields, "tool_score") == Success(1.0);
    assert ScoreField(ext, fields, "overall") == Success(7.0);
  }
}
