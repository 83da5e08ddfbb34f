/** The deterministic assertion mini-language applied to a run item's final text
    (proxy/app/runs/assertions.py). A constraint string holds directives `name:value`
    separated by newlines or `;`; each directive is checked against the output text and
    the result is a passed/total count with per-directive detail. */
module Assertions {
  import opened Wrappers
  import opened Text
  import opened Externals

  /** A parsed directive: trimmed, lower-cased name and trimmed value. */
  datatype Directive = Directive(name: string, value: string)

  /** The outcome of one directive. */
  datatype CheckResult = CheckResult(kind: string, expected: string, passed: bool, detail: string)

  /** The evaluator's answer: `total` directives, `passed` of them passed. */
  datatype Summary = Summary(total: nat, passed: nat, results: seq<CheckResult>)

  // ---------------------------------------------------------------------------
  // Parsing

  /** Strips each piece and drops the blank ones. */
  function CleanPieces(ps: seq<string>): (cs: seq<string>)
    ensures |cs| <= |ps|
    ensures forall i :: 0 <= i < |cs| ==> |cs[i]| > 0
  {
    if |ps| == 0 then []
    else
      var c := Strip(ps[0]);
      (if |c| == 0 then [] else [c]) + CleanPieces(ps[1..])
  }

  /** One chunk split at its first `:`; `None` when it has no `:`. */
  function ParseChunk(chunk: string): (r: Option<Directive>)
    ensures r.None? <==> ':' !in chunk
    ensures r.Some? ==> DirectiveShape(r.value)
  {
    match SplitFirst(chunk, ':')
    case None => None
    case Some((n, v)) =>
      StripIdempotent(v);
      LowerKeepsTrimmed(Strip(n));
      StripKeepsOut(n, ':');
      LowerKeepsOut(Strip(n), ':');
      Some(Directive(Lower(Strip(n)), Strip(v)))
  }

  function ParseChunks(cs: seq<string>): (ds: seq<Directive>)
    ensures |ds| <= |cs|
  {
    if |cs| == 0 then []
    else
      match ParseChunk(cs[0])
      case None => ParseChunks(cs[1..])
      case Some(d) => [d] + ParseChunks(cs[1..])
  }

  /** `_parse_constraints`: a missing or empty constraint string has no directives;
      otherwise the string is cut at runs of newlines and `;`, pieces are stripped, blank
      pieces and pieces without `:` are dropped, and the rest are split at their first `:`. */
  function ParseConstraints(raw: Option<string>): (ds: seq<Directive>)
    ensures raw.None? || raw == Some("") ==> ds == []
    ensures forall i :: 0 <= i < |ds| ==> DirectiveShape(ds[i])
  {
    if raw.None? || raw.value == "" then []
    else
      var ds := ParseChunks(CleanPieces(Tokens(raw.value, ConstraintSeparator)));
      ParsedShape(CleanPieces(Tokens(raw.value, ConstraintSeparator)));
      ds
  }

  /** What every parsed directive looks like: the name is trimmed, lower-case and free of
      `:`; the value is trimmed (it may itself contain `:`). */
  predicate DirectiveShape(d: Directive) {
    && Strip(d.name) == d.name
    && IsLower(d.name)
    && ':' !in d.name
    && Strip(d.value) == d.value
  }

  lemma LowerKeepsTrimmed(s: string)
    requires Strip(s) == s
    ensures Strip(Lower(s)) == Lower(s)
  {
    var l := Lower(s);
    assert |s| == 0 || (!IsSpace(s[0]) && !IsSpace(s[|s| - 1]));
    StripTrimmed(l);
  }

  lemma {:induction false} ParsedShape(cs: seq<string>)
    ensures forall i :: 0 <= i < |ParseChunks(cs)| ==> DirectiveShape(ParseChunks(cs)[i])
  {
    if |cs| > 0 {
      ParsedShape(cs[1..]);
    }
  }

  // ---------------------------------------------------------------------------
  // Rendering, the inverse of parsing for well-formed directives

  /** A directive that survives a render/parse round trip unchanged: a non-empty,
      lower-case name without `:`, and neither part holding a separator or surrounding
      whitespace. */
  predicate WellFormed(d: Directive) {
    && |d.name| > 0
    && ':' !in d.name
    && IsLower(d.name)
    && !IsSpace(d.name[0]) && !IsSpace(d.name[|d.name| - 1])
    && NoDelim(d.name, ConstraintSeparator)
    && NoDelim(d.value, ConstraintSeparator)
    && (|d.value| == 0 || (!IsSpace(d.value[0]) && !IsSpace(d.value[|d.value| - 1])))
  }

  function RenderChunk(d: Directive): string {
    d.name + ":" + d.value
  }

  function RenderChunks(ds: seq<Directive>): (cs: seq<string>)
    ensures |cs| == |ds|
    ensures forall i :: 0 <= i < |ds| ==> cs[i] == RenderChunk(ds[i])
  {
    if |ds| == 0 then [] else [RenderChunk(ds[0])] + RenderChunks(ds[1..])
  }

  /** The directives written one after another with `;` between them. */
  function Render(ds: seq<Directive>): string {
    Join(RenderChunks(ds), ';')
  }

  /** A chunk is split at its first `:`; the value may contain further colons. */
  lemma ParseChunkSplit(n: string, v: string)
    requires ':' !in n
    ensures ParseChunk(n + ":" + v) == Some(Directive(Lower(Strip(n)), Strip(v)))
  {
    var s := n + ":" + v;
    assert s[|n|] == ':';
    assert s[..|n|] == n;
  }

  lemma RenderChunkNoDelim(d: Directive)
    requires NoDelim(d.name, ConstraintSeparator) && NoDelim(d.value, ConstraintSeparator)
    ensures NoDelim(RenderChunk(d), ConstraintSeparator)
  {
    var s := RenderChunk(d);
    forall k | 0 <= k < |s| ensures !IsDelim(s[k], ConstraintSeparator) {
      if k < |d.name| {
        assert s[k] == d.name[k];
      } else if k > |d.name| {
        assert s[k] == d.value[k - |d.name| - 1];
      }
    }
  }

  lemma RenderChunkTrimmed(d: Directive)
    requires WellFormed(d)
    ensures Strip(RenderChunk(d)) == RenderChunk(d)
  {
    var s := RenderChunk(d);
    assert s[0] == d.name[0];
    assert |d.value| > 0 ==> s[|s| - 1] == d.value[|d.value| - 1];
    StripTrimmed(s);
  }

  lemma RenderChunkParses(d: Directive)
    requires WellFormed(d)
    ensures ParseChunk(RenderChunk(d)) == Some(d)
  {
    ParseChunkSplit(d.name, d.value);
    StripTrimmed(d.name);
    StripTrimmed(d.value);
    LowerOfLower(d.name);
  }

  lemma RenderChunkFacts(d: Directive)
    requires WellFormed(d)
    ensures |RenderChunk(d)| > 0 && NoDelim(RenderChunk(d), ConstraintSeparator)
    ensures Strip(RenderChunk(d)) == RenderChunk(d)
    ensures ParseChunk(RenderChunk(d)) == Some(d)
  {
    RenderChunkNoDelim(d);
    RenderChunkTrimmed(d);
    RenderChunkParses(d);
  }

  lemma {:induction false} CleanTrimmed(cs: seq<string>)
    requires forall i :: 0 <= i < |cs| ==> |cs[i]| > 0 && Strip(cs[i]) == cs[i]
    ensures CleanPieces(cs) == cs
  {
    if |cs| > 0 {
      CleanTrimmed(cs[1..]);
    }
  }

  lemma {:induction false} ParseRenderedChunks(ds: seq<Directive>)
    requires forall i :: 0 <= i < |ds| ==> WellFormed(ds[i])
    ensures ParseChunks(RenderChunks(ds)) == ds
  {
    if |ds| > 0 {
      RenderChunkFacts(ds[0]);
      ParseRenderedChunks(ds[1..]);
    }
  }

  /** Parsing a rendered list of well-formed directives gives the list back. */
  lemma ParseRender(ds: seq<Directive>)
    requires forall i :: 0 <= i < |ds| ==> WellFormed(ds[i])
    ensures ParseConstraints(Some(Render(ds))) == ds
  {
    var cs := RenderChunks(ds);
    forall i | 0 <= i < |cs|
      ensures |cs[i]| > 0 && NoDelim(cs[i], ConstraintSeparator) && Strip(cs[i]) == cs[i]
    {
      RenderChunkFacts(ds[i]);
    }
    TokensOfJoin(cs, ';', ConstraintSeparator);
    CleanTrimmed(cs);
    ParseRenderedChunks(ds);
  }

  // ---------------------------------------------------------------------------
  // Checking

  /** Python's `[w for w in text.split() if w.strip()]`. */
  function NonBlank(ws: seq<string>): seq<string> {
    if |ws| == 0 then []
    else (if Strip(ws[0]) != "" then [ws[0]] else []) + NonBlank(ws[1..])
  }

  /** The `w.strip()` filter after `split()` never removes anything. */
  lemma {:induction false} NonBlankWords(ws: seq<string>)
    requires forall i :: 0 <= i < |ws| ==> |ws[i]| > 0 && NoSpace(ws[i])
    ensures NonBlank(ws) == ws
  {
    if |ws| > 0 {
      StripNoSpace(ws[0]);
      NonBlankWords(ws[1..]);
    }
  }

  /** `_check_max_words`: a value that `int()` rejects fails; otherwise the directive
      passes iff the whitespace-separated word count is at most the limit. */
  function CheckMaxWords(expected: string, text: string): (r: (bool, string))
    ensures ParseInt(expected).None? ==> !r.0
    ensures ParseInt(expected).Some? ==> (r.0 <==> |Words(text)| <= ParseInt(expected).value)
  {
    ParseIntStrip(expected);
    match ParseInt(Strip(expected))
    case None => (false, "invalid max_words value: " + expected)
    case Some(limit) =>
      var words := |NonBlank(Words(text))|;
      NonBlankWords(Words(text));
      (words <= limit, "words=" + ShowInt(words) + ", limit=" + ShowInt(limit))
  }

  /** One directive against the output text. Only a `regex` directive whose pattern the
      regex engine rejects fails the whole evaluation. */
  function Check(d: Directive, text: string, ext: Externals): (r: Result<CheckResult>)
    ensures r.Failure? <==> d.name == "regex" && ext.regexSearch(d.value, text).Failure?
    ensures r.Success? ==> r.value.kind == d.name && r.value.expected == d.value
    ensures d.name !in {"contains", "icontains", "not_contains", "regex", "max_words"} ==> r.Success? && !r.value.passed
    // the verdict of each known kind
    ensures d.name == "contains" ==> r.Success? && (r.value.passed <==> Contains(text, d.value))
    ensures d.name == "icontains" ==> r.Success? && (r.value.passed <==> Contains(Lower(text), Lower(d.value)))
    ensures d.name == "not_contains" ==> r.Success? && (r.value.passed <==> !Contains(text, d.value))
    ensures d.name == "regex" && r.Success? ==> r.value.passed == ext.regexSearch(d.value, text).value
    ensures d.name == "max_words" ==>
              r.Success? && (r.value.passed <==> ParseInt(d.value).Some? && |Words(text)| <= ParseInt(d.value).value)
  {
    if d.name == "contains" then
      var ok := Contains(text, d.value);
      Success(CheckResult(d.name, d.value, ok, "contains=" + ShowBool(ok)))
    else if d.name == "icontains" then
      var ok := Contains(Lower(text), Lower(d.value));
      Success(CheckResult(d.name, d.value, ok, "icontains=" + ShowBool(ok)))
    else if d.name == "not_contains" then
      var ok := !Contains(text, d.value);
      Success(CheckResult(d.name, d.value, ok, "not_contains=" + ShowBool(ok)))
    else if d.name == "regex" then
      match ext.regexSearch(d.value, text)
      case Failure(e) => Failure(e)
      case Success(ok) => Success(CheckResult(d.name, d.value, ok, "regex_match=" + ShowBool(ok)))
    else if d.name == "max_words" then
      var (ok, detail) := CheckMaxWords(d.value, text);
      Success(CheckResult(d.name, d.value, ok, detail))
    else
      Success(CheckResult(d.name, d.value, false, "unsupported check: " + d.name))
  }

  /** All directives in order; the first rejected regex pattern aborts the evaluation. */
  function CheckAll(ds: seq<Directive>, text: string, ext: Externals): (r: Result<seq<CheckResult>>)
    ensures r.Failure? <==> exists i :: 0 <= i < |ds| && Check(ds[i], text, ext).Failure?
    ensures r.Success? ==> |r.value| == |ds|
    ensures r.Success? ==> forall i :: 0 <= i < |ds| ==> Check(ds[i], text, ext) == Success(r.value[i])
  {
    if |ds| == 0 then Success([])
    else
      match Check(ds[0], text, ext)
      case Failure(e) => Failure(e)
      case Success(c) =>
        match CheckAll(ds[1..], text, ext)
        case Failure(e) =>
          var i :| 0 <= i < |ds[1..]| && Check(ds[1..][i], text, ext).Failure?;
          assert Check(ds[i + 1], text, ext).Failure?;
          Failure(e)
        case Success(cs) =>
          assert forall i :: 1 <= i < |ds| ==> ds[i] == ds[1..][i - 1];
          Success([c] + cs)
  }

  /** The positions of the passed results. */
  function PassedPositions(rs: seq<CheckResult>): set<nat> {
    set i: nat | i < |rs| && rs[i].passed
  }

  /** Number of passed results (`sum(1 for row in results if row["passed"])`): the number
      of positions holding a passed result. */
  function CountPassed(rs: seq<CheckResult>): (n: nat)
    ensures n == |PassedPositions(rs)|
    ensures n <= |rs|
    ensures n == |rs| <==> forall i :: 0 <= i < |rs| ==> rs[i].passed
    ensures n == 0 <==> forall i :: 0 <= i < |rs| ==> !rs[i].passed
    decreases |rs|
  {
    if |rs| == 0 then 0
    else
      var init := rs[..|rs| - 1];
      var last := rs[|rs| - 1];
      var rest := CountPassed(init);
      PassedPositionsSnoc(rs);
      rest + (if last.passed then 1 else 0)
  }

  /** The last result adds its own position when it passed. */
  lemma PassedPositionsSnoc(rs: seq<CheckResult>)
    requires |rs| > 0
    ensures PassedPositions(rs) ==
            PassedPositions(rs[..|rs| - 1]) + (if rs[|rs| - 1].passed then {|rs| - 1} else {})
    ensures forall i :: 0 <= i < |rs| - 1 ==> rs[..|rs| - 1][i] == rs[i]
  {
    var init := rs[..|rs| - 1];
    assert forall i :: 0 <= i < |init| ==> init[i] == rs[i];
  }

  /** `evaluate_expected_constraints`: `total` is the number of parsed directives (unknown
      ones included, and failed) and `passed` the number that passed. A regex pattern the
      regex engine rejects makes the whole evaluation raise. */
  function Evaluate(raw: Option<string>, text: string, ext: Externals): (r: Result<Summary>)
    ensures r.Failure? <==> exists i :: 0 <= i < |ParseConstraints(raw)|
                              && ParseConstraints(raw)[i].name == "regex"
                              && ext.regexSearch(ParseConstraints(raw)[i].value, text).Failure?
    ensures r.Success? ==> r.value.total == |ParseConstraints(raw)| == |r.value.results|
    ensures r.Success? ==> r.value.passed <= r.value.total
    ensures r.Success? ==> r.value.passed == |PassedPositions(r.value.results)|
    ensures r.Success? ==> (r.value.passed == r.value.total <==> forall i :: 0 <= i < |r.value.results| ==> r.value.results[i].passed)
    ensures r.Success? ==> forall i :: 0 <= i < r.value.total ==>
                              Check(ParseConstraints(raw)[i], text, ext) == Success(r.value.results[i])
  {
    var checks := ParseConstraints(raw);
    if |checks| == 0 then Success(Summary(0, 0, []))
    else
      match CheckAll(checks, text, ext)
      case Failure(e) => Failure(e)
      case Success(results) => Success(Summary(|results|, CountPassed(results), results))
  }

  // ---------------------------------------------------------------------------
  // Properties

  /** `contains:v` and `not_contains:v` always disagree on the same text. */
  lemma ContainsOpposite(v: string, text: string, ext: Externals)
    ensures Check(Directive("contains", v), text, ext).Success?
    ensures Check(Directive("not_contains", v), text, ext).Success?
    ensures Check(Directive("contains", v), text, ext).value.passed
            == !Check(Directive("not_contains", v), text, ext).value.passed
  {
  }

  /** `icontains` is `contains` on the lower-cased text and value. */
  lemma IContainsIsLoweredContains(v: string, text: string, ext: Externals)
    ensures Check(Directive("icontains", v), text, ext).Success?
    ensures Check(Directive("icontains", v), text, ext).value.passed
            == Check(Directive("contains", Lower(v)), Lower(text), ext).value.passed
  {
  }
}
