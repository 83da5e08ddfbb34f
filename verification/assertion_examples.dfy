/** The two assertion examples the repository's own tests use, worked through the model.
    Each step about a literal string is its own small lemma, so that no single proof has
    to reason about many literals at once. */
module AssertionExamples {
  import opened Wrappers
  import opened Text
  import opened Externals
  import opened Assertions

  /** A name of lower-case letters and `_` with a value of printable ASCII other than `;`
      is well formed. */
  lemma PlainWellFormed(n: string, v: string)
    requires |n| > 0 && forall k :: 0 <= k < |n| ==> 'a' <= n[k] <= 'z' || n[k] == '_'
    requires forall k :: 0 <= k < |v| ==> '!' <= v[k] <= '~' && v[k] != ';'
    ensures WellFormed(Directive(n, v))
  {
  }

  /** Rendering three directives. */
  lemma Render3(ds: seq<Directive>)
    requires |ds| == 3
    ensures Render(ds) == RenderChunk(ds[0]) + ";" + RenderChunk(ds[1]) + ";" + RenderChunk(ds[2])
  {
    var cs := RenderChunks(ds);
    assert cs[1..][1..] == [cs[2]];
    assert Join([cs[2]], ';') == cs[2];
    assert Join(cs[1..], ';') == cs[1] + ";" + cs[2];
  }

  lemma WellFormedAllPass0(d: Directive)
    requires d == Directive("contains", "Hello")
    ensures WellFormed(d)
  {
    PlainWellFormed("contains", "Hello");
  }

  lemma RenderChunkAllPass0(d: Directive)
    requires d == Directive("contains", "Hello")
    ensures RenderChunk(d) == "contains:Hello"
  {
  }

  lemma WellFormedAllPass1(d: Directive)
    requires d == Directive("regex", "^Hello")
    ensures WellFormed(d)
  {
    PlainWellFormed("regex", "^Hello");
  }

  lemma RenderChunkAllPass1(d: Directive)
    requires d == Directive("regex", "^Hello")
    ensures RenderChunk(d) == "regex:^Hello"
  {
  }

  lemma WellFormedAllPass2(d: Directive)
    requires d == Directive("max_words", "3")
    ensures WellFormed(d)
  {
    PlainWellFormed("max_words", "3");
  }

  lemma RenderChunkAllPass2(d: Directive)
    requires d == Directive("max_words", "3")
    ensures RenderChunk(d) == "max_words:3"
  {
  }

  lemma SplitAllPass(raw: string)
    requires raw == "contains:Hello;regex:^Hello;max_words:3"
    ensures raw == "contains:Hello" + ";" + "regex:^Hello" + ";" + "max_words:3"
  {
  }

  /** The directive string of this example parses to its three directives. */
  lemma ParseAllPass(raw: string)
    requires raw == "contains:Hello;regex:^Hello;max_words:3"
    ensures ParseConstraints(Some(raw)) == [Directive("contains", "Hello"), Directive("regex", "^Hello"), Directive("max_words", "3")]
  {
    var ds := [Directive("contains", "Hello"), Directive("regex", "^Hello"), Directive("max_words", "3")];
    WellFormedAllPass0(ds[0]);
    WellFormedAllPass1(ds[1]);
    WellFormedAllPass2(ds[2]);
    RenderChunkAllPass0(ds[0]);
    RenderChunkAllPass1(ds[1]);
    RenderChunkAllPass2(ds[2]);
    Render3(ds);
    SplitAllPass(raw);
    ParseRender(ds);
  }

  lemma WellFormedUnknownCounts0(d: Directive)
    requires d == Directive("contains", "Alpha")
    ensures WellFormed(d)
  {
    PlainWellFormed("contains", "Alpha");
  }

  lemma RenderChunkUnknownCounts0(d: Directive)
    requires d == Directive("contains", "Alpha")
    ensures RenderChunk(d) == "contains:Alpha"
  {
  }

  lemma WellFormedUnknownCounts1(d: Directive)
    requires d == Directive("not_contains", "world")
    ensures WellFormed(d)
  {
    PlainWellFormed("not_contains", "world");
  }

  lemma RenderChunkUnknownCounts1(d: Directive)
    requires d == Directive("not_contains", "world")
    ensures RenderChunk(d) == "not_contains:world"
  {
  }

  lemma WellFormedUnknownCounts2(d: Directive)
    requires d == Directive("unknown_check", "abc")
    ensures WellFormed(d)
  {
    PlainWellFormed("unknown_check", "abc");
  }

  lemma RenderChunkUnknownCounts2(d: Directive)
    requires d == Directive("unknown_check", "abc")
    ensures RenderChunk(d) == "unknown_check:abc"
  {
  }

  lemma SplitUnknownCounts(raw: string)
    requires raw == "contains:Alpha;not_contains:world;unknown_check:abc"
    ensures raw == "contains:Alpha" + ";" + "not_contains:world" + ";" + "unknown_check:abc"
  {
  }

  /** The directive string of this example parses to its three directives. */
  lemma ParseUnknownCounts(raw: string)
    requires raw == "contains:Alpha;not_contains:world;unknown_check:abc"
    ensures ParseConstraints(Some(raw)) == [Directive("contains", "Alpha"), Directive("not_contains", "world"), Directive("unknown_check", "abc")]
  {
    var ds := [Directive("contains", "Alpha"), Directive("not_contains", "world"), Directive("unknown_check", "abc")];
    WellFormedUnknownCounts0(ds[0]);
    WellFormedUnknownCounts1(ds[1]);
    WellFormedUnknownCounts2(ds[2]);
    RenderChunkUnknownCounts0(ds[0]);
    RenderChunkUnknownCounts1(ds[1]);
    RenderChunkUnknownCounts2(ds[2]);
    Render3(ds);
    SplitUnknownCounts(raw);
    ParseRender(ds);
  }

  /** "Hello world" has two words. */
  lemma WordsHelloWorld(text: string)
    requires text == "Hello world"
    ensures |Words(text)| == 2
  {
    assert Join(["Hello", "world"], ' ') == text;
    TokensOfJoin(["Hello", "world"], ' ', Whitespace);
  }

  /** When every directive passes, the evaluation counts all of them. */
  lemma EvaluateAllPassed(raw: string, text: string, ext: Externals)
    requires forall i :: 0 <= i < |ParseConstraints(Some(raw))| ==>
               Check(ParseConstraints(Some(raw))[i], text, ext).Success? && Check(ParseConstraints(Some(raw))[i], text, ext).value.passed
    ensures Evaluate(Some(raw), text, ext).Success?
    ensures Evaluate(Some(raw), text, ext).value.passed == Evaluate(Some(raw), text, ext).value.total == |ParseConstraints(Some(raw))|
  {
    var r := Evaluate(Some(raw), text, ext);
    var ds := ParseConstraints(Some(raw));
    forall i | 0 <= i < |r.value.results| ensures r.value.results[i].passed {
      assert Check(ds[i], text, ext) == Success(r.value.results[i]);
    }
  }

  /** When no directive passes (and none raises), the evaluation counts none. */
  lemma EvaluateNonePassed(raw: string, text: string, ext: Externals)
    requires forall i :: 0 <= i < |ParseConstraints(Some(raw))| ==>
               Check(ParseConstraints(Some(raw))[i], text, ext).Success? && !Check(ParseConstraints(Some(raw))[i], text, ext).value.passed
    ensures Evaluate(Some(raw), text, ext).Success?
    ensures Evaluate(Some(raw), text, ext).value.total == |ParseConstraints(Some(raw))|
    ensures Evaluate(Some(raw), text, ext).value.passed == 0
  {
    var r := Evaluate(Some(raw), text, ext);
    var ds := ParseConstraints(Some(raw));
    forall i | 0 <= i < |r.value.results| ensures !r.value.results[i].passed {
      assert Check(ds[i], text, ext) == Success(r.value.results[i]);
    }
  }

  lemma ContainsHello(d: Directive, text: string, ext: Externals)
    requires d == Directive("contains", "Hello") && text == "Hello world"
    ensures Check(d, text, ext).Success? && Check(d, text, ext).value.passed
  {
    assert OccursAt(text, "Hello", 0);
  }

  lemma RegexHello(d: Directive, text: string, ext: Externals)
    requires d == Directive("regex", "^Hello") && ext.regexSearch("^Hello", text) == Success(true)
    ensures Check(d, text, ext).Success? && Check(d, text, ext).value.passed
  {
  }

  lemma MaxWords3(d: Directive, text: string, ext: Externals)
    requires d == Directive("max_words", "3") && text == "Hello world"
    ensures Check(d, text, ext).Success? && Check(d, text, ext).value.passed
  {
    assert ShowInt(3) == "3";
    ParseShowInt(3);
    WordsHelloWorld(text);
  }

  lemma ChecksAllPass(ds: seq<Directive>, text: string, ext: Externals)
    requires ds == [Directive("contains", "Hello"), Directive("regex", "^Hello"), Directive("max_words", "3")]
    requires text == "Hello world" && ext.regexSearch("^Hello", text) == Success(true)
    ensures forall i :: 0 <= i < |ds| ==> Check(ds[i], text, ext).Success? && Check(ds[i], text, ext).value.passed
  {
    forall i | 0 <= i < |ds|
      ensures Check(ds[i], text, ext).Success? && Check(ds[i], text, ext).value.passed
    {
      if i == 0 {
        ContainsHello(ds[0], text, ext);
      } else if i == 1 {
        RegexHello(ds[1], text, ext);
      } else {
        MaxWords3(ds[2], text, ext);
      }
    }
  }

  /** The first example the repository's tests use: three directives, all passing. */
  lemma ExampleAllPass(raw: string, text: string, ext: Externals)
    requires raw == "contains:Hello;regex:^Hello;max_words:3" && text == "Hello world"
    requires ext.regexSearch("^Hello", text) == Success(true)
    ensures Evaluate(Some(raw), text, ext).Success?
    ensures Evaluate(Some(raw), text, ext).value.total == 3
    ensures Evaluate(Some(raw), text, ext).value.passed == 3
  {
    ParseAllPass(raw);
    ChecksAllPass(ParseConstraints(Some(raw)), text, ext);
    EvaluateAllPassed(raw, text, ext);
  }

  lemma ContainsAlpha(d: Directive, text: string, ext: Externals)
    requires d == Directive("contains", "Alpha") && text == "Hello world"
    ensures Check(d, text, ext).Success? && !Check(d, text, ext).value.passed
  {
    forall i | 0 <= i <= |text| - 5 ensures !OccursAt(text, "Alpha", i) {
      assert text[i] != 'A';
    }
  }

  lemma NotContainsWorld(d: Directive, text: string, ext: Externals)
    requires d == Directive("not_contains", "world") && text == "Hello world"
    ensures Check(d, text, ext).Success? && !Check(d, text, ext).value.passed
  {
    assert OccursAt(text, "world", 6);
  }

  lemma UnknownAbc(d: Directive, text: string, ext: Externals)
    requires d == Directive("unknown_check", "abc")
    ensures Check(d, text, ext).Success? && !Check(d, text, ext).value.passed
  {
  }

  lemma ChecksUnknownCounts(ds: seq<Directive>, text: string, ext: Externals)
    requires ds == [Directive("contains", "Alpha"), Directive("not_contains", "world"), Directive("unknown_check", "abc")]
    requires text == "Hello world"
    ensures forall i :: 0 <= i < |ds| ==> Check(ds[i], text, ext).Success? && !Check(ds[i], text, ext).value.passed
  {
    forall i | 0 <= i < |ds|
      ensures Check(ds[i], text, ext).Success? && !Check(ds[i], text, ext).value.passed
    {
      if i == 0 {
        ContainsAlpha(ds[0], text, ext);
      } else if i == 1 {
        NotContainsWorld(ds[1], text, ext);
      } else {
        UnknownAbc(ds[2], text, ext);
      }
    }
  }

  /** The second example: a failing `contains`, a failing `not_contains`, and an unknown
      directive that counts as a failure. */
  lemma ExampleUnknownCounts(raw: string, text: string, ext: Externals)
    requires raw == "contains:Alpha;not_contains:world;unknown_check:abc" && text == "Hello world"
    ensures Evaluate(Some(raw), text, ext).Success?
    ensures Evaluate(Some(raw), text, ext).value.total == 3
    ensures Evaluate(Some(raw), text, ext).value.passed == 0
  {
    ParseUnknownCounts(raw);
    ChecksUnknownCounts(ParseConstraints(Some(raw)), text, ext);
    EvaluateNonePassed(raw, text, ext);
  }
}
