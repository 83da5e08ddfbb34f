/** The repository's code-block extraction example, derived from the general extraction
    lemma: `x ```python\nprint(1)\n``` y ```js\nconsole.log(2)\n```` gives the two
    stripped bodies. The text is assembled from its pieces with `Fenced`. */
module ToolExamples {
  import opened Text
  import opened Tools

  /** Two well-formed blocks come back as their two stripped bodies. */
  lemma ExtractTwo(g0: string, t0: string, b0: string, g1: string, t1: string, b1: string)
    requires SegmentOk(Segment(g0, t0, b0)) && SegmentOk(Segment(g1, t1, b1))
    ensures ExtractCodeBlocks(g0 + Fenced(t0, b0) + g1 + Fenced(t1, b1)) == [Strip(b0), Strip(b1)]
  {
    var segs := [Segment(g0, t0, b0), Segment(g1, t1, b1)];
    assert segs[1..][1..] == [];
    assert Document(segs[1..][1..], "") == "";
    assert Document(segs[1..], "") == g1 + Fenced(t1, b1) + "";
    assert Document(segs, "") == g0 + Fenced(t0, b0) + g1 + Fenced(t1, b1);
    ExtractDocument(segs, "");
    assert Bodies(segs) == [b0, b1];
  }

  lemma TagOk(t: string)
    requires t == "python" || t == "js"
    ensures forall k :: 0 <= k < |t| ==> IsTagChar(t[k])
  {
  }

  lemma {:induction false} TrimLeftNoSpace(s: string)
    requires |s| > 0 && !IsSpace(s[0])
    ensures TrimLeft(s) == s
  {
  }

  lemma StripTrailingNewline(line: string, s: string)
    requires NoSpace(line) && |line| > 0
    requires s == line + "\n"
    ensures Strip(s) == line
  {
    assert s[..|s| - 1] == line;
    assert TrimRight(s) == line;
    TrimLeftNoSpace(line);
  }

  lemma StripFirstBody(b0: string)
    requires b0 == "print(1)\n"
    ensures Strip(b0) == "print(1)"
  {
    StripTrailingNewline("print(1)", b0);
  }

  lemma StripSecondBody(b1: string)
    requires b1 == "console.log(2)\n"
    ensures Strip(b1) == "console.log(2)"
  {
    StripTrailingNewline("console.log(2)", b1);
  }

  lemma ExampleExtract(x: string, python: string, b0: string, y: string, js: string, b1: string)
    requires x == "x " && python == "python" && b0 == "print(1)\n"
    requires y == " y " && js == "js" && b1 == "console.log(2)\n"
    ensures ExtractCodeBlocks(x + Fenced(python, b0) + y + Fenced(js, b1)) == ["print(1)", "console.log(2)"]
  {
    TagOk(python);
    TagOk(js);
    ExtractTwo(x, python, b0, y, js, b1);
    StripFirstBody(b0);
    StripSecondBody(b1);
  }
}
