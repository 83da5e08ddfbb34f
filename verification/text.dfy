/** The Python string operations the run engine relies on, over `string` (`seq<char>`):
    whitespace (`str.isspace`), `split()`, `strip()`, `lower()`, substring `in`,
    `split(sep, 1)`, `"".join`, `str(int)`, `str(bool)` and `int(str)` in base 10. */
module Text {
  import opened Wrappers

  /** The characters for which Python's `str.isspace()` holds; `str.split()` with no
      argument and `str.strip()` with no argument use exactly this set. */
  predicate IsSpace(c: char) {
    || c == ' '
    || ('\t' <= c <= '\r')
    || ('\U{1C}' <= c <= '\U{1F}')
    || c == '\U{85}' || c == '\U{A0}' || c == '\U{1680}'
    || ('\U{2000}' <= c <= '\U{200A}')
    || c == '\U{2028}' || c == '\U{2029}' || c == '\U{202F}' || c == '\U{205F}' || c == '\U{3000}'
  }

  predicate AllSpace(s: string) {
    forall k :: 0 <= k < |s| ==> IsSpace(s[k])
  }

  predicate NoSpace(s: string) {
    forall k :: 0 <= k < |s| ==> !IsSpace(s[k])
  }

  /** The separator classes the engine splits on: whitespace for `str.split()`, and the
      class `[\n;]` for the assertion directive list. */
  datatype Delim = Whitespace | ConstraintSeparator

  predicate IsDelim(c: char, d: Delim) {
    match d
    case Whitespace => IsSpace(c)
    case ConstraintSeparator => c == '\n' || c == ';'
  }

  predicate NoDelim(s: string, d: Delim) {
    forall k :: 0 <= k < |s| ==> !IsDelim(s[k], d)
  }

  /** Length of the leading run of non-separator characters. */
  function RunLen(s: string, d: Delim): (n: nat)
    ensures n <= |s|
    ensures NoDelim(s[..n], d)
    ensures n < |s| ==> IsDelim(s[n], d)
  {
    if |s| == 0 || IsDelim(s[0], d) then 0
    else
      var m := RunLen(s[1..], d);
      assert s[..1 + m] == [s[0]] + s[1..][..m];
      1 + m
  }

  /** The maximal runs of non-separator characters, in order. With `Whitespace` this is
      Python's `s.split()`; with `ConstraintSeparator` it is the non-empty pieces of
      `re.split(r"[\n;]+", s)` (the pieces `re.split` adds at a leading or trailing
      separator run are empty). */
  function Tokens(s: string, d: Delim): (r: seq<string>)
    ensures forall i :: 0 <= i < |r| ==> |r[i]| > 0 && NoDelim(r[i], d)
    decreases |s|
  {
    if |s| == 0 then []
    else if IsDelim(s[0], d) then Tokens(s[1..], d)
    else
      var n := RunLen(s, d);
      [s[..n]] + Tokens(s[n..], d)
  }

  /** Python's `s.split()`. */
  function Words(s: string): (r: seq<string>)
    ensures forall i :: 0 <= i < |r| ==> |r[i]| > 0 && NoSpace(r[i])
  {
    var r := Tokens(s, Whitespace);
    assert forall i :: 0 <= i < |r| ==> NoDelim(r[i], Whitespace);
    r
  }

  /** `sep.join(ws)` for a one-character separator. */
  function Join(ws: seq<string>, sep: char): string
  {
    if |ws| == 0 then ""
    else if |ws| == 1 then ws[0]
    else ws[0] + [sep] + Join(ws[1..], sep)
  }

  /** `"".join(ws)`. */
  function Concat(ws: seq<string>): string
  {
    if |ws| == 0 then "" else ws[0] + Concat(ws[1..])
  }

  lemma {:induction false} TokensOfRun(s: string, d: Delim)
    requires |s| > 0 && NoDelim(s, d)
    ensures Tokens(s, d) == [s]
  {
    var n := RunLen(s, d);
    assert n == |s|;
    assert s[..n] == s;
    assert s[n..] == [];
  }

  lemma {:induction false} TokensOfRunThenDelim(a: string, c: char, b: string, d: Delim)
    requires |a| > 0 && NoDelim(a, d) && IsDelim(c, d)
    ensures Tokens(a + [c] + b, d) == [a] + Tokens(b, d)
  {
    var x := a + [c] + b;
    var n := RunLen(x, d);
    assert x[|a|] == c;
    assert n == |a|;
    assert x[..n] == a;
    assert x[n..] == [c] + b;
    assert ([c] + b)[1..] == b;
  }

  /** Splitting a joined list of separator-free, non-empty pieces gives the pieces back. */
  lemma {:induction false} TokensOfJoin(ws: seq<string>, c: char, d: Delim)
    requires IsDelim(c, d)
    requires forall i :: 0 <= i < |ws| ==> |ws[i]| > 0 && NoDelim(ws[i], d)
    ensures Tokens(Join(ws, c), d) == ws
  {
    if |ws| == 0 {
    } else if |ws| == 1 {
      TokensOfRun(ws[0], d);
    } else {
      TokensOfRunThenDelim(ws[0], c, Join(ws[1..], c), d);
      TokensOfJoin(ws[1..], c, d);
    }
  }

  // ---------------------------------------------------------------------------
  // strip()

  /** `s.lstrip()`: `s` without its leading whitespace. */
  function TrimLeft(s: string): (r: string)
    ensures |r| <= |s|
    ensures |r| == 0 || !IsSpace(r[0])
  {
    if |s| == 0 || !IsSpace(s[0]) then s else TrimLeft(s[1..])
  }

  /** `s.rstrip()`: `s` without its trailing whitespace. */
  function TrimRight(s: string): (r: string)
    ensures |r| <= |s|
    ensures |r| == 0 || !IsSpace(r[|r| - 1])
  {
    if |s| == 0 || !IsSpace(s[|s| - 1]) then s else TrimRight(s[..|s| - 1])
  }

  /** `lstrip()` keeps a suffix and drops only whitespace. */
  lemma {:induction false} TrimLeftSuffix(s: string)
    ensures TrimLeft(s) == s[|s| - |TrimLeft(s)|..]
    ensures AllSpace(s[..|s| - |TrimLeft(s)|])
  {
    if |s| > 0 && IsSpace(s[0]) {
      TrimLeftSuffix(s[1..]);
      var r := TrimLeft(s);
      assert s[..|s| - |r|] == [s[0]] + s[1..][..|s| - 1 - |r|];
    }
  }

  /** `rstrip()` keeps a prefix and drops only whitespace. */
  lemma {:induction false} TrimRightPrefix(s: string)
    ensures TrimRight(s) == s[..|TrimRight(s)|]
    ensures AllSpace(s[|TrimRight(s)|..])
  {
    if |s| > 0 && IsSpace(s[|s| - 1]) {
      var p := s[..|s| - 1];
      TrimRightPrefix(p);
      var r := TrimRight(s);
      assert s[|r|..] == p[|r|..] + [s[|s| - 1]];
    }
  }

  /** Python's `s.strip()`: `s` without its leading and trailing whitespace. */
  function Strip(s: string): (r: string)
    ensures |r| <= |s|
    ensures |r| == 0 || (!IsSpace(r[0]) && !IsSpace(r[|r| - 1]))
  {
    var t := TrimLeft(s);
    var r := TrimRight(t);
    TrimRightPrefix(t);
    assert |r| > 0 ==> r[0] == t[0];
    r
  }

  /** `strip()` removes only whitespace, and only at the two ends: the result is a slice
      of the input with nothing but whitespace on either side of it. */
  lemma StripSlice(s: string)
    ensures exists i :: 0 <= i <= |s| - |Strip(s)| && s[i..i + |Strip(s)|] == Strip(s)
                        && AllSpace(s[..i]) && AllSpace(s[i + |Strip(s)|..])
  {
    var t := TrimLeft(s);
    var r := TrimRight(t);
    TrimLeftSuffix(s);
    TrimRightPrefix(t);
    var i := |s| - |t|;
    assert s[i..i + |r|] == t[..|r|];
    assert s[i + |r|..] == t[|r|..];
  }

  /** `strip()` adds no characters. */
  lemma StripKeepsOut(s: string, c: char)
    requires c !in s
    ensures c !in Strip(s)
  {
    StripSlice(s);
    var r := Strip(s);
    var i :| 0 <= i <= |s| - |r| && s[i..i + |r|] == r && AllSpace(s[..i]) && AllSpace(s[i + |r|..]);
    assert forall k :: 0 <= k < |r| ==> r[k] == s[i + k];
  }

  /** A string without surrounding whitespace is its own `strip()`. */
  lemma StripTrimmed(s: string)
    requires |s| == 0 || (!IsSpace(s[0]) && !IsSpace(s[|s| - 1]))
    ensures Strip(s) == s
  {
  }

  /** `strip()` is idempotent. */
  lemma StripIdempotent(s: string)
    ensures Strip(Strip(s)) == Strip(s)
  {
    StripTrimmed(Strip(s));
  }

  lemma StripNoSpace(s: string)
    requires NoSpace(s)
    ensures Strip(s) == s
  {
    StripTrimmed(s);
  }

  // ---------------------------------------------------------------------------
  // lower(), `in`, find

  /** Lower-casing of one character; only ASCII letters are mapped (see README). */
  function LowerChar(c: char): char {
    if 'A' <= c <= 'Z' then (c as int + 32) as char else c
  }

  /** Python's `s.lower()` restricted to ASCII letters. */
  function Lower(s: string): (r: string)
    ensures |r| == |s|
    ensures forall k :: 0 <= k < |s| ==> r[k] == LowerChar(s[k])
    ensures IsLower(r)
  {
    seq(|s|, k requires 0 <= k < |s| => LowerChar(s[k]))
  }

  /** No ASCII upper-case letter occurs in `s`. */
  predicate IsLower(s: string) {
    forall k :: 0 <= k < |s| ==> !('A' <= s[k] <= 'Z')
  }

  /** Lower-casing maps letters to letters and leaves everything else where it was, so it
      cannot introduce a non-letter that was absent. */
  lemma LowerKeepsOut(s: string, c: char)
    requires c !in s && !('A' <= c <= 'Z') && !('a' <= c <= 'z')
    ensures c !in Lower(s)
  {
    var r := Lower(s);
    forall k | 0 <= k < |r| ensures r[k] != c {
      assert r[k] == LowerChar(s[k]);
    }
  }

  lemma LowerOfLower(s: string)
    requires IsLower(s)
    ensures Lower(s) == s
  {
  }

  /** Python's `needle in hay` for strings. */
  predicate Contains(hay: string, needle: string) {
    exists i | 0 <= i <= |hay| - |needle| :: OccursAt(hay, needle, i)
  }

  /** `needle` occurs in `hay` starting at index `i`. */
  predicate OccursAt(hay: string, needle: string, i: int) {
    0 <= i <= |hay| - |needle| && hay[i..i + |needle|] == needle
  }

  predicate StartsWith(s: string, prefix: string) {
    |prefix| <= |s| && s[..|prefix|] == prefix
  }

  predicate EndsWith(s: string, suffix: string) {
    |suffix| <= |s| && s[|s| - |suffix|..] == suffix
  }

  /** Index of the first occurrence of `c`, if any (`s.find(c)`). */
  function IndexOf(s: string, c: char): (r: Option<nat>)
    ensures r.Some? ==> r.value < |s| && s[r.value] == c && c !in s[..r.value]
    ensures r.None? ==> c !in s
  {
    if |s| == 0 then None
    else if s[0] == c then Some(0)
    else
      match IndexOf(s[1..], c)
      case None => None
      case Some(i) =>
        assert s[..i + 1] == [s[0]] + s[1..][..i];
        Some(i + 1)
  }

  /** Index of the last occurrence of `c`, if any (`s.rfind(c)`). */
  function LastIndexOf(s: string, c: char): (r: Option<nat>)
    ensures r.Some? ==> r.value < |s| && s[r.value] == c && c !in s[r.value + 1..]
    ensures r.None? ==> c !in s
  {
    if |s| == 0 then None
    else if s[|s| - 1] == c then Some(|s| - 1)
    else
      var p := s[..|s| - 1];
      match LastIndexOf(p, c)
      case None => assert s == p + [s[|s| - 1]]; None
      case Some(i) =>
        assert s[i + 1..] == p[i + 1..] + [s[|s| - 1]];
        Some(i)
  }

  /** Python's `s.split(c, 1)` when `c in s`: the text before the first `c` and the text after it. */
  function SplitFirst(s: string, c: char): (r: Option<(string, string)>)
    ensures r.None? <==> c !in s
    ensures r.Some? ==> s == r.value.0 + [c] + r.value.1 && c !in r.value.0
  {
    match IndexOf(s, c)
    case None => None
    case Some(i) =>
      assert s == s[..i] + [c] + s[i + 1..];
      Some((s[..i], s[i + 1..]))
  }

  /** `s.startswith("{") and s.endswith("}")`. */
  predicate Braced(s: string) {
    |s| > 0 && s[0] == '{' && s[|s| - 1] == '}'
  }

  /** Where `re.search(r"\{[\s\S]*\}", s)` (equivalently `\{.*\}` with DOTALL) matches:
      the leftmost, longest text that opens with `{` and closes with `}`, i.e. from the first
      `{` to the last `}` after it. */
  function BraceBounds(s: string): (r: Option<(nat, nat)>)
    ensures r.None? <==> forall i, j :: 0 <= i < j < |s| && s[i] == '{' ==> s[j] != '}'
    ensures r.Some? ==> r.value.0 < r.value.1 < |s| && s[r.value.0] == '{' && s[r.value.1] == '}'
    ensures r.Some? ==> '{' !in s[..r.value.0] && '}' !in s[r.value.1 + 1..]
  {
    match IndexOf(s, '{')
    case None => None
    case Some(i) =>
      match LastIndexOf(s, '}')
      case None => None
      case Some(j) =>
        if j < i then
          assert forall a, b :: 0 <= a < b < |s| && s[a] == '{' ==> s[b] != '}' by {
            forall a, b | 0 <= a < b < |s| && s[a] == '{' ensures s[b] != '}' {
              assert b <= j || s[j + 1..][b - j - 1] == s[b];
            }
          }
          None
        else
          Some((i, j))
  }

  /** The matched text of `BraceBounds`. */
  function BraceSpan(s: string): (r: Option<string>)
    ensures r.None? <==> BraceBounds(s).None?
    ensures r.Some? ==> r.value == s[BraceBounds(s).value.0..BraceBounds(s).value.1 + 1]
    ensures r.Some? ==> Braced(r.value)
  {
    match BraceBounds(s)
    case None => None
    case Some((i, j)) => Some(s[i..j + 1])
  }

  /** A brace-delimited stripped text is itself a `{...}` span of the text. */
  lemma BracedHasSpan(text: string)
    ensures Braced(Strip(text)) ==> BraceBounds(text).Some?
  {
    var st := Strip(text);
    if Braced(st) {
      StripSlice(text);
      var i :| 0 <= i <= |text| - |st| && text[i..i + |st|] == st && AllSpace(text[..i]) && AllSpace(text[i + |st|..]);
      assert text[i] == st[0];
      assert text[i + |st| - 1] == st[|st| - 1];
    }
  }

  /** The bounds are the first `{` and the last `}` when one comes before the other. */
  lemma BraceBoundsAt(s: string, i: nat, j: nat)
    requires i < j < |s| && s[i] == '{' && s[j] == '}'
    requires '{' !in s[..i] && '}' !in s[j + 1..]
    ensures BraceBounds(s) == Some((i, j))
  {
    var b := BraceBounds(s);
    assert b.Some?;
    var (a, c) := b.value;
    assert forall k :: 0 <= k < i ==> s[k] != '{' by {
      forall k | 0 <= k < i ensures s[k] != '{' { assert s[..i][k] == s[k]; }
    }
    assert forall k :: 0 <= k < a ==> s[k] != '{' by {
      forall k | 0 <= k < a ensures s[k] != '{' { assert s[..a][k] == s[k]; }
    }
    assert forall k :: j < k < |s| ==> s[k] != '}' by {
      forall k | j < k < |s| ensures s[k] != '}' { assert s[j + 1..][k - j - 1] == s[k]; }
    }
    assert forall k :: c < k < |s| ==> s[k] != '}' by {
      forall k | c < k < |s| ensures s[k] != '}' { assert s[c + 1..][k - c - 1] == s[k]; }
    }
  }

  lemma AllSpaceNoBrace(u: string)
    requires AllSpace(u)
    ensures '{' !in u && '}' !in u
  {
    assert !IsSpace('{') && !IsSpace('}');
  }

  /** A `{...}` slice of `s` with no `{` before it and no `}` after it is the span. */
  lemma SpanOfSlice(s: string, st: string, i: nat)
    requires i + |st| <= |s| && s[i..i + |st|] == st && Braced(st)
    requires '{' !in s[..i] && '}' !in s[i + |st|..]
    ensures BraceSpan(s) == Some(st)
  {
    var j := i + |st| - 1;
    assert s[i] == s[i..i + |st|][0];
    assert s[j] == s[i..i + |st|][|st| - 1];
    BraceBoundsAt(s, i, j);
  }

  /** When the stripped text is brace-delimited it is exactly the `{...}` span of the text,
      so both readings of a reply cut out the same text. */
  lemma BracedStripIsSpan(s: string)
    ensures Braced(Strip(s)) ==> BraceSpan(s) == Some(Strip(s))
  {
    var st := Strip(s);
    if Braced(st) {
      StripSlice(s);
      var i :| 0 <= i <= |s| - |st| && s[i..i + |st|] == st && AllSpace(s[..i]) && AllSpace(s[i + |st|..]);
      AllSpaceNoBrace(s[..i]);
      AllSpaceNoBrace(s[i + |st|..]);
      SpanOfSlice(s, st, i);
    }
  }

  /** A `{...}` text between two brace-free texts is the span of the whole. */
  lemma WrappedSpan(pre: string, obj: string, post: string)
    requires Braced(obj) && '{' !in pre && '}' !in pre && '{' !in post && '}' !in post
    ensures BraceSpan(pre + obj + post) == Some(obj)
  {
    var s := pre + obj + post;
    assert s[..|pre|] == pre;
    assert s[|pre| + |obj|..] == post;
    assert s[|pre|..|pre| + |obj|] == obj;
    SpanOfSlice(s, obj, |pre|);
  }

  // ---------------------------------------------------------------------------
  // str(int), str(bool), int(str)

  predicate IsDigit(c: char) {
    '0' <= c <= '9'
  }

  function DigitChar(d: nat): char
    requires d < 10
  {
    ('0' as int + d) as char
  }

  function DigitValue(c: char): nat
    requires IsDigit(c)
  {
    c as int - '0' as int
  }

  /** Decimal digits of a natural number, most significant first. */
  function ShowNat(n: nat): (r: string)
    ensures |r| > 0 && forall k :: 0 <= k < |r| ==> IsDigit(r[k])
  {
    if n < 10 then [DigitChar(n)] else ShowNat(n / 10) + [DigitChar(n % 10)]
  }

  /** Python's `str(n)` for an int. */
  function ShowInt(n: int): (r: string)
    ensures |r| > 0
  {
    if n < 0 then "-" + ShowNat(-n) else ShowNat(n)
  }

  /** Python's `str(b)` (also what an f-string prints) for a bool. */
  function ShowBool(b: bool): string {
    if b then "True" else "False"
  }

  /** Digits with single underscores between them, the body Python's `int()` accepts in base 10. */
  predicate DigitBody(s: string) {
    && |s| > 0
    && IsDigit(s[0])
    && IsDigit(s[|s| - 1])
    && (forall k :: 0 <= k < |s| ==> IsDigit(s[k]) || s[k] == '_')
    && (forall k :: 0 <= k < |s| - 1 ==> !(s[k] == '_' && s[k + 1] == '_'))
  }

  /** Value of a run of digits and underscores, ignoring the underscores. */
  function DigitsValue(s: string): nat
    requires forall k :: 0 <= k < |s| ==> IsDigit(s[k]) || s[k] == '_'
  {
    if |s| == 0 then 0
    else if s[|s| - 1] == '_' then DigitsValue(s[..|s| - 1])
    else DigitsValue(s[..|s| - 1]) * 10 + DigitValue(s[|s| - 1])
  }

  /** Python's `int(s)` in base 10: surrounding whitespace is ignored, then an optional
      sign and a digit body. `None` stands for the `ValueError` it raises. Only ASCII
      digits are modelled. */
  function ParseInt(s: string): Option<int>
  {
    var t := Strip(s);
    if |t| > 0 && (t[0] == '+' || t[0] == '-') then
      var body := t[1..];
      if DigitBody(body) then
        Some(if t[0] == '-' then -(DigitsValue(body) as int) else DigitsValue(body))
      else None
    else if DigitBody(t) then Some(DigitsValue(t))
    else None
  }

  /** `int()` ignores surrounding whitespace, so `int(s.strip()) == int(s)`. */
  lemma ParseIntStrip(s: string)
    ensures ParseInt(Strip(s)) == ParseInt(s)
  {
    StripIdempotent(s);
  }

  lemma {:induction false} DigitsValueShowNat(n: nat)
    ensures DigitsValue(ShowNat(n)) == n
  {
    var s := ShowNat(n);
    if n < 10 {
      assert s[..0] == [];
    } else {
      assert s[..|s| - 1] == ShowNat(n / 10);
      DigitsValueShowNat(n / 10);
    }
  }

  lemma ShowNatNoSpace(n: nat)
    ensures NoSpace(ShowNat(n))
    ensures DigitBody(ShowNat(n))
  {
    var s := ShowNat(n);
    forall k | 0 <= k < |s| ensures !IsSpace(s[k]) {
      assert IsDigit(s[k]);
    }
  }

  lemma ParseShowNat(n: nat)
    ensures ParseInt(ShowNat(n)) == Some(n)
  {
    var s := ShowNat(n);
    ShowNatNoSpace(n);
    StripNoSpace(s);
    assert Strip(s) == s;
    assert s[0] != '+' && s[0] != '-' by { assert IsDigit(s[0]); }
    DigitsValueShowNat(n);
  }

  lemma ParseShowNegative(n: nat)
    requires n > 0
    ensures ParseInt("-" + ShowNat(n)) == Some(-(n as int))
  {
    var body := ShowNat(n);
    var s := "-" + body;
    ShowNatNoSpace(n);
    assert NoSpace(s) by {
      forall k | 0 <= k < |s| ensures !IsSpace(s[k]) {
        if k > 0 { assert s[k] == body[k - 1]; }
      }
    }
    StripNoSpace(s);
    assert s[1..] == body;
    DigitsValueShowNat(n);
  }

  /** `int(str(n)) == n`: the parser reads back what `str` prints. */
  lemma ParseShowInt(n: int)
    ensures ParseInt(ShowInt(n)) == Some(n)
  {
    if n < 0 {
      ParseShowNegative(-n);
    } else {
      ParseShowNat(n);
    }
  }
}
