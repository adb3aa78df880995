/** Cleaning and bounding tool results: src/research_platform/mcp/sanitizer.py. */
module Sanitizer {
  import opened Basics
  import opened Utf8

  /** The control characters the sanitizer removes; tab, newline and carriage return stay. */
  predicate IsControl(c: char) {
    var n := c as int;
    n <= 8 || n == 0x0B || n == 0x0C || 0x0E <= n <= 0x1F || n == 0x7F
  }

  /** `isFormat` is Unicode's category Cf. */
  predicate IsVisible(isFormat: char -> bool, c: char) {
    !IsControl(c) && (!isFormat(c) || c == '\n')
  }

  /** `_strip_hidden_characters`. */
  function Strip(isFormat: char -> bool, s: string): string {
    if s == [] then []
    else (if IsVisible(isFormat, s[0]) then [s[0]] else []) + Strip(isFormat, s[1..])
  }

  predicate IsBlank(c: char) {
    c == ' ' || c == '\t'
  }

  /** How many blanks the text begins with. */
  function Blanks(s: string): (n: nat)
    ensures n <= |s| && (forall i :: 0 <= i < n ==> IsBlank(s[i])) && (n < |s| ==> !IsBlank(s[n]))
  {
    if s != [] && IsBlank(s[0]) then 1 + Blanks(s[1..]) else 0
  }

  /** Replace every maximal run of three or more blanks with two spaces. */
  function Collapse(s: string): string
    decreases |s|
  {
    if s == [] then []
    else
      var n := Blanks(s);
      if n == 0 then [s[0]] + Collapse(s[1..])
      else (if n >= 3 then "  " else s[..n]) + Collapse(s[n..])
  }

  function Cleaned(isFormat: char -> bool, text: string): string {
    Collapse(Strip(isFormat, text))
  }

  datatype Content = Content(text: string, byteLength: nat, truncated: bool, hidCharacters: bool)

  /** `sanitize_result`, without its injection patterns. */
  function SanitizeResult(isFormat: char -> bool, text: string, maxBytes: int): Outcome<Content> {
    if maxBytes <= 0 then Raised(Error("ValueError", "max_bytes must be positive"))
    else
      var visible := Strip(isFormat, text);
      var normalized := Collapse(visible);
      var encoded := Encode(normalized);
      var kept := if |encoded| > maxBytes then DecodeIgnoring(encoded[..maxBytes]) else normalized;
      Returned(Content(kept, |Encode(kept)|, |encoded| > maxBytes, visible != text))
  }

  // ---------------------------------------------------------------- what cleaning does

  /** A character a reader can see: no control character but tab and line ends, nothing of category Cf. */
  ghost predicate Printable(isFormat: char -> bool, c: char) {
    && (c as int >= 0x20 || c == '\t' || c == '\n' || c == '\r') && c as int != 0x7F
    && (isFormat(c) ==> c == '\n')
  }

  lemma {:induction false} StripAppends(isFormat: char -> bool, a: string, b: string)
    ensures Strip(isFormat, a + b) == Strip(isFormat, a) + Strip(isFormat, b)
  {
    if a == "" {
      assert a + b == b;
      return;
    }
    SplitOfAppend(a, b, 1);
    var first, rest := if IsVisible(isFormat, a[0]) then [a[0]] else [], a[1..];
    assert Strip(isFormat, a + b) == first + Strip(isFormat, rest + b);
    StripAppends(isFormat, rest, b);
    Associates(first, Strip(isFormat, rest), Strip(isFormat, b));
    assert Strip(isFormat, a) == first + Strip(isFormat, rest);
    hide Strip;
  }

  /** Stripping works character by character: it keeps exactly the printable ones, in order. */
  lemma StripKeepsThePrintable(isFormat: char -> bool, a: string, c: char)
    ensures Strip(isFormat, a + [c]) == Strip(isFormat, a) + if Printable(isFormat, c) then [c] else []
    ensures Strip(isFormat, "") == ""
  {
    StripAppends(isFormat, a, [c]);
    assert [c][1..] == "";
  }

  ghost predicate NoBlankAt(s: string, i: int) {
    0 <= i < |s| ==> s[i] != ' ' && s[i] != '\t'
  }

  lemma BlanksOfAppend(a: string, t: string)
    requires a != "" && NoBlankAt(a, |a| - 1)
    ensures Blanks(a + t) == Blanks(a) < |a|
  {
    var n := Blanks(a);
    assert (a + t)[n] == a[n] && forall i :: 0 <= i < n ==> (a + t)[i] == a[i];
  }

  /** The text up to the end of its first run, or its first character, and the rest. */
  function FirstPart(s: string): (k: nat)
    requires s != ""
    ensures 0 < k <= |s|
  {
    if Blanks(s) == 0 then 1 else Blanks(s)
  }

  lemma CollapseFirstPart(s: string)
    requires s != ""
    ensures var k := FirstPart(s);
            Collapse(s) == (if Blanks(s) >= 3 then "  " else s[..k]) + Collapse(s[k..])
  {
    assert s[..1] == [s[0]];
  }

  lemma {:induction false} CollapseAppends(a: string, t: string)
    requires NoBlankAt(a, |a| - 1)
    ensures Collapse(a + t) == Collapse(a) + Collapse(t)
    decreases |a|
  {
    if a == "" {
      assert a + t == t && Collapse(a) == "";
      return;
    }
    BlanksOfAppend(a, t);
    CollapseFirstPart(a);
    CollapseFirstPart(a + t);
    var k, whole := FirstPart(a), a + t;
    var rest, part := a[k..], if Blanks(a) >= 3 then "  " else a[..k];
    assert k == FirstPart(whole);
    SplitOfAppend(a, t, k);
    CollapseAppends(rest, t);
    hide Collapse, Blanks, FirstPart;
    calc {
      Collapse(whole);
      part + Collapse(rest + t);
      part + (Collapse(rest) + Collapse(t));
      { Associates(part, Collapse(rest), Collapse(t)); }
      Collapse(a) + Collapse(t);
    }
  }

  lemma SplitOfAppend(a: string, t: string, k: nat)
    requires k <= |a|
    ensures (a + t)[k..] == a[k..] + t && (a + t)[..k] == a[..k]
  {
  }

  lemma Associates(x: string, y: string, z: string)
    ensures x + (y + z) == x + y + z
  {
  }

  /**
   Collapsing turns each maximal run of three or more blanks into two spaces and changes
   nothing else: a shorter run stays, and so does text without blanks.
   */
  lemma CollapseShortensRuns(a: string, run: string, b: string)
    requires run != "" && (forall i :: 0 <= i < |run| ==> run[i] == ' ' || run[i] == '\t')
    requires NoBlankAt(a, |a| - 1) && NoBlankAt(b, 0)
    ensures Collapse(a + run + b) == Collapse(a) + (if |run| >= 3 then "  " else run) + Collapse(b)
  {
    assert a + run + b == a + (run + b);
    CollapseRun(run, b);
    hide Collapse;
    CollapseAppends(a, run + b);
  }

  lemma CollapseRun(run: string, b: string)
    requires run != "" && (forall i :: 0 <= i < |run| ==> run[i] == ' ' || run[i] == '\t') && NoBlankAt(b, 0)
    ensures Collapse(run + b) == (if |run| >= 3 then "  " else run) + Collapse(b)
  {
    var s, n := run + b, |run|;
    assert forall i :: 0 <= i < n ==> s[i] == run[i];
    assert b != "" ==> s[n] == b[0];
    assert Blanks(s) == n;
    assert s[..n] == run && s[n..] == b;
    assert Collapse(s) == (if n >= 3 then "  " else s[..n]) + Collapse(s[n..]);
    hide Collapse;
  }

  lemma {:induction false} CollapseKeepsUnblanked(s: string)
    requires forall i :: 0 <= i < |s| ==> s[i] != ' ' && s[i] != '\t'
    ensures Collapse(s) == s
  {
    if s != [] {
      CollapseKeepsUnblanked(s[1..]);
    }
  }

  // ---------------------------------------------------------------- cleaned text is clean

  ghost predicate AllVisible(isFormat: char -> bool, s: string) {
    forall i :: 0 <= i < |s| ==> IsVisible(isFormat, s[i])
  }

  ghost predicate NoLongBlanks(s: string) {
    forall i :: 0 <= i && i + 2 < |s| ==> !(IsBlank(s[i]) && IsBlank(s[i + 1]) && IsBlank(s[i + 2]))
  }

  lemma {:induction false} StripIsVisible(isFormat: char -> bool, s: string)
    ensures AllVisible(isFormat, Strip(isFormat, s))
  {
    if s != [] {
      StripIsVisible(isFormat, s[1..]);
    }
  }

  lemma {:induction false} VisibleIsKept(isFormat: char -> bool, s: string)
    requires AllVisible(isFormat, s)
    ensures Strip(isFormat, s) == s
  {
    if s != [] {
      VisibleIsKept(isFormat, s[1..]);
    }
  }

  /** Stripping changes a text exactly when it holds a character nobody can see. */
  lemma StrippedIsChanged(isFormat: char -> bool, s: string)
    ensures Strip(isFormat, s) != s <==> exists i :: 0 <= i < |s| && !Printable(isFormat, s[i])
  {
    assert forall c :: IsVisible(isFormat, c) <==> Printable(isFormat, c);
    hide Strip, IsVisible, Printable;
    StripIsVisible(isFormat, s);
    if AllVisible(isFormat, s) {
      VisibleIsKept(isFormat, s);
    }
  }

  lemma {:induction false} CollapseStaysVisible(isFormat: char -> bool, s: string)
    requires AllVisible(isFormat, s) && !isFormat(' ')
    ensures AllVisible(isFormat, Collapse(s))
    decreases |s|
  {
    if s != [] {
      var n := Blanks(s);
      CollapseStaysVisible(isFormat, if n == 0 then s[1..] else s[n..]);
    }
  }

  lemma {:induction false} CollapseShortens(s: string)
    ensures NoLongBlanks(Collapse(s))
    decreases |s|
  {
    if s != [] {
      var n := Blanks(s);
      if n == 0 {
        CollapseShortens(s[1..]);
      } else {
        CollapseShortens(s[n..]);
        if n < |s| {
          assert Collapse(s[n..])[0] == s[n..][0];
        }
        var run := if n >= 3 then "  " else s[..n];
        AfterShortRun(run, Collapse(s[n..]));
      }
    }
  }

  lemma AfterShortRun(run: string, t: string)
    requires |run| <= 2 && NoLongBlanks(t) && (t != [] ==> !IsBlank(t[0]))
    ensures NoLongBlanks(run + t)
  {
    var s := run + t;
    forall i | 0 <= i && i + 2 < |s|
      ensures !(IsBlank(s[i]) && IsBlank(s[i + 1]) && IsBlank(s[i + 2]))
    {
      if i >= |run| {
        assert s[i] == t[i - |run|] && s[i + 1] == t[i + 1 - |run|] && s[i + 2] == t[i + 2 - |run|];
      } else {
        assert s[|run|] == t[0];
      }
    }
  }

  lemma {:induction false} ShortRunsAreKept(s: string)
    requires NoLongBlanks(s)
    ensures Collapse(s) == s
    decreases |s|
  {
    if s != [] {
      var n := Blanks(s);
      if n == 0 {
        assert NoLongBlanks(s[1..]);
        ShortRunsAreKept(s[1..]);
      } else {
        assert |s| > 2 ==> !(IsBlank(s[0]) && IsBlank(s[0 + 1]) && IsBlank(s[0 + 2]));
        assert NoLongBlanks(s[n..]) by {
          forall i | 0 <= i && i + 2 < |s[n..]|
            ensures !(IsBlank(s[n..][i]) && IsBlank(s[n..][i + 1]) && IsBlank(s[n..][i + 2]))
          {
            assert s[n..][i] == s[n + i] && s[n..][i + 1] == s[n + i + 1] && s[n..][i + 2] == s[n + i + 2];
          }
        }
        ShortRunsAreKept(s[n..]);
      }
    }
  }

  /**
   A limit that is not positive is refused. Otherwise the result is the longest prefix of the
   cleaned text that fits it, reported with its exact size, with whether anything was cut and
   whether anything was hidden; sanitizing it again, with the same limit, changes nothing.
   */
  lemma SanitizedResult(isFormat: char -> bool, text: string, maxBytes: int)
    requires !isFormat(' ')
    ensures SanitizeResult(isFormat, text, maxBytes).Raised? <==> maxBytes <= 0
    ensures maxBytes > 0 ==>
            var c := SanitizeResult(isFormat, text, maxBytes).value;
            && LongestFitting(c.text, Cleaned(isFormat, text), maxBytes)
            && c.byteLength == |Encode(c.text)| <= maxBytes
            && (c.truncated <==> c.text != Cleaned(isFormat, text))
            && (c.hidCharacters <==> exists i :: 0 <= i < |text| && !Printable(isFormat, text[i]))
            && SanitizeResult(isFormat, c.text, maxBytes) == Returned(Content(c.text, c.byteLength, false, false))
  {
    if maxBytes <= 0 {
      return;
    }
    StrippedIsChanged(isFormat, text);
    hide Strip, Collapse, Encode, DecodeIgnoring, IsVisible, IsBlank, Printable;
    var visible := Strip(isFormat, text);
    var clean := Collapse(visible);
    var c := SanitizeResult(isFormat, text, maxBytes).value;
    if |Encode(clean)| > maxBytes {
      CutEncoding(clean, maxBytes);
    }
    assert LongestFitting(c.text, clean, maxBytes);
    StripIsVisible(isFormat, text);
    CollapseStaysVisible(isFormat, visible);
    CollapseShortens(visible);
    assert AllVisible(isFormat, c.text) && NoLongBlanks(c.text);
    VisibleIsKept(isFormat, c.text);
    ShortRunsAreKept(c.text);
  }
}
