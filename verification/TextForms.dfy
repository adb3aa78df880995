/** Whitespace-normalized text: `normalize_text` of src/research_platform/agents/provenance.py. */
module TextForms {

  /** What Python's `str.split()` splits at. */
  predicate IsSpace(c: char) {
    var n := c as int;
    || 0x09 <= n <= 0x0D || 0x1C <= n <= 0x20 || n == 0x85 || n == 0xA0 || n == 0x1680
    || 0x2000 <= n <= 0x200A || n == 0x2028 || n == 0x2029 || n == 0x202F || n == 0x205F || n == 0x3000
  }

  ghost predicate IsWord(w: string) {
    w != "" && forall i :: 0 <= i < |w| ==> !IsSpace(w[i])
  }

  /** How many characters before the first space. */
  function WordLength(s: string): (n: nat)
    ensures n <= |s| && (forall i :: 0 <= i < n ==> !IsSpace(s[i])) && (n < |s| ==> IsSpace(s[n]))
  {
    if s != [] && !IsSpace(s[0]) then 1 + WordLength(s[1..]) else 0
  }

  /** `s.split()` */
  function Words(s: string): seq<string>
    decreases |s|
  {
    if s == [] then []
    else if IsSpace(s[0]) then Words(s[1..])
    else [s[..WordLength(s)]] + Words(s[WordLength(s)..])
  }

  /** `" ".join(words)` */
  function Unwords(words: seq<string>): string {
    if words == [] then ""
    else if |words| == 1 then words[0]
    else words[0] + " " + Unwords(words[1..])
  }

  function Normalize(text: string): string {
    Unwords(Words(text))
  }

  lemma {:induction false} WordsAreWords(s: string)
    ensures forall i :: 0 <= i < |Words(s)| ==> IsWord(Words(s)[i])
    decreases |s|
  {
    if s != [] {
      WordsAreWords(if IsSpace(s[0]) then s[1..] else s[WordLength(s)..]);
    }
  }

  lemma FirstWord(w: string, rest: string)
    requires IsWord(w) && (rest != "" ==> IsSpace(rest[0]))
    ensures Words(w + rest) == [w] + Words(rest)
  {
    var s := w + rest;
    assert s[0] == w[0];
    assert forall i :: 0 <= i < |w| ==> s[i] == w[i];
    assert rest != "" ==> s[|w|] == rest[0];
    assert WordLength(s) == |w|;
    assert s[..|w|] == w && s[|w|..] == rest;
  }

  lemma {:induction false} WordsOfUnwords(words: seq<string>)
    requires forall i :: 0 <= i < |words| ==> IsWord(words[i])
    ensures Words(Unwords(words)) == words
  {
    if |words| == 1 {
      FirstWord(words[0], "");
      assert words[0] + "" == words[0];
    } else if |words| > 1 {
      var rest := Unwords(words[1..]);
      WordsOfUnwords(words[1..]);
      FirstWord(words[0], " " + rest);
      assert words[0] + " " + rest == words[0] + (" " + rest);
      assert (" " + rest)[1..] == rest;
    }
  }

  /** Texts have the same normal form exactly when they have the same words; a normal form is its own. */
  lemma NormalFormIsItsWords(a: string, b: string)
    ensures Normalize(a) == Normalize(b) <==> Words(a) == Words(b)
    ensures Normalize(Normalize(a)) == Normalize(a)
  {
    WordsAreWords(a);
    WordsAreWords(b);
    WordsOfUnwords(Words(a));
    WordsOfUnwords(Words(b));
  }

  /** Python's whitespace, one character at a time. */
  const WHITESPACE: set<int> := {
    0x09, 0x0A, 0x0B, 0x0C, 0x0D, 0x1C, 0x1D, 0x1E, 0x1F, 0x20, 0x85, 0xA0, 0x1680,
    0x2000, 0x2001, 0x2002, 0x2003, 0x2004, 0x2005, 0x2006, 0x2007, 0x2008, 0x2009, 0x200A,
    0x2028, 0x2029, 0x202F, 0x205F, 0x3000}

  lemma SpaceIsWhitespace(c: char)
    ensures IsSpace(c) <==> c as int in WHITESPACE
  {
  }

  lemma {:induction false} WordsSplitAtSpace(a: string, c: char, b: string)
    requires IsSpace(c)
    ensures Words(a + [c] + b) == Words(a) + Words(b)
    decreases |a|
  {
    var s := a + [c] + b;
    if a == "" {
      assert s[1..] == b;
    } else if IsSpace(a[0]) {
      assert s[1..] == a[1..] + [c] + b;
      WordsSplitAtSpace(a[1..], c, b);
    } else {
      var n := WordLength(a);
      var w, rest := a[..n], a[n..];
      assert a == w + rest && s == w + (rest + [c] + b);
      FirstWord(w, rest);
      FirstWord(w, rest + [c] + b);
      WordsSplitAtSpace(rest, c, b);
      hide Words, WordLength, IsSpace;
    }
  }

  lemma {:induction false} UnwordsOfBoth(a: seq<string>, b: seq<string>)
    ensures Unwords(a + b) == if a == [] then Unwords(b) else if b == [] then Unwords(a)
                              else Unwords(a) + " " + Unwords(b)
  {
    if a == [] || b == [] {
      assert a + b == if a == [] then b else a;
    } else {
      assert (a + b)[1..] == a[1..] + b;
      UnwordsOfBoth(a[1..], b);
    }
  }

  /**
   Normalizing makes one space of whatever whitespace stands between two words, drops it at
   either end, and leaves a text without whitespace as it is.
   */
  lemma NormalizeJoinsWithOneSpace(a: string, c: char, b: string)
    requires c as int in WHITESPACE
    ensures Normalize(a + [c] + b) == if Normalize(a) == "" then Normalize(b)
                                      else if Normalize(b) == "" then Normalize(a)
                                      else Normalize(a) + " " + Normalize(b)
    ensures (forall i :: 0 <= i < |a| ==> a[i] as int !in WHITESPACE) ==> Normalize(a) == a
  {
    forall c: char
      ensures IsSpace(c) <==> c as int in WHITESPACE
    {
      SpaceIsWhitespace(c);
    }
    hide IsSpace, Words, Unwords, WHITESPACE, WordLength;
    WordsSplitAtSpace(a, c, b);
    UnwordsOfBoth(Words(a), Words(b));
    EmptyNormalForm(a);
    EmptyNormalForm(b);
    BlankHasNoWords(a);
    BlankHasNoWords(b);
    if a != "" && forall i :: 0 <= i < |a| ==> a[i] as int !in WHITESPACE {
      WordsOfUnwords([a]);
      assert Unwords([a]) == a;
    }
  }

  /** Only text without a single word has the empty normal form. */
  lemma EmptyNormalForm(text: string)
    ensures Normalize(text) == "" <==> forall i :: 0 <= i < |text| ==> IsSpace(text[i])
  {
    WordsAreWords(text);
    BlankHasNoWords(text);
    if Words(text) != [] {
      assert IsWord(Words(text)[0]);
    }
  }

  lemma {:induction false} BlankHasNoWords(text: string)
    ensures Words(text) == [] <==> forall i :: 0 <= i < |text| ==> IsSpace(text[i])
  {
    if text != [] && IsSpace(text[0]) {
      BlankHasNoWords(text[1..]);
    }
  }

  ghost predicate At(needle: string, text: string, i: int) {
    0 <= i && i + |needle| <= |text| && text[i..i + |needle|] == needle
  }

  /** `needle in text` */
  function Occurs(needle: string, text: string): (r: bool)
    ensures r <==> exists i :: At(needle, text, i)
    decreases |text|
  {
    if |needle| > |text| then false
    else if text[..|needle|] == needle then
      assert At(needle, text, 0);
      true
    else if text == [] then false
    else
      OccursLater(needle, text);
      Occurs(needle, text[1..])
  }

  lemma OccursLater(needle: string, text: string)
    requires text != [] && |needle| <= |text| && text[..|needle|] != needle
    ensures (exists i :: At(needle, text, i)) <==> exists i :: At(needle, text[1..], i)
  {
    var tail, n := text[1..], |needle|;
    assert !At(needle, text, 0) by {
      assert text[0..0 + n] == text[..n];
    }
    if i :| At(needle, text, i) {
      SliceOfTail(text, i - 1, n);
      assert At(needle, tail, i - 1);
    }
    if i :| At(needle, tail, i) {
      SliceOfTail(text, i, n);
      assert At(needle, text, i + 1);
    }
  }

  lemma SliceOfTail(text: string, i: nat, n: nat)
    requires i + 1 + n <= |text|
    ensures text[1..][i..i + n] == text[i + 1..i + 1 + n]
  {
    var a, b := text[1..][i..i + n], text[i + 1..i + 1 + n];
    forall k | 0 <= k < n
      ensures a[k] == b[k]
    {
      assert a[k] == text[1..][i + k] == text[i + 1 + k] == b[k];
    }
  }
}
