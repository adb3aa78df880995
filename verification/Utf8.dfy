/** UTF-8 as section 3 of RFC 3629 defines it, and decoding that ignores malformed bytes. */
module Utf8 {
  import opened Basics

  type byte = b: int | 0 <= b < 256

  function EncodeChar(c: char): (r: seq<byte>)
    ensures 1 <= |r| <= 4
  {
    var n := c as int;
    if n < 0x80 then [n]
    else if n < 0x800 then [0xC0 + n / 64, 0x80 + n % 64]
    else if n < 0x1_0000 then [0xE0 + n / 4096, 0x80 + n / 64 % 64, 0x80 + n % 64]
    else [0xF0 + n / 262_144, 0x80 + n / 4096 % 64, 0x80 + n / 64 % 64, 0x80 + n % 64]
  }

  function Encode(s: string): seq<byte> {
    if s == [] then [] else EncodeChar(s[0]) + Encode(s[1..])
  }

  /** The code point the leading bytes spell, if a leading byte announces one that is all there. */
  function Spelled(b: seq<byte>): Option<int> {
    if b == [] then None
    else if b[0] < 0x80 then Some(b[0])
    else if 0xC0 <= b[0] < 0xE0 && |b| >= 2 then Some((b[0] as int - 0xC0) * 64 + (b[1] as int - 0x80))
    else if 0xE0 <= b[0] < 0xF0 && |b| >= 3 then
      Some((b[0] as int - 0xE0) * 4096 + (b[1] as int - 0x80) * 64 + (b[2] as int - 0x80))
    else if 0xF0 <= b[0] < 0xF8 && |b| >= 4 then
      Some((b[0] as int - 0xF0) * 262_144 + (b[1] as int - 0x80) * 4096 + (b[2] as int - 0x80) * 64
          + (b[3] as int - 0x80))
    else None
  }

  predicate IsScalar(n: int) {
    0 <= n < 0xD800 || 0xE000 <= n < 0x11_0000
  }

  /** The first character, when the bytes begin with its one well-formed encoding. */
  function Head(b: seq<byte>): Option<char> {
    var spelled := Spelled(b);
    if spelled.Some? && IsScalar(spelled.value) && EncodeChar(spelled.value as char) <= b
    then Some(spelled.value as char) else None
  }

  /** Python's `decode("utf-8", errors="ignore")`: a byte that begins nothing well formed is dropped. */
  function DecodeIgnoring(b: seq<byte>): string {
    if b == [] then []
    else
      match Head(b)
      case Some(c) =>
        assert EncodeChar(c) <= b;
        [c] + DecodeIgnoring(b[|EncodeChar(c)|..])
      case None => DecodeIgnoring(b[1..])
  }

  /** Six bits more than the top of a number. */
  lemma SixBits(n: nat)
    ensures n / 64 == n / 4096 * 64 + n / 64 % 64 && n / 64 / 64 == n / 4096 && n / 64 / 4096 == n / 262_144
  {
  }

  lemma HeadOfEncoded(c: char, rest: seq<byte>)
    ensures Head(EncodeChar(c) + rest) == Some(c)
  {
    var n := c as int;
    var b := EncodeChar(c) + rest;
    assert b[..|EncodeChar(c)|] == EncodeChar(c);
    if n < 0x80 {
    } else if n < 0x800 {
    } else {
      SixBits(n);
      SixBits(n / 64);
    }
    assert Spelled(b) == Some(n);
  }

  /** Decoding inverts encoding, so encoding is injective. */
  lemma {:induction false} DecodeEncoded(s: string)
    ensures DecodeIgnoring(Encode(s)) == s
  {
    if s != [] {
      HeadOfEncoded(s[0], Encode(s[1..]));
      assert Encode(s)[|EncodeChar(s[0])|..] == Encode(s[1..]);
      DecodeEncoded(s[1..]);
    }
  }

  /** A character cut short decodes to nothing. */
  lemma CutCharacter(c: char, k: nat)
    requires k < |EncodeChar(c)|
    ensures DecodeIgnoring(EncodeChar(c)[..k]) == []
  {
    var b := EncodeChar(c)[..k];
    Continuation(c);
    if k > 0 {
      assert b[0] == EncodeChar(c)[0];
      assert Head(b) == None;
      OnlyContinuations(b[1..]);
    }
  }

  lemma Continuation(c: char)
    ensures forall i :: 1 <= i < |EncodeChar(c)| ==> 0x80 <= EncodeChar(c)[i] < 0xC0
  {
  }

  lemma {:induction false} OnlyContinuations(b: seq<byte>)
    requires forall i :: 0 <= i < |b| ==> 0x80 <= b[i] < 0xC0
    ensures DecodeIgnoring(b) == []
  {
    if b != [] {
      OnlyContinuations(b[1..]);
    }
  }

  /** `t` is the longest prefix of `s` whose encoding fits `limit` bytes. */
  ghost predicate LongestFitting(t: string, s: string, limit: nat) {
    && t <= s && |Encode(t)| <= limit
    && forall m :: |t| < m <= |s| ==> |Encode(s[..m])| > limit
  }

  /** Cutting an encoding anywhere and ignoring what was cut in half leaves the longest prefix that fits. */
  lemma {:induction false} CutEncoding(s: string, limit: nat)
    requires limit <= |Encode(s)|
    ensures LongestFitting(DecodeIgnoring(Encode(s)[..limit]), s, limit)
  {
    if s != [] {
      var first, rest := EncodeChar(s[0]), Encode(s[1..]);
      if limit < |first| {
        assert Encode(s)[..limit] == first[..limit];
        CutCharacter(s[0], limit);
        forall m | 0 < m <= |s|
          ensures |Encode(s[..m])| > limit
        {
          assert s[..m][0] == s[0];
        }
      } else {
        var t := DecodeIgnoring(rest[..limit - |first|]);
        assert Encode(s)[..limit] == first + rest[..limit - |first|];
        HeadOfEncoded(s[0], rest[..limit - |first|]);
        assert (first + rest[..limit - |first|])[|first|..] == rest[..limit - |first|];
        CutEncoding(s[1..], limit - |first|);
        assert ([s[0]] + t)[1..] == t;
        forall m | |t| + 1 < m <= |s|
          ensures |Encode(s[..m])| > limit
        {
          assert s[..m][1..] == s[1..][..m - 1];
        }
      }
    }
  }
}
