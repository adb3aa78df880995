/** Artifact keys and the development store: src/research_platform/application/artifacts.py. */
module Artifacts {
  import opened Basics
  import opened Utf8

  // ---------------------------------------------------------------- the tenant's segment

  predicate IsAlphanumeric(c: char) {
    'A' <= c <= 'Z' || 'a' <= c <= 'z' || '0' <= c <= '9'
  }

  /** The characters percent-encoding leaves as they are (section 2.3 of RFC 3986). */
  predicate IsUnreserved(c: char) {
    IsAlphanumeric(c) || c == '_' || c == '-' || c == '.' || c == '~'
  }

  const HEX := "0123456789ABCDEF"

  function Percent(b: byte): string {
    ['%', HEX[b / 16], HEX[b % 16]]
  }

  /** `quote` with no safe characters, byte by byte. */
  function Quote(bytes: seq<byte>): string {
    if bytes == [] then ""
    else
      (if bytes[0] < 128 && IsUnreserved(bytes[0] as char) then [bytes[0] as char] else Percent(bytes[0]))
      + Quote(bytes[1..])
  }

  /** `replace(".", "%2E")`. */
  function EscapeDots(s: string): string {
    if s == "" then "" else (if s[0] == '.' then "%2E" else [s[0]]) + EscapeDots(s[1..])
  }

  function TenantSegment(tenant: string): string {
    EscapeDots(Quote(Encode(tenant)))
  }

  /** Both steps at once: what one byte of the tenant's name becomes. */
  function Escaped(b: byte): (r: string)
    ensures r != ""
  {
    if b < 128 && IsUnreserved(b as char) && b as char != '.' then [b as char] else Percent(b)
  }

  function EscapedAll(bytes: seq<byte>): string {
    if bytes == [] then "" else Escaped(bytes[0]) + EscapedAll(bytes[1..])
  }

  lemma {:induction false} EscapeDotsConcat(s: string, t: string)
    ensures EscapeDots(s + t) == EscapeDots(s) + EscapeDots(t)
  {
    if s == "" {
      assert s + t == t;
    } else {
      assert (s + t)[1..] == s[1..] + t;
      EscapeDotsConcat(s[1..], t);
    }
  }

  lemma {:induction false} SegmentIsEscaped(bytes: seq<byte>)
    ensures EscapeDots(Quote(bytes)) == EscapedAll(bytes)
  {
    if bytes != [] {
      var b := bytes[0];
      var first := if b < 128 && IsUnreserved(b as char) then [b as char] else Percent(b);
      EscapeDotsConcat(first, Quote(bytes[1..]));
      SegmentIsEscaped(bytes[1..]);
      EscapeDotsOnce(b);
    }
  }

  lemma EscapeDotsOnce(b: byte)
    ensures EscapeDots(if b < 128 && IsUnreserved(b as char) then [b as char] else Percent(b)) == Escaped(b)
  {
    if b < 128 && IsUnreserved(b as char) {
      assert EscapeDots([b as char]) == (if b as char == '.' then "%2E" else [b as char]) + EscapeDots([]);
      if b as char == '.' {
        assert b == 0x2E;
      }
    } else {
      var p := Percent(b);
      assert p[1..] == [HEX[b / 16], HEX[b % 16]] && p[1..][1..] == [HEX[b % 16]] && p[1..][1..][1..] == "";
      assert EscapeDots(p[1..][1..]) == p[1..][1..];
      assert EscapeDots(p[1..]) == p[1..];
    }
  }

  function HexValue(c: char): int {
    if '0' <= c <= '9' then c as int - '0' as int
    else if 'A' <= c <= 'F' then c as int - 'A' as int + 10
    else -1
  }

  /** Undo percent-encoding (section 2.1 of RFC 3986); `None` for text it does not produce. */
  function Unquote(s: string): Option<seq<byte>>
    decreases |s|
  {
    if s == "" then Some([])
    else if s[0] == '%' then
      if |s| >= 3 && HexValue(s[1]) >= 0 && HexValue(s[2]) >= 0 then
        var rest := Unquote(s[3..]);
        if rest.Some? then Some([HexValue(s[1]) * 16 + HexValue(s[2])] + rest.value) else None
      else None
    else if s[0] as int < 128 then
      var rest := Unquote(s[1..]);
      if rest.Some? then Some([s[0] as int] + rest.value) else None
    else None
  }

  lemma HexDigit(d: nat)
    requires d < 16
    ensures HexValue(HEX[d]) == d && HEX[d] != '/' && HEX[d] != '.' && HEX[d] != '%'
  {
  }

  lemma {:induction false} UnquoteEscaped(bytes: seq<byte>)
    ensures Unquote(EscapedAll(bytes)) == Some(bytes)
  {
    if bytes != [] {
      var b, rest := bytes[0], EscapedAll(bytes[1..]);
      UnquoteEscaped(bytes[1..]);
      HexDigit(b / 16);
      HexDigit(b % 16);
      var s := Escaped(b) + rest;
      if Escaped(b) == Percent(b) {
        assert s[3..] == rest;
      } else {
        assert s[1..] == rest;
      }
      assert [b] + bytes[1..] == bytes;
    }
  }

  /** Decoding a tenant's segment gives back the tenant, for every tenant. */
  lemma SegmentRoundTrip(tenant: string)
    ensures var bytes := Unquote(TenantSegment(tenant));
            bytes.Some? && DecodeIgnoring(bytes.value) == tenant
  {
    SegmentIsEscaped(Encode(tenant));
    UnquoteEscaped(Encode(tenant));
    DecodeEncoded(tenant);
  }

  lemma {:induction false} EscapedIsPlain(bytes: seq<byte>)
    ensures '/' !in EscapedAll(bytes) && '.' !in EscapedAll(bytes)
    ensures bytes != [] ==> EscapedAll(bytes) != ""
  {
    if bytes != [] {
      EscapedIsPlain(bytes[1..]);
      HexDigit(bytes[0] / 16);
      HexDigit(bytes[0] % 16);
    }
  }

  /** Any tenant identifier becomes exactly one path segment. */
  lemma SegmentIsOnePart(tenant: string)
    requires tenant != ""
    ensures var segment := TenantSegment(tenant);
            segment != "" && '/' !in segment && '.' !in segment
  {
    SegmentIsEscaped(Encode(tenant));
    EscapedIsPlain(Encode(tenant));
  }

  // ---------------------------------------------------------------- keys

  function Split(s: string): (r: seq<string>)
    ensures r != []
  {
    if s == "" then [""]
    else if s[0] == '/' then [""] + Split(s[1..])
    else
      var rest := Split(s[1..]);
      [[s[0]] + rest[0]] + rest[1..]
  }

  /** A plain segment of an artifact's name. */
  predicate IsPlain(segment: string) {
    && 1 <= |segment| <= 200 && IsAlphanumeric(segment[0])
    && (forall i :: 0 <= i < |segment| ==>
          IsAlphanumeric(segment[i]) || segment[i] == '.' || segment[i] == '_' || segment[i] == '-')
    && (forall i :: 0 < i < |segment| ==> !(segment[i - 1] == '.' && segment[i] == '.'))
  }

  predicate IsValidName(name: string) {
    forall segment :: segment in Split(name) ==> IsPlain(segment)
  }

  const ROOT := "tenants/"

  function TenantPrefix(tenant: string): string {
    ROOT + TenantSegment(tenant) + "/"
  }

  function ArtifactKey(tenant: string, name: string): Outcome<string> {
    if tenant == "" then Raised(Error("InvalidArtifactName", "an artifact must belong to a tenant"))
    else if !IsValidName(name) then Raised(Error("InvalidArtifactName", "not a valid artifact name"))
    else Returned(TenantPrefix(tenant) + name)
  }

  /** Letters and digits, or one of the three signs a name may hold. */
  ghost predicate Safe(c: char) {
    'A' <= c <= 'Z' || 'a' <= c <= 'z' || '0' <= c <= '9' || c == '.' || c == '_' || c == '-'
  }

  /** A part of a name: not empty, not long, beginning with a letter or digit, and never stepping up. */
  ghost predicate StaysInPlace(segment: string) {
    && 1 <= |segment| <= 200
    && (forall i :: 0 <= i < |segment| ==> Safe(segment[i]))
    && segment[0] != '.' && segment[0] != '_' && segment[0] != '-'
    && !exists i :: 0 < i < |segment| && segment[i - 1] == '.' && segment[i] == '.'
  }

  /** A key is returned exactly for a tenant and a name all of whose parts stay in place. */
  lemma KeysStayInPlace(tenant: string, name: string)
    ensures ArtifactKey(tenant, name).Returned? <==>
            tenant != "" && forall segment :: segment in Split(name) ==> StaysInPlace(segment)
    ensures ArtifactKey(tenant, name).Returned? ==>
            ArtifactKey(tenant, name).value == "tenants/" + TenantSegment(tenant) + "/" + name
    ensures ArtifactKey(tenant, name).Raised? ==> ArtifactKey(tenant, name).error.name == "InvalidArtifactName"
  {
    forall segment
      ensures IsPlain(segment) <==> StaysInPlace(segment)
    {
    }
    hide IsPlain, StaysInPlace, Split, TenantSegment;
  }

  /** Splitting at slashes loses nothing: joined by slashes, the parts are the name, and none holds one. */
  lemma {:induction false} SplitIsExact(s: string)
    ensures Rejoined(Split(s)) == s
    ensures forall part :: part in Split(s) ==> '/' !in part
  {
    if s != "" {
      SplitIsExact(s[1..]);
    }
  }

  function Rejoined(parts: seq<string>): string {
    if parts == [] then ""
    else if |parts| == 1 then parts[0]
    else parts[0] + "/" + Rejoined(parts[1..])
  }

  lemma FirstSlash(a: string, x: string, b: string, y: string)
    requires '/' !in a && '/' !in b && a + "/" + x == b + "/" + y
    ensures a == b && x == y
  {
    var s, t := a + "/" + x, b + "/" + y;
    assert s[|a|] == '/' && t[|b|] == '/';
    assert |a| == |b|;
    assert a == s[..|a|] && b == t[..|b|];
    assert x == s[|a| + 1..] && y == t[|b| + 1..];
  }

  /** One tenant's prefix begins a key of another tenant never, whatever the key's name is. */
  lemma PrefixBelongsToOneTenant(tenant: string, other: string, name: string)
    requires tenant != "" && other != "" && TenantPrefix(tenant) <= TenantPrefix(other) + name
    ensures tenant == other
  {
    SegmentIsOnePart(tenant);
    SegmentIsOnePart(other);
    var key, prefix := TenantPrefix(other) + name, TenantPrefix(tenant);
    var rest := key[|prefix|..];
    assert key == prefix + rest;
    AfterRoot(TenantSegment(tenant), rest);
    AfterRoot(TenantSegment(other), name);
    hide TenantSegment;
    FirstSlash(TenantSegment(tenant), rest, TenantSegment(other), name);
    SegmentsDiffer(tenant, other);
  }

  lemma AfterRoot(segment: string, rest: string)
    ensures (ROOT + segment + "/" + rest)[|ROOT|..] == segment + "/" + rest
  {
  }

  lemma SegmentsDiffer(tenant: string, other: string)
    requires TenantSegment(tenant) == TenantSegment(other)
    ensures tenant == other
  {
    SegmentRoundTrip(tenant);
    SegmentRoundTrip(other);
  }

  /** No two artifacts share a key. */
  lemma KeyIsInjective(tenant: string, name: string, tenant': string, name': string)
    requires ArtifactKey(tenant, name).Returned?
    requires ArtifactKey(tenant, name) == ArtifactKey(tenant', name')
    ensures tenant == tenant' && name == name'
  {
    var key := ArtifactKey(tenant, name).value;
    assert TenantPrefix(tenant) <= key;
    PrefixBelongsToOneTenant(tenant, tenant', name');
    assert key[|TenantPrefix(tenant)|..] == name && key[|TenantPrefix(tenant')|..] == name';
  }

  // ---------------------------------------------------------------- the store

  class InMemoryArtifactStore {
    var objects: map<string, seq<byte>>

    constructor ()
      ensures objects == After([])
    {
      objects := map[];
    }

    method Put(tenant: string, name: string, data: seq<byte>) returns (r: Outcome<string>)
      modifies this
      ensures r == ArtifactKey(tenant, name)
      ensures objects == if r.Returned? then old(objects)[r.value := data] else old(objects)
    {
      r := ArtifactKey(tenant, name);
      if r.Returned? {
        objects := objects[r.value := data];
      }
    }

    method Get(tenant: string, name: string) returns (r: Outcome<seq<byte>>)
      ensures var key := ArtifactKey(tenant, name);
              if key.Raised? then r == Raised(key.error)
              else if key.value in objects then r == Returned(objects[key.value])
              else r == Raised(Error("ArtifactNotFound", name))
    {
      var key :- ArtifactKey(tenant, name);
      if key !in objects {
        return Raised(Error("ArtifactNotFound", name));
      }
      r := Returned(objects[key]);
    }
  }

  datatype Write = Write(tenant: string, name: string, data: seq<byte>)

  /** One write; under an invalid name it changes nothing. */
  function Written(objects: map<string, seq<byte>>, w: Write): map<string, seq<byte>> {
    match ArtifactKey(w.tenant, w.name)
    case Returned(key) => objects[key := w.data]
    case Raised(_) => objects
  }

  /** The objects after a sequence of writes. */
  function After(writes: seq<Write>): map<string, seq<byte>> {
    if writes == [] then map[] else Written(After(writes[..|writes| - 1]), writes[|writes| - 1])
  }

  /** What was last written under exactly this tenant and name. */
  function LastWrite(writes: seq<Write>, tenant: string, name: string): Option<seq<byte>> {
    if writes == [] then None
    else
      var w := writes[|writes| - 1];
      if w.tenant == tenant && w.name == name then Some(w.data)
      else LastWrite(writes[..|writes| - 1], tenant, name)
  }

  /** The store reads back exactly the last write under that tenant and name, over every sequence of writes. */
  lemma {:induction false} ReadsBackLastWrite(writes: seq<Write>, tenant: string, name: string)
    requires ArtifactKey(tenant, name).Returned?
    ensures var key := ArtifactKey(tenant, name).value;
            var last := LastWrite(writes, tenant, name);
            if last.Some? then key in After(writes) && After(writes)[key] == last.value else key !in After(writes)
  {
    if writes != [] {
      var w := writes[|writes| - 1];
      ReadsBackLastWrite(writes[..|writes| - 1], tenant, name);
      if ArtifactKey(w.tenant, w.name) == ArtifactKey(tenant, name) {
        KeyIsInjective(tenant, name, w.tenant, w.name);
      }
    }
  }
}
