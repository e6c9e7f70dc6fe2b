/**
 * The host's btoa and atob, which the voice call's byte codecs sit on.
 *
 * btoa encodes a "binary string" (every character below U+0100, one per
 * byte) with the base64 alphabet and padding of section 4 of RFC 4648, and
 * throws InvalidCharacterError on any other character.  atob runs the
 * forgiving-base64 decode of the WHATWG HTML standard: it drops ASCII
 * whitespace, removes one or two trailing '=' when the length is a multiple
 * of four, rejects a remaining length of 1 modulo 4 and any character outside
 * the alphabet, and ignores the unused low bits of a final partial group.
 */
module Base64 {
  import opened Types

  /** A 6-bit value: the index of a character of the base64 alphabet. */
  type sextet = x: int | 0 <= x < 64

  /** The alphabet of Table 1 of RFC 4648. */
  function CharOf(v: sextet): (c: char)
    ensures c != '='
  {
    if v < 26 then ('A' as int + v) as char
    else if v < 52 then ('a' as int + (v - 26)) as char
    else if v < 62 then ('0' as int + (v - 52)) as char
    else if v == 62 then '+'
    else '/'
  }

  /** The inverse of CharOf: None for a character outside the alphabet. */
  function SextetOf(c: char): (r: Option<sextet>)
    ensures r.Some? ==> CharOf(r.value) == c
    ensures r.None? ==> forall v: sextet :: CharOf(v) != c
  {
    if 'A' <= c <= 'Z' then Some(c as int - 'A' as int)
    else if 'a' <= c <= 'z' then Some(c as int - 'a' as int + 26)
    else if '0' <= c <= '9' then Some(c as int - '0' as int + 52)
    else if c == '+' then Some(62)
    else if c == '/' then Some(63)
    else None
  }

  lemma SextetOfCharOf(v: sextet)
    ensures SextetOf(CharOf(v)) == Some(v)
  {
  }

  /** The four sextets of a full group of three bytes, most significant bits first. */
  function GroupSextets(b0: byte, b1: byte, b2: byte): (g: seq<sextet>)
    ensures |g| == 4
  {
    [b0 / 4, (b0 % 4) * 16 + b1 / 16, (b1 % 16) * 4 + b2 / 64, b2 % 64]
  }

  /** The three bytes of a full group of four sextets. */
  function GroupOctets(v0: sextet, v1: sextet, v2: sextet, v3: sextet): (g: seq<byte>)
    ensures |g| == 3
  {
    var w0, w1, w2, w3 := v0 as int, v1 as int, v2 as int, v3 as int;
    [w0 * 4 + w1 / 16, (w1 % 16) * 16 + w2 / 4, (w2 % 4) * 64 + w3]
  }

  /**
   * The sextets of `bytes`, without padding: four for each full group of three
   * bytes, then two for one trailing byte or three for two trailing bytes
   * (the group completed with zero bits).
   */
  function Sextets(bytes: seq<byte>): (r: seq<sextet>)
    ensures |r| == (4 * |bytes| + 2) / 3
    decreases |bytes|
  {
    if |bytes| == 0 then []
    else if |bytes| == 1 then GroupSextets(bytes[0], 0, 0)[..2]
    else if |bytes| == 2 then GroupSextets(bytes[0], bytes[1], 0)[..3]
    else GroupSextets(bytes[0], bytes[1], bytes[2]) + Sextets(bytes[3..])
  }

  function Chars(vs: seq<sextet>): (s: string)
  {
    seq(|vs|, i requires 0 <= i < |vs| => CharOf(vs[i]))
  }

  /** The '=' padding that completes the last group of four characters. */
  function Padding(n: nat): string
  {
    if n % 3 == 1 then "==" else if n % 3 == 2 then "=" else ""
  }

  /** Base64 encoding of section 4 of RFC 4648, padded. */
  function Encode(bytes: seq<byte>): (s: string)
    ensures |s| == 4 * ((|bytes| + 2) / 3)
  {
    var k, m := |bytes| / 3, |bytes| % 3;
    assert |bytes| == 3 * k + m;
    assert (4 * |bytes| + 2) / 3 == 4 * k + (4 * m + 2) / 3;
    Chars(Sextets(bytes)) + Padding(|bytes|)
  }

  /**
   * The bytes of a sequence of sextets: three for each full group of four,
   * then one for two trailing sextets or two for three, whose unused low
   * bits are ignored.
   */
  function Octets(vs: seq<sextet>): (r: seq<byte>)
    requires |vs| % 4 != 1
    ensures |r| == 3 * |vs| / 4
    decreases |vs|
  {
    if |vs| < 2 then []
    else if |vs| == 2 then GroupOctets(vs[0], vs[1], 0, 0)[..1]
    else if |vs| == 3 then GroupOctets(vs[0], vs[1], vs[2], 0)[..2]
    else GroupOctets(vs[0], vs[1], vs[2], vs[3]) + Octets(vs[4..])
  }

  /** ASCII whitespace as the forgiving-base64 decode drops it. */
  predicate IsAsciiWhitespace(c: char)
  {
    c == '\t' || c == '\n' || c == '\U{000C}' || c == '\r' || c == ' '
  }

  function RemoveWhitespace(s: string): (r: string)
    ensures forall i :: 0 <= i < |r| ==> !IsAsciiWhitespace(r[i])
    ensures (forall i :: 0 <= i < |s| ==> !IsAsciiWhitespace(s[i])) ==> r == s
    decreases |s|
  {
    if s == [] then []
    else if IsAsciiWhitespace(s[0]) then RemoveWhitespace(s[1..])
    else [s[0]] + RemoveWhitespace(s[1..])
  }

  /** A single character is dropped exactly when it is ASCII whitespace. */
  lemma RemoveWhitespaceChar(c: char)
    ensures RemoveWhitespace([c]) == if IsAsciiWhitespace(c) then [] else [c]
  {
    assert [c][1..] == [];
  }

  /** The strip works piece by piece, so the characters it keeps stay in order. */
  lemma {:induction false} RemoveWhitespaceConcat(a: string, b: string)
    ensures RemoveWhitespace(a + b) == RemoveWhitespace(a) + RemoveWhitespace(b)
    decreases |a|
  {
    if a == [] {
      assert a + b == b;
    } else {
      assert (a + b)[1..] == a[1..] + b;
      RemoveWhitespaceConcat(a[1..], b);
    }
  }

  /** When the length is a multiple of four, one or two trailing '=' go. */
  function StripPadding(t: string): (r: string)
    ensures |t| - 2 <= |r| <= |t| && r == t[..|r|]
    ensures forall i :: |r| <= i < |t| ==> t[i] == '='
    ensures |t| % 4 != 0 ==> r == t
    ensures |t| % 4 == 0 && |t| >= 1 && t[|t| - 1] == '=' ==>
      |r| == if |t| >= 2 && t[|t| - 2] == '=' then |t| - 2 else |t| - 1
    ensures !(|t| % 4 == 0 && |t| >= 1 && t[|t| - 1] == '=') ==> r == t
  {
    if |t| % 4 != 0 then t
    else if |t| >= 2 && t[|t| - 2] == '=' && t[|t| - 1] == '=' then t[..|t| - 2]
    else if |t| >= 1 && t[|t| - 1] == '=' then t[..|t| - 1]
    else t
  }

  /** The sextet of every character, or None if one is outside the alphabet. */
  function SextetsOf(u: string): (r: Option<seq<sextet>>)
    ensures r.Some? ==> |r.value| == |u| && Chars(r.value) == u
    ensures r.None? ==> exists i :: 0 <= i < |u| && SextetOf(u[i]).None?
    decreases |u|
  {
    if u == [] then Some([])
    else match SextetOf(u[0])
      case None => None
      case Some(v) =>
        match SextetsOf(u[1..])
        case None => assert u[1..][0] == u[1]; None
        case Some(vs) => Some([v] + vs)
  }

  /** Every character is one of the 64 of the alphabet. */
  predicate InAlphabet(u: string)
  {
    forall i :: 0 <= i < |u| ==> SextetOf(u[i]).Some?
  }

  /** A character outside the alphabet anywhere makes the whole string undecodable. */
  lemma SextetsOfRejects(u: string)
    ensures SextetsOf(u).None? <==> !InAlphabet(u)
  {
    if i :| 0 <= i < |u| && SextetOf(u[i]).None? {
      assert SextetOf(u[i]).None?;
    }
  }

  /** The forgiving-base64 decode; None where atob throws. */
  function Decode(s: string): (r: Option<seq<byte>>)
    ensures var u := StripPadding(RemoveWhitespace(s));
      r.Some? ==> |u| % 4 != 1 && |r.value| == 3 * |u| / 4
    ensures var u := StripPadding(RemoveWhitespace(s));
      r.None? <==> |u| % 4 == 1 || !InAlphabet(u)
  {
    var u := StripPadding(RemoveWhitespace(s));
    SextetsOfRejects(u);
    if |u| % 4 == 1 then None
    else match SextetsOf(u)
      case None => None
      case Some(vs) => Some(Octets(vs))
  }

  /** Regrouping the sextets of three bytes gives back the bytes. */
  lemma GroupRoundTrip(b0: byte, b1: byte, b2: byte)
    ensures var g := GroupSextets(b0, b1, b2); GroupOctets(g[0], g[1], g[2], g[3]) == [b0, b1, b2]
  {
  }

  /** Octets undoes Sextets. */
  lemma {:induction false} OctetsSextets(bytes: seq<byte>)
    ensures |Sextets(bytes)| % 4 != 1
    ensures Octets(Sextets(bytes)) == bytes
    decreases |bytes|
  {
    var vs := Sextets(bytes);
    if |bytes| == 1 {
      GroupRoundTrip(bytes[0], 0, 0);
    } else if |bytes| == 2 {
      GroupRoundTrip(bytes[0], bytes[1], 0);
    } else if |bytes| >= 3 {
      var g := GroupSextets(bytes[0], bytes[1], bytes[2]);
      OctetsSextets(bytes[3..]);
      GroupRoundTrip(bytes[0], bytes[1], bytes[2]);
      assert vs[..4] == g && vs[4..] == Sextets(bytes[3..]);
      assert Octets(vs) == GroupOctets(g[0], g[1], g[2], g[3]) + Octets(vs[4..]);
      assert bytes == bytes[..3] + bytes[3..];
    }
  }

  /** Every character of an encoding's body maps back to its sextet. */
  lemma {:induction false} SextetsOfChars(vs: seq<sextet>)
    ensures SextetsOf(Chars(vs)) == Some(vs)
    decreases |vs|
  {
    if vs != [] {
      SextetOfCharOf(vs[0]);
      assert Chars(vs)[1..] == Chars(vs[1..]);
      SextetsOfChars(vs[1..]);
      assert vs == [vs[0]] + vs[1..];
    }
  }

  /** An encoding holds no whitespace, so atob keeps all of it. */
  lemma RemoveWhitespaceOfEncode(bytes: seq<byte>)
    ensures RemoveWhitespace(Encode(bytes)) == Encode(bytes)
  {
    var vs := Sextets(bytes);
    var t := Encode(bytes);
    forall i | 0 <= i < |t| ensures !IsAsciiWhitespace(t[i]) {
      if i < |vs| { assert t[i] == CharOf(vs[i]); }
    }
  }

  /** atob reduces an encoding to its unpadded body. */
  lemma StripPaddingOfEncode(bytes: seq<byte>)
    ensures StripPadding(RemoveWhitespace(Encode(bytes))) == Chars(Sextets(bytes))
  {
    RemoveWhitespaceOfEncode(bytes);
    StripPaddingOfBody(bytes);
  }

  /** The unpadded body is what StripPadding leaves of an encoding. */
  lemma StripPaddingOfBody(bytes: seq<byte>)
    ensures StripPadding(Encode(bytes)) == Chars(Sextets(bytes))
  {
    var vs := Sextets(bytes);
    var body := Chars(vs);
    var t := Encode(bytes);
    assert t == body + Padding(|bytes|);
    assert |t| % 4 == 0;
    var n := |bytes|;
    if n % 3 == 1 {
      assert t[..|t| - 2] == body;
    } else if n % 3 == 2 {
      assert |body| >= 1;
      assert t[|t| - 2] == body[|body| - 1] == CharOf(vs[|body| - 1]);
      assert t[..|t| - 1] == body;
    } else if |t| >= 1 {
      assert t == body;
      assert t[|t| - 1] == CharOf(vs[|t| - 1]);
    }
  }

  /** The base64 round trip: decoding an encoding gives back the bytes. */
  lemma DecodeEncode(bytes: seq<byte>)
    ensures Decode(Encode(bytes)) == Some(bytes)
  {
    StripPaddingOfEncode(bytes);
    OctetsSextets(bytes);
    SextetsOfChars(Sextets(bytes));
  }

  /** A binary string: one character per byte, with char code equal to the byte. */
  predicate IsBinary(s: string)
  {
    forall i :: 0 <= i < |s| ==> s[i] as int < 256
  }

  function BinaryString(bytes: seq<byte>): (s: string)
    ensures IsBinary(s)
    ensures |s| == |bytes| && forall i :: 0 <= i < |bytes| ==> s[i] as int == bytes[i]
  {
    seq(|bytes|, i requires 0 <= i < |bytes| => bytes[i] as char)
  }

  /** btoa: None where it throws InvalidCharacterError. */
  function Btoa(s: string): (r: Option<string>)
    ensures r.Some? <==> IsBinary(s)
  {
    if IsBinary(s) then Some(Encode(seq(|s|, i requires 0 <= i < |s| => s[i] as int as byte)))
    else None
  }

  /** atob: None where it throws InvalidCharacterError. */
  function Atob(s: string): (r: Option<string>)
    ensures r.Some? ==> IsBinary(r.value)
    ensures r.Some? <==> Decode(s).Some?
  {
    match Decode(s)
    case None => None
    case Some(bytes) => Some(BinaryString(bytes))
  }

  /** atob undoes btoa on every binary string. */
  lemma AtobBtoa(bytes: seq<byte>)
    ensures Btoa(BinaryString(bytes)) == Some(Encode(bytes))
    ensures Atob(Encode(bytes)) == Some(BinaryString(bytes))
  {
    var s := BinaryString(bytes);
    assert seq(|s|, i requires 0 <= i < |s| => s[i] as int as byte) == bytes;
    DecodeEncode(bytes);
  }
}
