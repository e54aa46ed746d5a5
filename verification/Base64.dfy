/** Standard base64 (section 4 of RFC 4648): the encoder, the strict decoder that
    skips CR and LF, and the canonical 32-byte key check built from both. */
module Base64 {
  import opened Wrappers

  type Byte = b: nat | b < 256

  /** The alphabet, with the two characters that differ between its variants. */
  datatype Alphabet = Alphabet(c62: char, c63: char)

  const STANDARD := Alphabet('+', '/')
  const URL_SAFE := Alphabet('-', '_')

  function EncodeSextet(a: Alphabet, x: nat): char
    requires x < 64
  {
    if x < 26 then ('A' as int + x) as char
    else if x < 52 then ('a' as int + x - 26) as char
    else if x < 62 then ('0' as int + x - 52) as char
    else if x == 62 then a.c62
    else a.c63
  }

  function DecodeSextet(c: char): (x: Option<nat>)
    ensures x.Some? ==> x.value < 64 && EncodeSextet(STANDARD, x.value) == c
  {
    if 'A' <= c <= 'Z' then Some(c as int - 'A' as int)
    else if 'a' <= c <= 'z' then Some(c as int - 'a' as int + 26)
    else if '0' <= c <= '9' then Some(c as int - '0' as int + 52)
    else if c == '+' then Some(62)
    else if c == '/' then Some(63)
    else None
  }

  lemma SextetRoundTrip(x: nat)
    requires x < 64
    ensures DecodeSextet(EncodeSextet(STANDARD, x)) == Some(x)
    ensures EncodeSextet(STANDARD, x) != '='
  {
  }

  /** Padded encoding, three bytes to four characters. */
  function Encode(b: seq<Byte>): string {
    if b == [] then ""
    else if |b| == 1 then
      [EncodeSextet(STANDARD, b[0] / 4), EncodeSextet(STANDARD, b[0] % 4 * 16), '=', '=']
    else if |b| == 2 then
      [EncodeSextet(STANDARD, b[0] / 4), EncodeSextet(STANDARD, b[0] % 4 * 16 + b[1] / 16),
       EncodeSextet(STANDARD, b[1] % 16 * 4), '=']
    else Quad(STANDARD, b[0], b[1], b[2]) + Encode(b[3..])
  }

  function Quad(a: Alphabet, x: Byte, y: Byte, z: Byte): string {
    [EncodeSextet(a, x / 4), EncodeSextet(a, x % 4 * 16 + y / 16),
     EncodeSextet(a, y % 16 * 4 + z / 64), EncodeSextet(a, z % 64)]
  }

  /** The three bytes of four sextets. */
  function Bytes(p: nat, q: nat, r: nat, t: nat): seq<Byte>
    requires p < 64 && q < 64 && r < 64 && t < 64
  {
    [p * 4 + q / 16, q % 16 * 16 + r / 4, r % 4 * 64 + t]
  }

  function WithoutLineBreaks(s: string): string {
    if s == "" then ""
    else (if s[0] == '\r' || s[0] == '\n' then "" else [s[0]]) + WithoutLineBreaks(s[1..])
  }

  /** Strict decoding of one quad: padding only in the last one, and no stray bits
      under it. */
  function DecodeQuad(c0: char, c1: char, c2: char, c3: char, last: bool): Option<seq<Byte>> {
    var p, q, r, t := DecodeSextet(c0), DecodeSextet(c1), DecodeSextet(c2), DecodeSextet(c3);
    if p.None? || q.None? then None
    else if c2 == '=' then
      (if c3 == '=' && last && q.value % 16 == 0 then Some([p.value * 4 + q.value / 16]) else None)
    else if r.None? then None
    else if c3 == '=' then
      (if last && r.value % 4 == 0 then Some([p.value * 4 + q.value / 16, q.value % 16 * 16 + r.value / 4]) else None)
    else if t.None? then None
    else Some(Bytes(p.value, q.value, r.value, t.value))
  }

  /** Strict decoding of text without line breaks. */
  function DecodeQuads(s: string): Option<seq<Byte>> {
    if s == "" then Some([])
    else if |s| < 4 then None
    else
      var first := DecodeQuad(s[0], s[1], s[2], s[3], |s| == 4);
      var rest := DecodeQuads(s[4..]);
      if first.None? || rest.None? then None else Some(first.value + rest.value)
  }

  function StrictDecode(s: string): Option<seq<Byte>> {
    DecodeQuads(WithoutLineBreaks(s))
  }

  lemma QuadRoundTrip(x: Byte, y: Byte, z: Byte)
    ensures Bytes(x / 4, x % 4 * 16 + y / 16, y % 16 * 4 + z / 64, z % 64) == [x, y, z]
  {
  }

  lemma BytesRoundTrip(p: nat, q: nat, r: nat, t: nat)
    requires p < 64 && q < 64 && r < 64 && t < 64
    ensures var b := Bytes(p, q, r, t);
            && b[0] / 4 == p && b[0] % 4 * 16 + b[1] / 16 == q
            && b[1] % 16 * 4 + b[2] / 64 == r && b[2] % 64 == t
  {
  }

  /** Up to three bytes are encoded as one quad. */
  predicate IsQuad(s: string, b: seq<Byte>) {
    |s| == 4 && 1 <= |b| <= 3 && Encode(b) == s
  }

  /** The encoding of some bytes is one quad, which decodes to them. */
  predicate QuadDecodesTo(b: seq<Byte>, last: bool) {
    IsQuad(Encode(b), b) && DecodeQuad(Encode(b)[0], Encode(b)[1], Encode(b)[2], Encode(b)[3], last) == Some(b)
  }

  lemma OneByte(b: seq<Byte>)
    requires |b| == 1
    ensures QuadDecodesTo(b, true)
  {
    SextetRoundTrip(b[0] / 4);
    SextetRoundTrip(b[0] % 4 * 16);
    assert b == [b[0]];
  }

  lemma TwoBytes(b: seq<Byte>)
    requires |b| == 2
    ensures QuadDecodesTo(b, true)
  {
    var x, y := b[0], b[1];
    var p, q, r := x / 4, x % 4 * 16 + y / 16, y % 16 * 4;
    SextetRoundTrip(p);
    SextetRoundTrip(q);
    SextetRoundTrip(r);
    assert p * 4 + q / 16 == x && q % 16 * 16 + r / 4 == y && r % 4 == 0;
    assert b == [x, y];
  }

  lemma ThreeBytes(b: seq<Byte>, last: bool)
    requires |b| == 3
    ensures QuadDecodesTo(b, last)
  {
    var x, y, z := b[0], b[1], b[2];
    SextetRoundTrip(x / 4);
    SextetRoundTrip(x % 4 * 16 + y / 16);
    SextetRoundTrip(y % 16 * 4 + z / 64);
    SextetRoundTrip(z % 64);
    QuadRoundTrip(x, y, z);
    assert b[3..] == [] && b == [x, y, z];
  }

  /** The encoding of the first three bytes, or of all there are, decodes to them. */
  lemma QuadDecodes(b: seq<Byte>, last: bool)
    requires 1 <= |b| <= 3 && (last || |b| == 3)
    ensures QuadDecodesTo(b, last)
  {
    if |b| == 1 {
      OneByte(b);
    } else if |b| == 2 {
      TwoBytes(b);
    } else {
      ThreeBytes(b, last);
    }
  }

  /** A quad decodes to exactly the bytes it encodes. */
  lemma QuadEncodes(c0: char, c1: char, c2: char, c3: char, last: bool)
    requires DecodeQuad(c0, c1, c2, c3, last).Some?
    ensures IsQuad([c0, c1, c2, c3], DecodeQuad(c0, c1, c2, c3, last).value)
    ensures last || |DecodeQuad(c0, c1, c2, c3, last).value| == 3
  {
    var b := DecodeQuad(c0, c1, c2, c3, last).value;
    var p, q := DecodeSextet(c0).value, DecodeSextet(c1).value;
    if c2 == '=' {
      assert b[0] / 4 == p && b[0] % 4 * 16 == q;
    } else if c3 == '=' {
      var r := DecodeSextet(c2).value;
      assert b[0] / 4 == p && b[0] % 4 * 16 + b[1] / 16 == q && b[1] % 16 * 4 == r;
    } else {
      BytesRoundTrip(p, q, DecodeSextet(c2).value, DecodeSextet(c3).value);
      assert b[3..] == [];
    }
  }

  /** Encoding goes quad by quad. */
  lemma EncodeConcat(b: seq<Byte>, rest: seq<Byte>)
    requires |b| == 3
    ensures Encode(b + rest) == Encode(b) + Encode(rest)
  {
    assert (b + rest)[3..] == rest && b[3..] == [];
  }

  /** Decoding undoes encoding. */
  lemma {:induction false} DecodeEncode(b: seq<Byte>)
    ensures DecodeQuads(Encode(b)) == Some(b)
  {
    if 1 <= |b| <= 3 {
      QuadDecodes(b, true);
      assert Encode(b)[4..] == "" && b + [] == b;
    } else if b != [] {
      var first, rest := b[..3], b[3..];
      QuadDecodes(first, false);
      EncodeConcat(first, rest);
      DecodeEncode(rest);
      assert b == first + rest;
      QuadThenRest(Encode(first), first, Encode(rest), rest);
    }
  }

  lemma QuadThenRest(s: string, b: seq<Byte>, tail: string, rest: seq<Byte>)
    requires |s| == 4 && DecodeQuad(s[0], s[1], s[2], s[3], false) == Some(b)
    requires tail != "" && DecodeQuads(tail) == Some(rest)
    ensures DecodeQuads(s + tail) == Some(b + rest)
  {
    assert (s + tail)[4..] == tail;
  }

  lemma EncodeLength(b: seq<Byte>)
    ensures b != [] ==> Encode(b) != ""
  {
  }

  lemma EncodeJoined(quad: string, first: seq<Byte>, tail: string, rest: seq<Byte>)
    requires IsQuad(quad, first) && Encode(rest) == tail && (|first| == 3 || tail == "")
    ensures Encode(first + rest) == quad + tail
  {
    if |first| < 3 {
      assert rest == [] by {
        EncodeLength(rest);
      }
      assert first + rest == first && quad + tail == quad;
    } else {
      EncodeConcat(first, rest);
    }
  }

  /** Decodable text starts with a quad, the last one or one of three bytes. */
  lemma StartsWithQuad(s: string) returns (first: seq<Byte>, rest: seq<Byte>)
    requires DecodeQuads(s).Some? && s != ""
    ensures |s| >= 4 && IsQuad(s[..4], first) && DecodeQuads(s[4..]) == Some(rest)
    ensures DecodeQuads(s).value == first + rest
    ensures |first| == 3 || s[4..] == ""
  {
    first, rest := DecodeQuad(s[0], s[1], s[2], s[3], |s| == 4).value, DecodeQuads(s[4..]).value;
    QuadEncodes(s[0], s[1], s[2], s[3], |s| == 4);
    assert s[..4] == [s[0], s[1], s[2], s[3]];
  }

  /** Encoding undoes strict decoding. */
  lemma {:induction false} EncodeDecode(s: string)
    requires DecodeQuads(s).Some?
    ensures Encode(DecodeQuads(s).value) == s
  {
    if s != "" {
      var first, rest := StartsWithQuad(s);
      EncodeDecode(s[4..]);
      EncodeJoined(s[..4], first, s[4..], rest);
      assert s == s[..4] + s[4..];
    }
  }

  lemma {:induction false} EncodingHasNoLineBreaks(b: seq<Byte>)
    ensures '\r' !in Encode(b) && '\n' !in Encode(b)
  {
    if |b| > 2 {
      EncodingHasNoLineBreaks(b[3..]);
    }
  }

  predicate StandardChar(c: char) {
    'A' <= c <= 'Z' || 'a' <= c <= 'z' || '0' <= c <= '9' || c == '+' || c == '/' || c == '='
  }

  /** Encodings use the standard alphabet and padding only; 32 bytes give 44 characters. */
  lemma {:induction false} EncodeShape(b: seq<Byte>)
    ensures forall i :: 0 <= i < |Encode(b)| ==> StandardChar(Encode(b)[i])
    ensures |Encode(b)| == (|b| + 2) / 3 * 4
  {
    if |b| > 2 {
      EncodeShape(b[3..]);
    }
  }

  lemma {:induction false} NothingToSkip(s: string)
    ensures '\r' !in s && '\n' !in s <==> WithoutLineBreaks(s) == s
    ensures |WithoutLineBreaks(s)| <= |s|
  {
    if s != "" {
      NothingToSkip(s[1..]);
      assert s == [s[0]] + s[1..];
      if s[0] != '\r' && s[0] != '\n' {
        assert WithoutLineBreaks(s)[1..] == WithoutLineBreaks(s[1..]);
      }
    }
  }

  /** The strict decoder alone accepts exactly the encodings with CR and LF sprinkled in. */
  lemma StrictDecodeExact(s: string, b: seq<Byte>)
    ensures StrictDecode(s) == Some(b) <==> WithoutLineBreaks(s) == Encode(b)
  {
    if StrictDecode(s) == Some(b) {
      EncodeDecode(WithoutLineBreaks(s));
    }
    DecodeEncode(b);
  }

  lemma EncodeInjective(a: seq<Byte>, b: seq<Byte>)
    requires Encode(a) == Encode(b)
    ensures a == b
  {
    DecodeEncode(a);
    DecodeEncode(b);
  }

  // ---- keys -----------------------------------------------------------------------

  /** The key check as the code runs it: strict decode, 32 bytes, re-encode. */
  predicate KeyCheck(s: string) {
    StrictDecode(s).Some? && |StrictDecode(s).value| == 32 && Encode(StrictDecode(s).value) == s
  }

  predicate EncodesKey(s: string, key: seq<Byte>) {
    |key| == 32 && Encode(key) == s
  }

  /** The padded encoding of some 32 bytes. */
  ghost predicate CanonicalKey(s: string) {
    exists key: seq<Byte> :: EncodesKey(s, key)
  }

  /** The check accepts exactly the padded encodings of 32 bytes, each of one array only. */
  lemma KeyCheckExact(s: string)
    ensures KeyCheck(s) <==> CanonicalKey(s)
    ensures forall key :: EncodesKey(s, key) ==> StrictDecode(s) == Some(key)
  {
    if KeyCheck(s) {
      assert EncodesKey(s, StrictDecode(s).value);
    }
    forall key | EncodesKey(s, key) ensures StrictDecode(s) == Some(key) {
      KeyDecodes(key);
    }
  }

  lemma KeyDecodes(key: seq<Byte>)
    ensures StrictDecode(Encode(key)) == Some(key)
  {
    EncodingHasNoLineBreaks(key);
    NothingToSkip(Encode(key));
    DecodeEncode(key);
  }

  /** Re-encoding rejects exactly the line breaks that the decoder skips. */
  lemma ReencodingRejectsLineBreaks(s: string)
    requires StrictDecode(s).Some? && |StrictDecode(s).value| == 32
    ensures KeyCheck(s) <==> '\r' !in s && '\n' !in s
  {
    StrictDecodeExact(s, StrictDecode(s).value);
    NothingToSkip(s);
  }

  // ---- unpadded URL-safe passwords ---------------------------------------------------

  /** base64.RawURLEncoding. */
  function EncodeUrl(b: seq<Byte>): string {
    if b == [] then ""
    else if |b| == 1 then [EncodeSextet(URL_SAFE, b[0] / 4), EncodeSextet(URL_SAFE, b[0] % 4 * 16)]
    else if |b| == 2 then
      [EncodeSextet(URL_SAFE, b[0] / 4), EncodeSextet(URL_SAFE, b[0] % 4 * 16 + b[1] / 16),
       EncodeSextet(URL_SAFE, b[1] % 16 * 4)]
    else Quad(URL_SAFE, b[0], b[1], b[2]) + EncodeUrl(b[3..])
  }

  predicate UrlSafe(c: char) {
    'A' <= c <= 'Z' || 'a' <= c <= 'z' || '0' <= c <= '9' || c == '-' || c == '_'
  }

  /** Generated passwords use the URL-safe alphabet only; 32 bytes give 43 characters. */
  lemma {:induction false} EncodeUrlShape(b: seq<Byte>)
    ensures forall i :: 0 <= i < |EncodeUrl(b)| ==> UrlSafe(EncodeUrl(b)[i])
    ensures |EncodeUrl(b)| == (|b| * 4 + 2) / 3
  {
    if |b| > 2 {
      EncodeUrlShape(b[3..]);
    }
  }

  lemma UrlSextetInjective(x: nat, y: nat)
    requires x < 64 && y < 64 && EncodeSextet(URL_SAFE, x) == EncodeSextet(URL_SAFE, y)
    ensures x == y
  {
  }

  lemma UrlQuadInjective(x: Byte, y: Byte, z: Byte, x': Byte, y': Byte, z': Byte)
    requires Quad(URL_SAFE, x, y, z) == Quad(URL_SAFE, x', y', z')
    ensures x == x' && y == y' && z == z'
  {
    var a, b := Quad(URL_SAFE, x, y, z), Quad(URL_SAFE, x', y', z');
    assert a[0] == b[0] && a[1] == b[1] && a[2] == b[2] && a[3] == b[3];
    UrlSextetInjective(x / 4, x' / 4);
    UrlSextetInjective(x % 4 * 16 + y / 16, x' % 4 * 16 + y' / 16);
    UrlSextetInjective(y % 16 * 4 + z / 64, y' % 16 * 4 + z' / 64);
    UrlSextetInjective(z % 64, z' % 64);
  }

  /** Different bytes give different passwords. */
  lemma {:induction false} EncodeUrlInjective(a: seq<Byte>, b: seq<Byte>)
    requires |a| == |b| && EncodeUrl(a) == EncodeUrl(b)
    ensures a == b
  {
    if |a| == 1 {
      assert EncodeUrl(a)[0] == EncodeUrl(b)[0] && EncodeUrl(a)[1] == EncodeUrl(b)[1];
      UrlSextetInjective(a[0] / 4, b[0] / 4);
      UrlSextetInjective(a[0] % 4 * 16, b[0] % 4 * 16);
    } else if |a| == 2 {
      var s, t := EncodeUrl(a), EncodeUrl(b);
      assert s[0] == t[0] && s[1] == t[1] && s[2] == t[2];
      UrlSextetInjective(a[0] / 4, b[0] / 4);
      UrlSextetInjective(a[0] % 4 * 16 + a[1] / 16, b[0] % 4 * 16 + b[1] / 16);
      UrlSextetInjective(a[1] % 16 * 4, b[1] % 16 * 4);
    } else if |a| > 2 {
      assert EncodeUrl(a)[..4] == Quad(URL_SAFE, a[0], a[1], a[2]) && EncodeUrl(a)[4..] == EncodeUrl(a[3..]);
      assert EncodeUrl(b)[..4] == Quad(URL_SAFE, b[0], b[1], b[2]) && EncodeUrl(b)[4..] == EncodeUrl(b[3..]);
      UrlQuadInjective(a[0], a[1], a[2], b[0], b[1], b[2]);
      EncodeUrlInjective(a[3..], b[3..]);
      assert a == a[..3] + a[3..] && b == b[..3] + b[3..];
    }
  }
}
