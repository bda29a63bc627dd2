// The browser's `atob`: the forgiving base64 decode of the WHATWG HTML
// standard over the alphabet of section 4 of RFC 4648. It yields a "binary
// string" whose characters all have codes below 256. The encoder (the
// standard padded encoding of RFC 4648 section 4) is the partner that the
// round trip is proved against.

module Base64 {
  import opened Types

  /** ASCII whitespace as the forgiving decode strips it: TAB, LF, FF, CR, SPACE. */
  predicate IsAsciiWhitespace(c: char) {
    c == '\t' || c == '\n' || c as int == 0x0C || c == '\r' || c == ' '
  }

  predicate InAlphabet(c: char) {
    ('A' <= c <= 'Z') || ('a' <= c <= 'z') || ('0' <= c <= '9') || c == '+' || c == '/'
  }

  predicate AllInAlphabet(s: string) {
    forall i :: 0 <= i < |s| ==> InAlphabet(s[i])
  }

  /** The 6-bit value a character of the alphabet stands for. */
  function SextetValue(c: char): (v: int)
    requires InAlphabet(c)
    ensures 0 <= v < 64
  {
    if 'A' <= c <= 'Z' then c as int - 'A' as int
    else if 'a' <= c <= 'z' then c as int - 'a' as int + 26
    else if '0' <= c <= '9' then c as int - '0' as int + 52
    else if c == '+' then 62
    else 63
  }

  /** The character of the alphabet that stands for a 6-bit value. */
  function SextetChar(v: int): (c: char)
    requires 0 <= v < 64
    ensures InAlphabet(c) && SextetValue(c) == v
  {
    if v < 26 then ('A' as int + v) as char
    else if v < 52 then ('a' as int + v - 26) as char
    else if v < 62 then ('0' as int + v - 52) as char
    else if v == 62 then '+'
    else '/'
  }

  lemma SextetCharOfValue(c: char)
    requires InAlphabet(c)
    ensures SextetChar(SextetValue(c)) == c
  {
  }

  /** The characters of `s` that are not ASCII whitespace, in order. */
  function StripWhitespace(s: string): (r: string)
    ensures |r| <= |s|
    ensures forall i :: 0 <= i < |r| ==> !IsAsciiWhitespace(r[i])
  {
    if s == [] then []
    else (if IsAsciiWhitespace(s[0]) then [] else [s[0]]) + StripWhitespace(s[1..])
  }

  /** Stripping works character by character: it distributes over concatenation. */
  lemma {:induction false} StripWhitespaceAppend(a: string, b: string)
    ensures StripWhitespace(a + b) == StripWhitespace(a) + StripWhitespace(b)
  {
    if a == [] {
      assert a + b == b;
    } else {
      assert (a + b)[0] == a[0] && (a + b)[1..] == a[1..] + b;
      StripWhitespaceAppend(a[1..], b);
    }
  }

  /** A single character is dropped exactly when it is ASCII whitespace. */
  lemma StripWhitespaceSingle(c: char)
    ensures StripWhitespace([c]) == if IsAsciiWhitespace(c) then [] else [c]
  {
    assert [c][1..] == [];
  }

  /** When the length is a multiple of four, drop one or two trailing '='. */
  function RemovePadding(s: string): string {
    if |s| % 4 == 0 && |s| >= 2 && s[|s| - 1] == '=' && s[|s| - 2] == '=' then s[..|s| - 2]
    else if |s| % 4 == 0 && |s| >= 1 && s[|s| - 1] == '=' then s[..|s| - 1]
    else s
  }

  /** The three bytes that four sextets carry. */
  function DecodeQuad(s0: int, s1: int, s2: int, s3: int): (r: seq<uint8>)
    requires 0 <= s0 < 64 && 0 <= s1 < 64 && 0 <= s2 < 64 && 0 <= s3 < 64
    ensures |r| == 3
  {
    [s0 * 4 + s1 / 16, (s1 % 16) * 16 + s2 / 4, (s2 % 4) * 64 + s3]
  }

  /**
   * Decodes characters of the alphabet, 24 bits per four characters; a tail
   * of 3 (2) characters gives 2 (1) bytes and its spare low bits are dropped.
   */
  function DecodeSextets(t: string): (r: seq<uint8>)
    requires AllInAlphabet(t) && |t| % 4 != 1
    decreases |t|
  {
    if |t| >= 4 then
      DecodeQuad(SextetValue(t[0]), SextetValue(t[1]), SextetValue(t[2]), SextetValue(t[3]))
        + DecodeSextets(t[4..])
    else if |t| == 3 then
      DecodeQuad(SextetValue(t[0]), SextetValue(t[1]), SextetValue(t[2]), 0)[..2]
    else if |t| == 2 then
      DecodeQuad(SextetValue(t[0]), SextetValue(t[1]), 0, 0)[..1]
    else []
  }

  /** The string whose character codes are the given bytes. */
  function BinaryString(b: seq<uint8>): (s: string)
    ensures |s| == |b|
    ensures forall i :: 0 <= i < |b| ==> s[i] as int == b[i]
  {
    seq(|b|, i requires 0 <= i < |b| => b[i] as char)
  }

  /**
   * `atob(s)`: `None` is the InvalidCharacterError it throws. A result's
   * characters all have codes below 256.
   */
  function Atob(s: string): (r: Option<string>)
    ensures r.Some? ==> forall i :: 0 <= i < |r.value| ==> r.value[i] as int < 256
    ensures r.Some? <==>
      var data := RemovePadding(StripWhitespace(s)); |data| % 4 != 1 && AllInAlphabet(data)
  {
    var data := RemovePadding(StripWhitespace(s));
    if |data| % 4 == 1 || !AllInAlphabet(data) then None
    else Some(BinaryString(DecodeSextets(data)))
  }

  /** Three bytes as four characters, six bits each, most significant first. */
  function EncodeTriple(b0: uint8, b1: uint8, b2: uint8): (s: string)
    ensures |s| == 4 && AllInAlphabet(s)
  {
    [SextetChar(b0 / 4), SextetChar((b0 % 4) * 16 + b1 / 16), SextetChar((b1 % 16) * 4 + b2 / 64), SextetChar(b2 % 64)]
  }

  /** A final pair of bytes as three characters, the last padded with zero bits. */
  function EncodePair(b0: uint8, b1: uint8): (s: string)
    ensures |s| == 3 && AllInAlphabet(s)
  {
    [SextetChar(b0 / 4), SextetChar((b0 % 4) * 16 + b1 / 16), SextetChar((b1 % 16) * 4)]
  }

  /** A final single byte as two characters, the last padded with zero bits. */
  function EncodeSingle(b0: uint8): (s: string)
    ensures |s| == 2 && AllInAlphabet(s)
  {
    [SextetChar(b0 / 4), SextetChar((b0 % 4) * 16)]
  }

  /** The unpadded RFC 4648 encoding: 3 bytes to 4 characters, a 1- or 2-byte tail to 2 or 3. */
  function EncodeUnpadded(b: seq<uint8>): (s: string)
    ensures AllInAlphabet(s)
    decreases |b|
  {
    if |b| >= 3 then EncodeTriple(b[0], b[1], b[2]) + EncodeUnpadded(b[3..])
    else if |b| == 2 then EncodePair(b[0], b[1])
    else if |b| == 1 then EncodeSingle(b[0])
    else []
  }

  /** The '=' characters that fill the last group of four. */
  function Padding(n: nat): (p: string)
    ensures (|p| == 0 || p[|p| - 1] == '=') && (|p| == 2 ==> p[0] == '=')
  {
    if n % 3 == 1 then "==" else if n % 3 == 2 then "=" else ""
  }

  /** The padded encoding of section 4 of RFC 4648 (what `btoa` produces). */
  function Encode(b: seq<uint8>): string {
    EncodeUnpadded(b) + Padding(|b|)
  }

  lemma EncodeUnpaddedStep(b: seq<uint8>)
    requires |b| >= 3
    ensures |EncodeUnpadded(b)| == 4 + |EncodeUnpadded(b[3..])|
  {
  }

  lemma ShiftMod(x: nat, y: nat)
    ensures (x + 4) % 4 == x % 4 && (y + 3) % 3 == y % 3
  {
  }

  /** Four characters per three bytes; a tail of k bytes takes k + 1 characters. */
  lemma {:induction false} EncodeUnpaddedLength(b: seq<uint8>)
    ensures |EncodeUnpadded(b)| % 4 == (if |b| % 3 == 0 then 0 else |b| % 3 + 1)
    decreases |b|
  {
    if |b| >= 3 {
      EncodeUnpaddedLength(b[3..]);
      EncodeUnpaddedStep(b);
      ShiftMod(|EncodeUnpadded(b[3..])|, |b[3..]|);
    }
  }

  /** The sextets of an encoded triple, read back. */
  lemma TripleSextets(b0: uint8, b1: uint8, b2: uint8)
    ensures var e := EncodeTriple(b0, b1, b2);
      SextetValue(e[0]) == b0 / 4 && SextetValue(e[1]) == (b0 % 4) * 16 + b1 / 16
      && SextetValue(e[2]) == (b1 % 16) * 4 + b2 / 64 && SextetValue(e[3]) == b2 % 64
  {
  }

  /** Regrouping 24 bits as four sextets and back gives the three bytes. */
  lemma QuadOfBytes(b0: uint8, b1: uint8, b2: uint8)
    ensures DecodeQuad(b0 / 4, (b0 % 4) * 16 + b1 / 16, (b1 % 16) * 4 + b2 / 64, b2 % 64) == [b0, b1, b2]
  {
  }

  lemma DecodeTriple(b0: uint8, b1: uint8, b2: uint8)
    ensures var e := EncodeTriple(b0, b1, b2);
      DecodeQuad(SextetValue(e[0]), SextetValue(e[1]), SextetValue(e[2]), SextetValue(e[3])) == [b0, b1, b2]
  {
    TripleSextets(b0, b1, b2);
    QuadOfBytes(b0, b1, b2);
  }

  lemma DecodePair(b0: uint8, b1: uint8)
    ensures var e := EncodePair(b0, b1);
      DecodeQuad(SextetValue(e[0]), SextetValue(e[1]), SextetValue(e[2]), 0)[..2] == [b0, b1]
  {
    var e := EncodePair(b0, b1);
    assert SextetValue(e[0]) == b0 / 4 && SextetValue(e[1]) == (b0 % 4) * 16 + b1 / 16
      && SextetValue(e[2]) == (b1 % 16) * 4;
    QuadOfBytes(b0, b1, 0);
  }

  lemma DecodeSingle(b0: uint8)
    ensures var e := EncodeSingle(b0);
      DecodeQuad(SextetValue(e[0]), SextetValue(e[1]), 0, 0)[..1] == [b0]
  {
    var e := EncodeSingle(b0);
    assert SextetValue(e[0]) == b0 / 4 && SextetValue(e[1]) == (b0 % 4) * 16;
    QuadOfBytes(b0, 0, 0);
  }

  /** Decoding splits at every multiple of four characters. */
  lemma DecodeSextetsAppend(q: string, t: string)
    requires |q| == 4 && AllInAlphabet(q) && AllInAlphabet(t) && |t| % 4 != 1
    ensures AllInAlphabet(q + t) && |q + t| % 4 != 1
    ensures DecodeSextets(q + t)
         == DecodeQuad(SextetValue(q[0]), SextetValue(q[1]), SextetValue(q[2]), SextetValue(q[3])) + DecodeSextets(t)
  {
    assert forall i :: 0 <= i < |q + t| ==> (q + t)[i] == if i < 4 then q[i] else t[i - 4];
    assert (q + t)[4..] == t;
  }

  lemma {:induction false} DecodeEncodeUnpadded(b: seq<uint8>)
    ensures |EncodeUnpadded(b)| % 4 != 1
    ensures DecodeSextets(EncodeUnpadded(b)) == b
    decreases |b|
  {
    EncodeUnpaddedLength(b);
    if |b| >= 3 {
      DecodeEncodeUnpadded(b[3..]);
      DecodeEncodeGroup(b);
    } else {
      DecodeEncodeTail(b);
    }
  }

  /** One group of three bytes, given the round trip of the rest. */
  lemma DecodeEncodeGroup(b: seq<uint8>)
    requires |b| >= 3 && |EncodeUnpadded(b)| % 4 != 1
    requires |EncodeUnpadded(b[3..])| % 4 != 1 && DecodeSextets(EncodeUnpadded(b[3..])) == b[3..]
    ensures DecodeSextets(EncodeUnpadded(b)) == b
  {
    var q, rest := EncodeTriple(b[0], b[1], b[2]), EncodeUnpadded(b[3..]);
    assert EncodeUnpadded(b) == q + rest;
    DecodeTriple(b[0], b[1], b[2]);
    assert b[..3] == [b[0], b[1], b[2]];
    GroupRoundTrip(b, q, rest);
  }

  lemma GroupRoundTrip(b: seq<uint8>, q: string, rest: string)
    requires |b| >= 3 && |q| == 4 && AllInAlphabet(q) && AllInAlphabet(rest) && |rest| % 4 != 1
    requires DecodeQuad(SextetValue(q[0]), SextetValue(q[1]), SextetValue(q[2]), SextetValue(q[3])) == b[..3]
    requires DecodeSextets(rest) == b[3..]
    ensures AllInAlphabet(q + rest) && |q + rest| % 4 != 1
    ensures DecodeSextets(q + rest) == b
  {
    DecodeSextetsAppend(q, rest);
    assert b == b[..3] + b[3..];
  }

  /** A tail of fewer than three bytes. */
  lemma DecodeEncodeTail(b: seq<uint8>)
    requires |b| < 3
    ensures |EncodeUnpadded(b)| % 4 != 1
    ensures DecodeSextets(EncodeUnpadded(b)) == b
  {
    if |b| == 2 {
      DecodePair(b[0], b[1]);
      assert b == [b[0], b[1]];
    } else if |b| == 1 {
      DecodeSingle(b[0]);
      assert b == [b[0]];
    }
  }

  lemma {:induction false} StripWhitespaceNoop(s: string)
    requires forall i :: 0 <= i < |s| ==> !IsAsciiWhitespace(s[i])
    ensures StripWhitespace(s) == s
  {
    if s != [] {
      StripWhitespaceNoop(s[1..]);
      assert s == [s[0]] + s[1..];
    }
  }

  /** Dropping the padding of a complete last group recovers the alphabet characters. */
  lemma RemovePaddingOfPadded(u: string, p: string)
    requires AllInAlphabet(u) && |p| <= 2 && (|u + p| % 4 == 0)
    requires (|p| == 0 || p[|p| - 1] == '=') && (|p| == 2 ==> p[0] == '=')
    ensures RemovePadding(u + p) == u
  {
    var e := u + p;
    if |p| == 2 {
      assert e[..|e| - 2] == u;
    } else if |p| == 1 {
      assert e[..|e| - 1] == u;
      if |u| > 0 { assert e[|e| - 2] == u[|u| - 1]; }
    } else {
      assert e == u;
      if |u| > 0 { assert InAlphabet(e[|e| - 1]); }
    }
  }

  /** Decoding a padded string of alphabet characters. */
  lemma AtobPadded(u: string, p: string, b: seq<uint8>)
    requires AllInAlphabet(u) && |u| % 4 != 1 && DecodeSextets(u) == b
    requires |p| <= 2 && (|u + p| % 4 == 0)
    requires (|p| == 0 || p[|p| - 1] == '=') && (|p| == 2 ==> p[0] == '=')
    ensures Atob(u + p) == Some(BinaryString(b))
  {
    forall i | 0 <= i < |u + p| ensures !IsAsciiWhitespace((u + p)[i]) {
      if i < |u| { assert (u + p)[i] == u[i] && InAlphabet(u[i]); }
    }
    StripWhitespaceNoop(u + p);
    RemovePaddingOfPadded(u, p);
  }

  /** `atob` inverts the padded encoding, giving the bytes as a binary string. */
  lemma AtobEncode(b: seq<uint8>)
    ensures Atob(Encode(b)) == Some(BinaryString(b))
  {
    var u, p := EncodeUnpadded(b), Padding(|b|);
    DecodeEncodeUnpadded(b);
    PaddedLength(b);
    AtobPadded(u, p, b);
  }

  /** The padding completes the last group of four. */
  lemma PaddedLength(b: seq<uint8>)
    ensures |EncodeUnpadded(b) + Padding(|b|)| % 4 == 0
  {
    var k := |EncodeUnpadded(b)|;
    EncodeUnpaddedLength(b);
    var j := |Padding(|b|)|;
    assert k % 4 + j == 4 || k % 4 + j == 0;
    GroupComplete(k, j);
  }

  lemma GroupComplete(k: nat, j: nat)
    requires k % 4 + j == 4 || k % 4 + j == 0
    ensures (k + j) % 4 == 0
  {
    var q := k / 4;
    assert k == 4 * q + k % 4;
    assert k + j == 4 * q + (k % 4 + j);
  }
}
