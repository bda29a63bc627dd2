// PCM/WAV codec of the synthesis service: base64 segments are decoded to
// bytes, concatenated in order and prefixed with a canonical 44-byte
// RIFF/WAVE header (PCM, mono, 16 bits per sample).

module Wav {
  import opened Types
  import Base64

  const DefaultSampleRate: int := 24000
  const HeaderSize: nat := 44

  // ---------------------------------------------------------------------
  // Fixed-width unsigned integers as DataView writes and reads them
  // ---------------------------------------------------------------------

  function Pow256(n: nat): (p: nat)
    ensures p >= 1
  {
    if n == 0 then 1 else 256 * Pow256(n - 1)
  }

  /** ECMAScript ToUint32 on an integer: reduction modulo 2^32. */
  function ToUint32(x: int): int {
    x % 0x1_0000_0000
  }

  /** ECMAScript ToUint16 on an integer: reduction modulo 2^16. */
  function ToUint16(x: int): int {
    x % 0x1_0000
  }

  /** The `width` low-order bytes of `v` (two's complement for negative `v`), least significant first. */
  function LittleEndian(v: int, width: nat): (r: seq<uint8>)
    ensures |r| == width
    decreases width
  {
    if width == 0 then [] else [v % 256] + LittleEndian(v / 256, width - 1)
  }

  function Reverse(s: seq<uint8>): (r: seq<uint8>)
    ensures |r| == |s|
  {
    if s == [] then [] else Reverse(s[1..]) + [s[0]]
  }

  /** The bytes a `setUint8/16/32(offset, value, littleEndian)` call stores. */
  function FieldBytes(value: int, width: nat, littleEndian: bool): (r: seq<uint8>)
    ensures |r| == width
  {
    if littleEndian then LittleEndian(value, width) else Reverse(LittleEndian(value, width))
  }

  /** The number whose little-endian bytes are `bs`. */
  function FromLittleEndian(bs: seq<uint8>): nat {
    if bs == [] then 0 else bs[0] + 256 * FromLittleEndian(bs[1..])
  }

  /** `getUint16/32(offset, littleEndian)` on the bytes `view`. */
  function GetUint(view: seq<uint8>, offset: nat, width: nat, littleEndian: bool): nat
    requires offset + width <= |view|
  {
    var field := view[offset..offset + width];
    FromLittleEndian(if littleEndian then field else Reverse(field))
  }

  lemma {:induction false} MulAtLeast(m: int, d: int)
    requires m > 0 && d >= 1
    ensures m * d >= m
    decreases d
  {
    if d > 1 {
      MulAtLeast(m, d - 1);
      assert m * d == m * (d - 1) + m;
    }
  }

  /** Euclidean division is unique: the quotient and remainder are determined. */
  lemma DivModUnique(v: int, m: int, q: int, r: int)
    requires m > 0 && v == m * q + r && 0 <= r < m
    ensures v / m == q && v % m == r
  {
    var d := q - v / m;
    assert v == m * (v / m) + v % m;
    assert m * d == v % m - r by {
      assert m * d == m * q - m * (v / m);
    }
    if d >= 1 {
      MulAtLeast(m, d);
    } else if d <= -1 {
      MulAtLeast(m, -d);
    }
  }

  lemma {:induction false} ReverseReverse(s: seq<uint8>)
    ensures Reverse(Reverse(s)) == s
  {
    if s != [] {
      ReverseReverse(s[1..]);
      ReverseAppendByte(Reverse(s[1..]), s[0]);
      assert s == [s[0]] + s[1..];
    }
  }

  lemma {:induction false} ReverseAppendByte(s: seq<uint8>, x: uint8)
    ensures Reverse(s + [x]) == [x] + Reverse(s)
  {
    if s != [] {
      assert (s + [x])[1..] == s[1..] + [x];
      ReverseAppendByte(s[1..], x);
    } else {
      assert [x][1..] == [];
    }
  }

  /** Reading back `width` little-endian bytes yields the value modulo 256^width. */
  lemma {:induction false} FromLittleEndianOf(v: int, width: nat)
    ensures FromLittleEndian(LittleEndian(v, width)) == v % Pow256(width)
    decreases width
  {
    if width > 0 {
      var p := Pow256(width - 1);
      var rest := LittleEndian(v / 256, width - 1);
      FromLittleEndianOf(v / 256, width - 1);
      assert LittleEndian(v, width) == [v % 256] + rest;
      assert ([v % 256] + rest)[1..] == rest;
      assert FromLittleEndian(LittleEndian(v, width)) == v % 256 + 256 * ((v / 256) % p);
      NestedMod(v, p);
    }
  }

  /** The remainder modulo 256p: the low byte, then the remainder of the rest modulo p. */
  lemma NestedMod(v: int, p: nat)
    requires p >= 1
    ensures v % (256 * p) == v % 256 + 256 * ((v / 256) % p)
  {
    var q, r := v / 256, v % 256;
    var a, c := q / p, q % p;
    assert q == p * a + c;
    assert v == 256 * q + r;
    assert v == (256 * p) * a + (256 * c + r) by {
      assert 256 * q == 256 * (p * a) + 256 * c;
      assert 256 * (p * a) == (256 * p) * a;
    }
    assert 0 <= 256 * c + r < 256 * p;
    DivModUnique(v, 256 * p, a, 256 * c + r);
  }

  /** A DataView read at the offset of a DataView write returns the stored value modulo 256^width. */
  lemma GetFieldBytes(value: int, width: nat, littleEndian: bool)
    ensures GetUint(FieldBytes(value, width, littleEndian), 0, width, littleEndian) == value % Pow256(width)
  {
    var f := FieldBytes(value, width, littleEndian);
    assert f[0..width] == f;
    if !littleEndian {
      ReverseReverse(LittleEndian(value, width));
    }
    FromLittleEndianOf(value, width);
  }

  lemma Pow256Widths()
    ensures Pow256(2) == 0x1_0000 && Pow256(4) == 0x1_0000_0000
  {
    assert Pow256(1) == 256;
    assert Pow256(3) == 0x100_0000;
  }

  // ---------------------------------------------------------------------
  // DataView writes on the header buffer
  // ---------------------------------------------------------------------

  /**
   * `target.set(src, offset)` on a typed array: copies `src` to `offset`
   * onwards and touches nothing else.
   */
  method SetBytes(target: array<uint8>, src: seq<uint8>, offset: nat)
    requires offset + |src| <= target.Length
    modifies target
    ensures target[..offset + |src|] == old(target[..offset]) + src
    ensures target[offset + |src|..] == old(target[offset + |src|..])
  {
    for k := 0 to |src|
      invariant target[..offset + k] == old(target[..offset]) + src[..k]
      invariant target[offset + k..] == old(target[offset + k..])
    {
      target[offset + k] := src[k];
      assert src[..k + 1] == src[..k] + [src[k]];
      assert target[..offset + k + 1] == target[..offset + k] + [target[offset + k]];
    }
  }

  /**
   * `DataView.setUint{8*width}(byteOffset, value, littleEndian)`: stores the
   * value's low-order bytes at `byteOffset` and touches nothing else.
   */
  method SetUint(view: array<uint8>, byteOffset: nat, width: nat, value: int, littleEndian: bool)
    requires byteOffset + width <= view.Length
    modifies view
    ensures view[..byteOffset + width] == old(view[..byteOffset]) + FieldBytes(value, width, littleEndian)
    ensures view[byteOffset + width..] == old(view[byteOffset + width..])
  {
    SetBytes(view, FieldBytes(value, width, littleEndian), byteOffset);
  }

  /** The RIFF chunk descriptor: tag, chunk size, format. */
  function RiffDescriptor(totalLength: int): (r: seq<uint8>)
    ensures |r| == 12
  {
    FieldBytes(0x52494646, 4, false)              // "RIFF"
      + FieldBytes(36 + totalLength, 4, true)     // RIFF chunk size
      + FieldBytes(0x57415645, 4, false)          // "WAVE"
  }

  /** The "fmt " sub-chunk: PCM, mono, 16 bits per sample. */
  function FormatChunk(sampleRate: int): (r: seq<uint8>)
    ensures |r| == 24
  {
    FieldBytes(0x666d7420, 4, false)              // "fmt "
      + FieldBytes(16, 4, true)                   // fmt chunk size
      + FieldBytes(1, 2, true)                    // format tag: PCM
      + FieldBytes(1, 2, true)                    // channels: mono
      + FieldBytes(sampleRate, 4, true)           // sample rate
      + FieldBytes(sampleRate * 2, 4, true)       // byte rate
      + FieldBytes(2, 2, true)                    // block align
      + FieldBytes(16, 2, true)                   // bits per sample
  }

  /** The "data" sub-chunk header: tag and payload length. */
  function DataChunkHeader(totalLength: int): (r: seq<uint8>)
    ensures |r| == 8
  {
    FieldBytes(0x64617461, 4, false)              // "data"
      + FieldBytes(totalLength, 4, true)          // data chunk size
  }

  /** The 44 header bytes in file order. */
  function HeaderBytes(totalLength: int, sampleRate: int): (h: seq<uint8>)
    ensures |h| == HeaderSize
  {
    RiffDescriptor(totalLength) + FormatChunk(sampleRate) + DataChunkHeader(totalLength)
  }

  method WriteRiffDescriptor(header: array<uint8>, totalLength: int)
    requires header.Length == HeaderSize
    modifies header
    ensures header[..12] == RiffDescriptor(totalLength)
    ensures header[12..] == old(header[12..])
  {
    SetUint(header, 0, 4, 0x52494646, false);
    SetUint(header, 4, 4, 36 + totalLength, true);
    assert header[..8] == FieldBytes(0x52494646, 4, false) + FieldBytes(36 + totalLength, 4, true);
    SetUint(header, 8, 4, 0x57415645, false);
  }

  method WriteFormatChunk(header: array<uint8>, sampleRate: int)
    requires header.Length == HeaderSize
    modifies header
    ensures header[..36] == old(header[..12]) + FormatChunk(sampleRate)
    ensures header[36..] == old(header[36..])
  {
    ghost var h0 := header[..];
    WriteFormatHead(header);
    ghost var h1 := header[..];
    WriteFormatRates(header, sampleRate);
    ghost var h2 := header[..];
    assert h1[..24] == h0[..12] + FieldBytes(0x666d7420, 4, false) + FieldBytes(16, 4, true)
      + FieldBytes(1, 2, true) + FieldBytes(1, 2, true);
    assert h2[..36] == h1[..24] + FieldBytes(sampleRate, 4, true) + FieldBytes(sampleRate * 2, 4, true)
      + FieldBytes(2, 2, true) + FieldBytes(16, 2, true);
    Regroup(h0[..12], h1[..24], h2[..36], FieldBytes(0x666d7420, 4, false), FieldBytes(16, 4, true), FieldBytes(1, 2, true),
            FieldBytes(1, 2, true), FieldBytes(sampleRate, 4, true), FieldBytes(sampleRate * 2, 4, true), FieldBytes(2, 2, true),
            FieldBytes(16, 2, true));
    assert h2[36..] == h1[36..] == h0[36..];
  }

  /** Two writes of four fields each make one write of all eight. */
  lemma Regroup(x: seq<uint8>, y: seq<uint8>, z: seq<uint8>, a: seq<uint8>, b: seq<uint8>, c: seq<uint8>, d: seq<uint8>,
                e: seq<uint8>, f: seq<uint8>, g: seq<uint8>, h: seq<uint8>)
    requires y == x + a + b + c + d && z == y + e + f + g + h
    ensures z == x + (a + b + c + d + e + f + g + h)
  {
  }

  /** The "fmt " tag, the chunk size, the PCM tag and the channel count, at 12 to 24. */
  method WriteFormatHead(header: array<uint8>)
    requires header.Length == HeaderSize
    modifies header
    ensures header[..24] == old(header[..12]) + FieldBytes(0x666d7420, 4, false) + FieldBytes(16, 4, true)
      + FieldBytes(1, 2, true) + FieldBytes(1, 2, true)
    ensures header[24..] == old(header[24..])
  {
    ghost var acc := old(header[..12]);
    ghost var tail := header[24..];
    SetUint(header, 12, 4, 0x666d7420, false);
    acc := acc + FieldBytes(0x666d7420, 4, false);
    assert header[24..] == header[16..][8..] == tail;
    SetUint(header, 16, 4, 16, true);
    acc := acc + FieldBytes(16, 4, true);
    assert header[24..] == header[20..][4..] == tail;
    SetUint(header, 20, 2, 1, true);
    acc := acc + FieldBytes(1, 2, true);
    assert header[24..] == header[22..][2..] == tail;
    SetUint(header, 22, 2, 1, true);
  }

  /** The sample rate, the byte rate, the block align and the sample width, at 24 to 36. */
  method WriteFormatRates(header: array<uint8>, sampleRate: int)
    requires header.Length == HeaderSize
    modifies header
    ensures header[..36] == old(header[..24]) + FieldBytes(sampleRate, 4, true) + FieldBytes(sampleRate * 2, 4, true)
      + FieldBytes(2, 2, true) + FieldBytes(16, 2, true)
    ensures header[36..] == old(header[36..])
  {
    ghost var tail := header[36..];
    SetUint(header, 24, 4, sampleRate, true);
    assert header[36..] == header[28..][8..] == tail;
    SetUint(header, 28, 4, sampleRate * 2, true);
    assert header[36..] == header[32..][4..] == tail;
    SetUint(header, 32, 2, 2, true);
    assert header[36..] == header[34..][2..] == tail;
    SetUint(header, 34, 2, 16, true);
  }

  method WriteDataChunkHeader(header: array<uint8>, totalLength: int)
    requires header.Length == HeaderSize
    modifies header
    ensures header[..] == old(header[..36]) + DataChunkHeader(totalLength)
  {
    SetUint(header, 36, 4, 0x64617461, false);
    SetUint(header, 40, 4, totalLength, true);
    assert header[..] == header[..44];
  }

  /** The header writes of `mergeAudioSegments` into a fresh, zero-filled 44-byte buffer. */
  method WriteHeader(totalLength: int, sampleRate: int) returns (header: array<uint8>)
    ensures fresh(header)
    ensures header[..] == HeaderBytes(totalLength, sampleRate)
  {
    header := new uint8[HeaderSize];
    WriteRiffDescriptor(header, totalLength);
    WriteFormatChunk(header, sampleRate);
    WriteDataChunkHeader(header, totalLength);
  }

  // ---------------------------------------------------------------------
  // The layout of the header as DataView reads see it
  // ---------------------------------------------------------------------

  /** The bytes of an ASCII tag such as "RIFF": the low byte of each character code. */
  function AsciiBytes(tag: string): (r: seq<uint8>)
    ensures |r| == |tag|
    ensures forall i :: 0 <= i < |tag| && tag[i] as int < 256 ==> r[i] == tag[i] as int
  {
    seq(|tag|, i requires 0 <= i < |tag| => tag[i] as int % 256)
  }

  lemma GetUintOfSlice(view: seq<uint8>, offset: nat, value: int, width: nat, littleEndian: bool)
    requires offset + width <= |view|
    requires view[offset..offset + width] == FieldBytes(value, width, littleEndian)
    ensures GetUint(view, offset, width, littleEndian) == value % Pow256(width)
  {
    GetFieldBytes(value, width, littleEndian);
    assert FieldBytes(value, width, littleEndian)[0..width] == FieldBytes(value, width, littleEndian);
  }

  /** A read that ends before `tail` begins does not see `tail`. */
  lemma GetUintBefore(head: seq<uint8>, tail: seq<uint8>, offset: nat, width: nat, littleEndian: bool)
    requires offset + width <= |head|
    ensures GetUint(head + tail, offset, width, littleEndian) == GetUint(head, offset, width, littleEndian)
  {
    assert (head + tail)[offset..offset + width] == head[offset..offset + width];
  }

  /** A read that starts after `head` sees only `tail`. */
  lemma GetUintAfter(head: seq<uint8>, tail: seq<uint8>, offset: nat, width: nat, littleEndian: bool)
    requires offset + width <= |tail|
    ensures GetUint(head + tail, |head| + offset, width, littleEndian) == GetUint(tail, offset, width, littleEndian)
  {
    assert (head + tail)[|head| + offset..|head| + offset + width] == tail[offset..offset + width];
  }

  lemma TagRiff()
    ensures FieldBytes(0x52494646, 4, false) == AsciiBytes("RIFF")
  {
    assert LittleEndian(0x52494646, 4) == [0x46, 0x46, 0x49, 0x52];
    assert Reverse([0x46, 0x46, 0x49, 0x52]) == [0x52, 0x49, 0x46, 0x46];
    assert AsciiBytes("RIFF") == [0x52, 0x49, 0x46, 0x46];
  }

  lemma TagWave()
    ensures FieldBytes(0x57415645, 4, false) == AsciiBytes("WAVE")
  {
    assert LittleEndian(0x57415645, 4) == [0x45, 0x56, 0x41, 0x57];
    assert Reverse([0x45, 0x56, 0x41, 0x57]) == [0x57, 0x41, 0x56, 0x45];
    assert AsciiBytes("WAVE") == [0x57, 0x41, 0x56, 0x45];
  }

  lemma TagFmt()
    ensures FieldBytes(0x666d7420, 4, false) == AsciiBytes("fmt ")
  {
    assert LittleEndian(0x666d7420, 4) == [0x20, 0x74, 0x6d, 0x66];
    assert Reverse([0x20, 0x74, 0x6d, 0x66]) == [0x66, 0x6d, 0x74, 0x20];
    assert AsciiBytes("fmt ") == [0x66, 0x6d, 0x74, 0x20];
  }

  lemma TagData()
    ensures FieldBytes(0x64617461, 4, false) == AsciiBytes("data")
  {
    assert LittleEndian(0x64617461, 4) == [0x61, 0x74, 0x61, 0x64];
    assert Reverse([0x61, 0x74, 0x61, 0x64]) == [0x64, 0x61, 0x74, 0x61];
    assert AsciiBytes("data") == [0x64, 0x61, 0x74, 0x61];
  }

  lemma HeaderChunks(totalLength: int, sampleRate: int)
    ensures var h := HeaderBytes(totalLength, sampleRate);
      && h[0..12] == RiffDescriptor(totalLength)
      && h[12..36] == FormatChunk(sampleRate)
      && h[36..44] == DataChunkHeader(totalLength)
  {
    ThreeParts(RiffDescriptor(totalLength), FormatChunk(sampleRate), DataChunkHeader(totalLength));
  }

  lemma ThreeParts(a: seq<uint8>, b: seq<uint8>, c: seq<uint8>)
    requires |a| == 12 && |b| == 24 && |c| == 8
    ensures (a + b + c)[0..12] == a && (a + b + c)[12..36] == b && (a + b + c)[36..44] == c
  {
    var s := a + b + c;
    assert s == (a + b) + c;
    assert s[..36] == a + b;
    assert s[0..12] == (a + b)[0..12] == a;
    assert s[12..36] == (a + b)[12..36] == b;
  }

  /** A slice of a slice is a slice of the whole. */
  lemma Subslice(h: seq<uint8>, lo: nat, hi: nat, i: nat, j: nat)
    requires i <= j && lo + j <= hi <= |h|
    ensures h[lo..hi][i..j] == h[lo + i..lo + j]
  {
    assert forall k :: 0 <= k < j - i ==> h[lo..hi][i..j][k] == h[lo + i + k];
  }

  /** The four chunk tags sit at offsets 0, 8, 12 and 36, written as big-endian numbers. */
  lemma HeaderTags(totalLength: int, sampleRate: int)
    ensures var h := HeaderBytes(totalLength, sampleRate);
      && h[0..4] == AsciiBytes("RIFF")
      && h[8..12] == AsciiBytes("WAVE")
      && h[12..16] == AsciiBytes("fmt ")
      && h[36..40] == AsciiBytes("data")
  {
    var h := HeaderBytes(totalLength, sampleRate);
    HeaderChunks(totalLength, sampleRate);
    TagRiff();
    TagWave();
    TagFmt();
    TagData();
    var riff, fmt, data := RiffDescriptor(totalLength), FormatChunk(sampleRate), DataChunkHeader(totalLength);
    assert h[0..4] == riff[0..4] == FieldBytes(0x52494646, 4, false);
    assert h[8..12] == riff[8..12] == FieldBytes(0x57415645, 4, false);
    assert h[12..16] == fmt[0..4] == FieldBytes(0x666d7420, 4, false);
    assert h[36..40] == data[0..4] == FieldBytes(0x64617461, 4, false);
  }

  lemma EightParts(f1: seq<uint8>, f2: seq<uint8>, f3: seq<uint8>, f4: seq<uint8>,
                   f5: seq<uint8>, f6: seq<uint8>, f7: seq<uint8>, f8: seq<uint8>)
    requires |f1| == |f2| == |f5| == |f6| == 4 && |f3| == |f4| == |f7| == |f8| == 2
    ensures var f := f1 + f2 + f3 + f4 + f5 + f6 + f7 + f8;
      && f[0..4] == f1 && f[4..8] == f2 && f[8..10] == f3 && f[10..12] == f4
      && f[12..16] == f5 && f[16..20] == f6 && f[20..22] == f7 && f[22..24] == f8
  {
    var f := f1 + f2 + f3 + f4 + f5 + f6 + f7 + f8;
    var p, q := f1 + f2 + f3 + f4, f5 + f6 + f7 + f8;
    assert f == p + q;
    assert f[..12] == p && f[12..] == q;
    assert p[0..4] == f1 && p[4..8] == f2 && p[8..10] == f3 && p[10..12] == f4;
    assert q[0..4] == f5 && q[4..8] == f6 && q[8..10] == f7 && q[10..12] == f8;
    assert f[0..4] == p[0..4] && f[4..8] == p[4..8] && f[8..10] == p[8..10] && f[10..12] == p[10..12];
    assert f[12..16] == q[0..4] && f[16..20] == q[4..8] && f[20..22] == q[8..10] && f[22..24] == q[10..12];
  }

  /** Where each field's bytes sit inside the format chunk. */
  lemma FormatChunkSlices(sampleRate: int)
    ensures var f := FormatChunk(sampleRate);
      && f[0..4] == FieldBytes(0x666d7420, 4, false)
      && f[4..8] == FieldBytes(16, 4, true)
      && f[8..10] == FieldBytes(1, 2, true)
      && f[10..12] == FieldBytes(1, 2, true)
      && f[12..16] == FieldBytes(sampleRate, 4, true)
      && f[16..20] == FieldBytes(sampleRate * 2, 4, true)
      && f[20..22] == FieldBytes(2, 2, true)
      && f[22..24] == FieldBytes(16, 2, true)
  {
    EightParts(FieldBytes(0x666d7420, 4, false), FieldBytes(16, 4, true), FieldBytes(1, 2, true), FieldBytes(1, 2, true),
               FieldBytes(sampleRate, 4, true), FieldBytes(sampleRate * 2, 4, true), FieldBytes(2, 2, true), FieldBytes(16, 2, true));
  }

  /** Where each field's bytes sit inside the 44-byte header. */
  lemma HeaderSlices(totalLength: int, sampleRate: int)
    ensures var h := HeaderBytes(totalLength, sampleRate);
      && h[4..8] == FieldBytes(36 + totalLength, 4, true)
      && h[16..20] == FieldBytes(16, 4, true)
      && h[20..22] == FieldBytes(1, 2, true)
      && h[22..24] == FieldBytes(1, 2, true)
      && h[24..28] == FieldBytes(sampleRate, 4, true)
      && h[28..32] == FieldBytes(sampleRate * 2, 4, true)
      && h[32..34] == FieldBytes(2, 2, true)
      && h[34..36] == FieldBytes(16, 2, true)
      && h[40..44] == FieldBytes(totalLength, 4, true)
  {
    var h := HeaderBytes(totalLength, sampleRate);
    HeaderChunks(totalLength, sampleRate);
    FormatChunkSlices(sampleRate);
    var riff, data := RiffDescriptor(totalLength), DataChunkHeader(totalLength);
    ChunkSlice(h, 0, riff, 4, 8);
    ChunkSlice(h, 36, data, 4, 8);
    SecondField(FieldBytes(0x52494646, 4, false), FieldBytes(36 + totalLength, 4, true), FieldBytes(0x57415645, 4, false));
    SecondField(FieldBytes(0x64617461, 4, false), FieldBytes(totalLength, 4, true), []);
    assert data == FieldBytes(0x64617461, 4, false) + FieldBytes(totalLength, 4, true) + [];
    FormatFieldSlices(h, FormatChunk(sampleRate));
  }

  /** The bytes 4 to 8 of a chunk whose first two fields are four bytes wide. */
  lemma SecondField(a: seq<uint8>, b: seq<uint8>, c: seq<uint8>)
    requires |a| == 4 && |b| == 4
    ensures (a + b + c)[4..8] == b
  {
    assert (a + b + c)[..8] == a + b;
  }

  /** The fields of a format chunk stored at offset 12 of a header. */
  lemma FormatFieldSlices(h: seq<uint8>, f: seq<uint8>)
    requires |f| == 24 && 36 <= |h| && h[12..36] == f
    ensures && h[16..20] == f[4..8] && h[20..22] == f[8..10] && h[22..24] == f[10..12]
      && h[24..28] == f[12..16] && h[28..32] == f[16..20] && h[32..34] == f[20..22] && h[34..36] == f[22..24]
  {
    ChunkSlice(h, 12, f, 4, 8);
    ChunkSlice(h, 12, f, 8, 10);
    ChunkSlice(h, 12, f, 10, 12);
    ChunkSlice(h, 12, f, 12, 16);
    ChunkSlice(h, 12, f, 16, 20);
    ChunkSlice(h, 12, f, 20, 22);
    ChunkSlice(h, 12, f, 22, 24);
  }

  /** A slice of a chunk stored at `lo` is the matching slice of the whole. */
  lemma ChunkSlice(h: seq<uint8>, lo: nat, c: seq<uint8>, i: nat, j: nat)
    requires lo + |c| <= |h| && h[lo..lo + |c|] == c && i <= j <= |c|
    ensures h[lo + i..lo + j] == c[i..j]
  {
    Subslice(h, lo, lo + |c|, i, j);
  }

  /**
   * The little-endian fields: RIFF size 36 + totalLength at 4, fmt size 16 at
   * 16, PCM tag 1 at 20, one channel at 22, the sample rate at 24, the byte
   * rate sampleRate * 2 at 28, block align 2 at 32, 16 bits per sample at 34
   * and the data size totalLength at 40; each is reduced modulo 2^32 or 2^16
   * as DataView's conversion does.
   */
  lemma HeaderFields(totalLength: int, sampleRate: int)
    ensures var h := HeaderBytes(totalLength, sampleRate);
      && GetUint(h, 4, 4, true) == ToUint32(36 + totalLength)
      && GetUint(h, 16, 4, true) == 16
      && GetUint(h, 20, 2, true) == 1
      && GetUint(h, 22, 2, true) == 1
      && GetUint(h, 24, 4, true) == ToUint32(sampleRate)
      && GetUint(h, 28, 4, true) == ToUint32(sampleRate * 2)
      && GetUint(h, 32, 2, true) == 2
      && GetUint(h, 34, 2, true) == 16
      && GetUint(h, 40, 4, true) == ToUint32(totalLength)
  {
    var h := HeaderBytes(totalLength, sampleRate);
    HeaderSlices(totalLength, sampleRate);
    Pow256Widths();
    GetUintOfSlice(h, 4, 36 + totalLength, 4, true);
    GetUintOfSlice(h, 16, 16, 4, true);
    GetUintOfSlice(h, 20, 1, 2, true);
    GetUintOfSlice(h, 22, 1, 2, true);
    GetUintOfSlice(h, 24, sampleRate, 4, true);
    GetUintOfSlice(h, 28, sampleRate * 2, 4, true);
    GetUintOfSlice(h, 32, 2, 2, true);
    GetUintOfSlice(h, 34, 16, 2, true);
    GetUintOfSlice(h, 40, totalLength, 4, true);
  }

  // ---------------------------------------------------------------------
  // Decoding the segments and concatenating their bytes
  // ---------------------------------------------------------------------

  /** `buffers.reduce((acc, buf) => acc + buf.length, 0)`. */
  function TotalLength(buffers: seq<seq<uint8>>): nat {
    if buffers == [] then 0 else TotalLength(buffers[..|buffers| - 1]) + |buffers[|buffers| - 1]|
  }

  /** The buffers' bytes back to back, in order. */
  function Concat(buffers: seq<seq<uint8>>): (r: seq<uint8>)
    ensures |r| == TotalLength(buffers)
  {
    if buffers == [] then [] else Concat(buffers[..|buffers| - 1]) + buffers[|buffers| - 1]
  }

  lemma ConcatSnoc(buffers: seq<seq<uint8>>, b: seq<uint8>)
    ensures TotalLength(buffers + [b]) == TotalLength(buffers) + |b|
    ensures Concat(buffers + [b]) == Concat(buffers) + b
  {
    assert (buffers + [b])[..|buffers|] == buffers;
  }

  /** The first `k` buffers are no longer than all of them. */
  lemma {:induction false} TotalLengthPrefix(buffers: seq<seq<uint8>>, k: nat)
    requires k <= |buffers|
    ensures TotalLength(buffers[..k]) <= TotalLength(buffers)
    decreases |buffers| - k
  {
    if k == |buffers| {
      assert buffers[..k] == buffers;
    } else {
      var n := |buffers|;
      TotalLengthPrefix(buffers[..n - 1], k);
      assert buffers[..n - 1][..k] == buffers[..k];
    }
  }

  /** The bytes of the first `k` buffers are a prefix of all the bytes. */
  lemma {:induction false} ConcatPrefix(buffers: seq<seq<uint8>>, k: nat)
    requires k <= |buffers|
    ensures |Concat(buffers[..k])| <= |Concat(buffers)|
    ensures Concat(buffers)[..|Concat(buffers[..k])|] == Concat(buffers[..k])
    decreases |buffers| - k
  {
    if k == |buffers| {
      assert buffers[..k] == buffers;
    } else {
      var n := |buffers|;
      var init := buffers[..n - 1];
      ConcatPrefix(init, k);
      assert init[..k] == buffers[..k];
      assert Concat(buffers) == Concat(init) + buffers[n - 1];
    }
  }

  /**
   * Buffer `k` sits at offset TotalLength(buffers[..k]), the sum of the
   * lengths before it: in input order and with nothing in between.
   */
  lemma ConcatPlacement(buffers: seq<seq<uint8>>, k: nat)
    requires k < |buffers|
    ensures TotalLength(buffers[..k]) + |buffers[k]| <= TotalLength(buffers)
    ensures Concat(buffers)[TotalLength(buffers[..k])..TotalLength(buffers[..k]) + |buffers[k]|] == buffers[k]
  {
    var off := TotalLength(buffers[..k]);
    ConcatPrefix(buffers, k + 1);
    assert buffers[..k + 1] == buffers[..k] + [buffers[k]];
    ConcatSnoc(buffers[..k], buffers[k]);
    var c := Concat(buffers);
    assert c[off..off + |buffers[k]|] == c[..off + |buffers[k]|][off..];
  }

  /**
   * The `combined` loop of `mergeAudioSegments` (and of the player's
   * download): a zero-filled array of the total length, each buffer `set` at
   * the running offset.
   */
  method CombineBuffers(buffers: seq<seq<uint8>>) returns (combined: array<uint8>)
    ensures fresh(combined)
    ensures combined[..] == Concat(buffers)
  {
    combined := new uint8[TotalLength(buffers)];
    var offset := 0;
    for i := 0 to |buffers|
      invariant offset == TotalLength(buffers[..i]) <= combined.Length
      invariant combined[..offset] == Concat(buffers[..i])
    {
      TotalLengthPrefix(buffers, i + 1);
      assert buffers[..i + 1] == buffers[..i] + [buffers[i]];
      ConcatSnoc(buffers[..i], buffers[i]);
      SetBytes(combined, buffers[i], offset);
      offset := offset + |buffers[i]|;
    }
    assert buffers[..|buffers|] == buffers;
    assert combined[..] == combined[..offset];
  }

  /** The byte a `Uint8Array` stores for each character code (ToUint8). */
  function ByteValues(s: string): (r: seq<uint8>)
    ensures |r| == |s|
  {
    seq(|s|, i requires 0 <= i < |s| => s[i] as int % 256)
  }

  /** The characters of a binary string are its bytes. */
  lemma ByteValuesOfBinaryString(b: seq<uint8>)
    ensures ByteValues(Base64.BinaryString(b)) == b
  {
  }

  /** The per-segment loop `bytes[i] = binaryString.charCodeAt(i)`. */
  method BinaryStringToBytes(binary: string) returns (bytes: array<uint8>)
    ensures fresh(bytes)
    ensures bytes[..] == ByteValues(binary)
  {
    bytes := new uint8[|binary|];
    for i := 0 to |binary|
      invariant bytes[..i] == ByteValues(binary)[..i]
    {
      bytes[i] := binary[i] as int % 256;
      assert bytes[..i + 1] == bytes[..i] + [bytes[i]];
    }
    assert bytes[..] == bytes[..|binary|];
  }

  /** One segment's PCM bytes, or `None` where `atob` throws. */
  function DecodeSegment(b64: string): (r: Option<seq<uint8>>)
    ensures r.Some? <==> Base64.Atob(b64).Some?
    ensures r.Some? ==> (|r.value| == |Base64.Atob(b64).value|
      && forall i :: 0 <= i < |r.value| ==> r.value[i] == Base64.Atob(b64).value[i] as int)
  {
    match Base64.Atob(b64)
    case None => None
    case Some(binary) => Some(ByteValues(binary))
  }

  /** Every segment decoded, in order, or `None` as soon as one does not decode. */
  function DecodeSegments(segments: seq<string>): (r: Option<seq<seq<uint8>>>)
    ensures r.Some? <==> forall i :: 0 <= i < |segments| ==> Base64.Atob(segments[i]).Some?
    ensures r.Some? ==> (|r.value| == |segments|
      && forall i :: 0 <= i < |segments| ==> Some(r.value[i]) == DecodeSegment(segments[i]))
  {
    if forall i :: 0 <= i < |segments| ==> DecodeSegment(segments[i]).Some? then
      Some(seq(|segments|, i requires 0 <= i < |segments| => DecodeSegment(segments[i]).value))
    else None
  }

  /** The WAV file's bytes: the header for the total PCM length, then the PCM bytes. */
  function WavFile(buffers: seq<seq<uint8>>, sampleRate: int): seq<uint8> {
    HeaderBytes(TotalLength(buffers), sampleRate) + Concat(buffers)
  }

  /** What `mergeAudioSegments` yields: the WAV bytes, or the error `atob` throws. */
  function Merge(segments: seq<string>, sampleRate: int): Outcome<seq<uint8>> {
    match DecodeSegments(segments)
    case None => Failure("InvalidCharacterError")
    case Some(buffers) => Success(WavFile(buffers, sampleRate))
  }

  /**
   * `mergeAudioSegments(base64Segments, sampleRate)`: the bytes of the Blob
   * `[header, combined]`. It fails exactly when some segment is not valid
   * base64.
   */
  method MergeAudioSegments(base64Segments: seq<string>, sampleRate: int) returns (r: Outcome<seq<uint8>>)
    ensures r == Merge(base64Segments, sampleRate)
    ensures r.Failure? <==> exists i :: 0 <= i < |base64Segments| && Base64.Atob(base64Segments[i]).None?
  {
    var buffers: seq<seq<uint8>> := [];
    for i := 0 to |base64Segments|
      invariant |buffers| == i
      invariant forall j :: 0 <= j < i ==> DecodeSegment(base64Segments[j]) == Some(buffers[j])
    {
      var binary := Base64.Atob(base64Segments[i]);
      if binary.None? {
        MergeFails(base64Segments, sampleRate, i);
        return Failure("InvalidCharacterError");
      }
      var bytes := BinaryStringToBytes(binary.value);
      buffers := buffers + [bytes[..]];
    }
    MergeDecoded(base64Segments, sampleRate, buffers);
    var combined := CombineBuffers(buffers);
    var header := WriteHeader(TotalLength(buffers), sampleRate);
    r := Success(header[..] + combined[..]);
  }

  lemma MergeFails(segments: seq<string>, sampleRate: int, i: nat)
    requires i < |segments| && Base64.Atob(segments[i]).None?
    ensures Merge(segments, sampleRate) == Failure("InvalidCharacterError")
  {
  }

  lemma MergeDecoded(segments: seq<string>, sampleRate: int, buffers: seq<seq<uint8>>)
    requires |buffers| == |segments|
    requires forall j :: 0 <= j < |segments| ==> DecodeSegment(segments[j]) == Some(buffers[j])
    ensures Merge(segments, sampleRate) == Success(WavFile(buffers, sampleRate))
    ensures forall j :: 0 <= j < |segments| ==> Base64.Atob(segments[j]).Some?
  {
    var d := DecodeSegments(segments);
    assert d.Some? by {
      forall j | 0 <= j < |segments| ensures Base64.Atob(segments[j]).Some? {
        assert DecodeSegment(segments[j]).Some?;
      }
    }
    assert d.value == buffers by {
      forall j | 0 <= j < |segments| ensures d.value[j] == buffers[j] {
        assert Some(d.value[j]) == DecodeSegment(segments[j]);
      }
    }
  }

  /** The WAV file is 44 + total bytes: the header, then from offset 44 the concatenated PCM. */
  lemma WavLayout(buffers: seq<seq<uint8>>, sampleRate: int)
    ensures var w := WavFile(buffers, sampleRate);
      && |w| == HeaderSize + TotalLength(buffers)
      && w[..HeaderSize] == HeaderBytes(TotalLength(buffers), sampleRate)
      && w[HeaderSize..] == Concat(buffers)
  {
  }

  /** Buffer `k` sits in the file at 44 plus the lengths of the buffers before it. */
  lemma WavPlacement(buffers: seq<seq<uint8>>, sampleRate: int, k: nat)
    requires k < |buffers|
    ensures var w, off := WavFile(buffers, sampleRate), HeaderSize + TotalLength(buffers[..k]);
      off + |buffers[k]| <= |w| && w[off..off + |buffers[k]|] == buffers[k]
  {
    ConcatPlacement(buffers, k);
    SliceAfter(HeaderBytes(TotalLength(buffers), sampleRate), Concat(buffers), TotalLength(buffers[..k]), |buffers[k]|);
  }

  lemma SliceAfter(head: seq<uint8>, tail: seq<uint8>, offset: nat, length: nat)
    requires offset + length <= |tail|
    ensures (head + tail)[|head| + offset..|head| + offset + length] == tail[offset..offset + length]
  {
  }

  /**
   * The header's little-endian length fields, read from the whole file: the
   * RIFF size at 4 is 36 + total and the data size at 40 is total (modulo 2^32).
   */
  lemma WavLengthFields(buffers: seq<seq<uint8>>, sampleRate: int)
    ensures var w := WavFile(buffers, sampleRate); var total := TotalLength(buffers);
      && GetUint(w, 4, 4, true) == ToUint32(36 + total)
      && GetUint(w, 40, 4, true) == ToUint32(total)
      && GetUint(w, 24, 4, true) == ToUint32(sampleRate)
  {
    var h := HeaderBytes(TotalLength(buffers), sampleRate);
    HeaderFields(TotalLength(buffers), sampleRate);
    GetUintBefore(h, Concat(buffers), 4, 4, true);
    GetUintBefore(h, Concat(buffers), 40, 4, true);
    GetUintBefore(h, Concat(buffers), 24, 4, true);
  }

  /**
   * Called without a rate, `mergeAudioSegments` uses 24000 Hz: the file then
   * declares 24000 samples and 48000 bytes per second.
   */
  lemma DefaultRateFields(buffers: seq<seq<uint8>>)
    ensures var w := WavFile(buffers, DefaultSampleRate);
      && GetUint(w, 24, 4, true) == 24000
      && GetUint(w, 28, 4, true) == 48000
  {
    var h := HeaderBytes(TotalLength(buffers), DefaultSampleRate);
    HeaderFields(TotalLength(buffers), DefaultSampleRate);
    GetUintBefore(h, Concat(buffers), 24, 4, true);
    GetUintBefore(h, Concat(buffers), 28, 4, true);
  }

  /**
   * Merging the padded base64 encodings of PCM buffers succeeds and yields
   * the WAV file of exactly those buffers.
   */
  lemma MergeEncoded(pcm: seq<seq<uint8>>, sampleRate: int)
    ensures Merge(seq(|pcm|, i requires 0 <= i < |pcm| => Base64.Encode(pcm[i])), sampleRate)
         == Success(WavFile(pcm, sampleRate))
  {
    var segments := seq(|pcm|, i requires 0 <= i < |pcm| => Base64.Encode(pcm[i]));
    forall i | 0 <= i < |pcm| ensures DecodeSegment(segments[i]) == Some(pcm[i]) {
      Base64.AtobEncode(pcm[i]);
      ByteValuesOfBinaryString(pcm[i]);
    }
    var decoded := DecodeSegments(segments);
    assert decoded.Some?;
    assert decoded.value == pcm;
  }
}
