/** The byte layout the recorder writes: little-endian fields, the 44-byte RIFF header,
    and two 16-bit channels interleaved in the data chunk. */
module WavFormat {
  import opened Primitives

  const HEADER_LEN: nat := 44

  // ---------- little-endian fields ----------

  function U16Bytes(x: nat): (b: seq<Byte>)
    ensures |b| == 2
  {
    [x % 0x100, x / 0x100 % 0x100]
  }

  function U32Bytes(x: nat): (b: seq<Byte>)
    ensures |b| == 4
  {
    U16Bytes(x) + U16Bytes(x / 0x100 / 0x100)
  }

  function ReadU16(b: seq<Byte>, at: nat): (x: nat)
    requires at + 2 <= |b|
    ensures x < U16
  {
    var low: int, high: int := b[at], b[at + 1];
    low + 0x100 * high
  }

  function ReadU32(b: seq<Byte>, at: nat): (x: nat)
    requires at + 4 <= |b|
    ensures x < U32
  {
    ReadU16(b, at) + U16 * ReadU16(b, at + 2)
  }

  /** Reading a written 16-bit field gives the value back modulo 2^16. */
  lemma FieldRoundTrip16(x: nat)
    ensures ReadU16(U16Bytes(x), 0) == x % U16 && x / U16 == x / 0x100 / 0x100
  {
    var a := x / 0x100;
    assert x == U16 * (a / 0x100) + (x % 0x100 + 0x100 * (a % 0x100));
  }

  /** Reading a written 32-bit field gives the value back modulo 2^32. */
  lemma FieldRoundTrip32(x: nat)
    ensures ReadU32(U32Bytes(x), 0) == x % U32
  {
    var b, y := U32Bytes(x), x / 0x100 / 0x100;
    FieldRoundTrip16(x);
    FieldRoundTrip16(y);
    assert b[2] == U16Bytes(y)[0] && b[3] == U16Bytes(y)[1];
    assert x == U32 * (y / U16) + (x % U16 + U16 * (y % U16));
  }

  // ---------- samples ----------

  function SampleLow(x: I16): Byte {
    x % 0x100
  }

  function SampleHigh(x: I16): Byte {
    (if x < 0 then x + 0x1_0000 else x) / 0x100
  }

  function DecodeSample(low: Byte, high: Byte): I16 {
    var u := low + 0x100 * high;
    if u >= 0x8000 then u - 0x1_0000 else u
  }

  lemma SampleRoundTrip(x: I16)
    ensures DecodeSample(SampleLow(x), SampleHigh(x)) == x
  {
    assert (x + 0x1_0000) % 0x100 == x % 0x100;
  }

  function SamplesToBytes(xs: seq<I16>): (b: seq<Byte>)
    ensures |b| == 2 * |xs|
  {
    if xs == [] then []
    else var n := |xs| - 1; SamplesToBytes(xs[..n]) + [SampleLow(xs[n]), SampleHigh(xs[n])]
  }

  /** Sample i of the left channel, then sample i of the right one. */
  function Interleave(left: seq<I16>, right: seq<I16>): (mixed: seq<I16>)
    requires |left| == |right|
    ensures |mixed| == 2 * |left|
  {
    if left == [] then []
    else var n := |left| - 1; Interleave(left[..n], right[..n]) + [left[n], right[n]]
  }

  /** De-interleaving gives both channels back. */
  lemma {:induction false} InterleaveRoundTrip(left: seq<I16>, right: seq<I16>, i: nat)
    requires |left| == |right| && i < |left|
    ensures Interleave(left, right)[2 * i] == left[i]
    ensures Interleave(left, right)[2 * i + 1] == right[i]
  {
    var n := |left| - 1;
    if i < n {
      InterleaveRoundTrip(left[..n], right[..n], i);
    }
  }

  // ---------- the data chunk of a file ----------

  predicate WholeFrames(content: seq<Byte>) {
    |content| >= HEADER_LEN && (|content| - HEADER_LEN) % 4 == 0
  }

  /** What a player hears on channel c (0 left, 1 right): frame i holds that channel's
      sample in bytes 2c and 2c + 1 of its four. */
  function Column(content: seq<Byte>, c: nat): (xs: seq<I16>)
    requires c < 2 && WholeFrames(content)
    ensures |xs| == (|content| - HEADER_LEN) / 4
  {
    seq((|content| - HEADER_LEN) / 4, i requires 0 <= i < (|content| - HEADER_LEN) / 4 =>
      DecodeSample(content[HEADER_LEN + 4 * i + 2 * c], content[HEADER_LEN + 4 * i + 2 * c + 1]))
  }

  /** One more frame of four bytes adds one sample to each channel. */
  lemma ColumnAppendFrame(content: seq<Byte>, x: I16, y: I16)
    requires WholeFrames(content)
    ensures var after := content + [SampleLow(x), SampleHigh(x), SampleLow(y), SampleHigh(y)];
            && WholeFrames(after)
            && Column(after, 0) == Column(content, 0) + [x]
            && Column(after, 1) == Column(content, 1) + [y]
  {
    SampleRoundTrip(x);
    SampleRoundTrip(y);
  }

  /** Appending an interleaved block extends each channel by exactly its own samples. */
  lemma {:induction false} ColumnAppend(content: seq<Byte>, left: seq<I16>, right: seq<I16>)
    requires WholeFrames(content) && |left| == |right|
    ensures var after := content + SamplesToBytes(Interleave(left, right));
            && WholeFrames(after)
            && Column(after, 0) == Column(content, 0) + left
            && Column(after, 1) == Column(content, 1) + right
  {
    var mixed := Interleave(left, right);
    if left == [] {
      assert content + SamplesToBytes(mixed) == content;
    } else {
      var n := |left| - 1;
      var (l, r, x, y) := (left[..n], right[..n], left[n], right[n]);
      var shorter := Interleave(l, r);
      ColumnAppend(content, l, r);
      BytesOfPair(shorter, x, y);
      var before := content + SamplesToBytes(shorter);
      var frame := [SampleLow(x), SampleHigh(x), SampleLow(y), SampleHigh(y)];
      assert mixed == shorter + [x, y];
      assert content + SamplesToBytes(mixed) == before + frame;
      ColumnAppendFrame(before, x, y);
      assert left == l + [x] && right == r + [y];
    }
  }

  lemma BytesOfPair(xs: seq<I16>, x: I16, y: I16)
    ensures SamplesToBytes(xs + [x, y])
         == SamplesToBytes(xs) + [SampleLow(x), SampleHigh(x), SampleLow(y), SampleHigh(y)]
  {
    var n := |xs|;
    assert (xs + [x, y])[..n + 1] == xs + [x];
    assert (xs + [x])[..n] == xs;
  }

  /** Rewriting the header leaves both channels alone. */
  lemma ColumnIgnoresHeader(content: seq<Byte>, header: seq<Byte>, c: nat)
    requires c < 2 && WholeFrames(content) && |header| == HEADER_LEN
    ensures WholeFrames(header + content[HEADER_LEN..])
    ensures Column(header + content[HEADER_LEN..], c) == Column(content, c)
  {
  }

  // ---------- the header ----------

  datatype Header = Header(
    formatTag: nat, channels: nat, sampleRate: nat,
    byteRate: nat, blockAlign: nat, bitsPerSample: nat, dataSize: nat)

  /** The header `update_wav_header` builds: RTP payload types pick the encoding,
      decoded audio is always 16-bit stereo PCM at the configured rate. */
  function HeaderFor(payloadType: Option<Byte>, configuredRate: nat, total: nat): Header {
    var (tag, rate, chan, bits) :=
      match payloadType
      case None => (1, configuredRate, 2, 16)
      case Some(pt) =>
        if pt == 0 then (7, 8000, 1, 8)
        else if pt == 8 then (6, 8000, 1, 8)
        else if pt == 9 then (0x64, 16000, 1, 4)
        else if pt == 10 then (1, 44100, 2, 16)
        else if pt == 11 then (1, 44100, 1, 16)
        else (1, 16000, 1, 16);
    Header(tag, chan, rate,
           if tag == 0x64 then 8000 else rate * chan * (bits / 8),
           if tag == 0x64 || tag == 7 || tag == 6 then chan else bits / 8 * chan,
           bits, total)
  }

  /** Every encoding's byte rate is its bits per second over eight, and its block is one sample of each channel, except
      that half-byte G.722 samples are counted as whole bytes. */
  lemma HeaderRates(payloadType: Option<Byte>, configuredRate: nat, total: nat)
    ensures var h := HeaderFor(payloadType, configuredRate, total);
            && h.byteRate * 8 == h.sampleRate * h.channels * h.bitsPerSample
            && (payloadType != Some(9) ==> h.blockAlign * 8 == h.channels * h.bitsPerSample)
            && (payloadType == Some(9) ==> h.blockAlign == h.channels && h.bitsPerSample == 4)
  {
    var h := HeaderFor(payloadType, configuredRate, total);
    assert h.sampleRate * h.channels * (h.bitsPerSample / 8) * 8
        == h.sampleRate * h.channels * (h.bitsPerSample / 8 * 8);
  }

  const RIFF: seq<Byte> := [0x52, 0x49, 0x46, 0x46]
  const WAVE: seq<Byte> := [0x57, 0x41, 0x56, 0x45]
  const FMT: seq<Byte> := [0x66, 0x6d, 0x74, 0x20]
  const DATA: seq<Byte> := [0x64, 0x61, 0x74, 0x61]

  function RiffPart(size: nat): (b: seq<Byte>)
    ensures |b| == 12
  {
    RIFF + U32Bytes(size) + WAVE
  }

  function FormatPart(h: Header): (b: seq<Byte>)
    ensures |b| == 24
  {
    (FMT + U32Bytes(16) + U16Bytes(h.formatTag) + U16Bytes(h.channels))
    + (U32Bytes(h.sampleRate) + U32Bytes(h.byteRate) + U16Bytes(h.blockAlign) + U16Bytes(h.bitsPerSample))
  }

  function DataPart(size: nat): (b: seq<Byte>)
    ensures |b| == 8
  {
    DATA + U32Bytes(size)
  }

  function HeaderBytes(h: Header): (b: seq<Byte>)
    ensures |b| == HEADER_LEN
  {
    RiffPart(h.dataSize + 36) + FormatPart(h) + DataPart(h.dataSize)
  }

  /** A reader of one of the three parts. */
  function ParseRiff(b: seq<Byte>): Option<nat>
    requires |b| == 12
  {
    if b[..4] == RIFF && b[8..] == WAVE then Some(ReadU32(b[4..8], 0)) else None
  }

  function ParseFormat(b: seq<Byte>, dataSize: nat): Option<Header>
    requires |b| == 24
  {
    if b[..4] != FMT || ReadU32(b[4..8], 0) != 16 then None
    else Some(Header(ReadU16(b[8..10], 0), ReadU16(b[10..12], 0), ReadU32(b[12..16], 0),
                     ReadU32(b[16..20], 0), ReadU16(b[20..22], 0), ReadU16(b[22..24], 0), dataSize))
  }

  function ParseData(b: seq<Byte>): Option<nat>
    requires |b| == 8
  {
    if b[..4] == DATA then Some(ReadU32(b[4..], 0)) else None
  }

  /** A reader: the RIFF size and the header fields, if the four chunk tags are in place. */
  function ParseHeader(content: seq<Byte>): Option<(nat, Header)> {
    if |content| < HEADER_LEN then None
    else
      match (ParseRiff(content[..12]), ParseData(content[36..44]))
      case (Some(riff), Some(size)) =>
        (match ParseFormat(content[12..36], size)
         case Some(h) => Some((riff, h))
         case None => None)
      case _ => None
  }

  /** What survives of a header when each field is cut to its width. */
  function Truncated(h: Header): Header {
    Header(h.formatTag % U16, h.channels % U16, h.sampleRate % U32,
           h.byteRate % U32, h.blockAlign % U16, h.bitsPerSample % U16, h.dataSize % U32)
  }

  lemma FormatRoundTrip(h: Header)
    ensures ParseFormat(FormatPart(h), h.dataSize % U32) == Some(Truncated(h))
  {
    var front := FMT + U32Bytes(16) + U16Bytes(h.formatTag) + U16Bytes(h.channels);
    var back := U32Bytes(h.sampleRate) + U32Bytes(h.byteRate) + U16Bytes(h.blockAlign) + U16Bytes(h.bitsPerSample);
    var b := FormatPart(h);
    assert b == front + back;
    assert b[..4] == front[..4] && front[..4] == FMT;
    assert b[4..8] == front[4..8] && front[4..8] == U32Bytes(16);
    assert b[8..10] == front[8..10] && front[8..10] == U16Bytes(h.formatTag);
    assert b[10..12] == front[10..12] && front[10..12] == U16Bytes(h.channels);
    assert b[12..16] == back[..4] && back[..4] == U32Bytes(h.sampleRate);
    assert b[16..20] == back[4..8] && back[4..8] == U32Bytes(h.byteRate);
    assert b[20..22] == back[8..10] && back[8..10] == U16Bytes(h.blockAlign);
    assert b[22..24] == back[10..] && back[10..] == U16Bytes(h.bitsPerSample);
    FieldRoundTrip32(16);
    FieldRoundTrip32(h.sampleRate);
    FieldRoundTrip32(h.byteRate);
    FieldRoundTrip16(h.formatTag);
    FieldRoundTrip16(h.channels);
    FieldRoundTrip16(h.blockAlign);
    FieldRoundTrip16(h.bitsPerSample);
  }

  lemma SizePartsRoundTrip(riff: nat, data: nat)
    ensures ParseRiff(RiffPart(riff)) == Some(riff % U32)
    ensures ParseData(DataPart(data)) == Some(data % U32)
  {
    FieldRoundTrip32(riff);
    FieldRoundTrip32(data);
    assert RiffPart(riff)[4..8] == U32Bytes(riff);
    assert DataPart(data)[4..] == U32Bytes(data);
  }

  /** What a reader gets back from a file that starts with these header bytes. */
  lemma HeaderRoundTrip(h: Header, data: seq<Byte>)
    ensures ParseHeader(HeaderBytes(h) + data) == Some(((h.dataSize + 36) % U32, Truncated(h)))
  {
    var content := HeaderBytes(h) + data;
    assert content[..12] == RiffPart(h.dataSize + 36);
    assert content[12..36] == FormatPart(h);
    assert content[36..44] == DataPart(h.dataSize);
    FormatRoundTrip(h);
    SizePartsRoundTrip(h.dataSize + 36, h.dataSize);
  }

  /** The two sizes read back exactly when they fit in 32 bits, and only then. */
  lemma SizesExact(h: Header, data: seq<Byte>)
    ensures var p := ParseHeader(HeaderBytes(h) + data);
            && p.Some?
            && ((p.value.0 == h.dataSize + 36 && p.value.1.dataSize == h.dataSize)
                <==> h.dataSize + 36 < U32)
  {
    HeaderRoundTrip(h, data);
    SizesFit(h.dataSize);
  }

  lemma SizesFit(n: nat)
    ensures (n + 36) % U32 == n + 36 && n % U32 == n <==> n + 36 < U32
  {
    if n + 36 >= U32 {
      assert (n + 36) % U32 < U32;
    }
  }
}
