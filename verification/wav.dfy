/** The WAV serialiser of the engine (audioBufferToBlob in
    services/ToneEngine.ts): a canonical 44-byte RIFF/WAVE header with a PCM
    `fmt ` chunk and a `data` chunk, followed by clamped, 16-bit,
    little-endian, interleaved samples. */
module Wav {
  import opened JsMath

  type Byte = b: int | 0 <= b < 256

  /** Size of the RIFF, `fmt ` and `data` chunk headers together. */
  const HeaderSize: nat := 44

  /** A decoded audio buffer: `length` frames per channel, one sequence of
      samples per channel. A channel shorter than `length` reads as silence
      past its end, as an undefined element does in the source. */
  datatype AudioBuffer = AudioBuffer(sampleRate: nat, length: nat, channels: seq<seq<real>>)
  {
    function NumberOfChannels(): nat {
      |channels|
    }

    /** Bytes per frame: two per channel. */
    function BlockAlign(): nat {
      NumberOfChannels() * 2
    }

    /** Bytes of the whole file: two per sample plus the header. */
    function FileLength(): nat {
      length * BlockAlign() + HeaderSize
    }
  }

  // ---------------------------------------------------------------------------
  // Little-endian words, as DataView writes and reads them

  /** `setUint16(pos, v, true)`: v is reduced modulo 2^16 (this also covers
      `setInt16`, whose two's-complement image is the same residue), low byte
      first. */
  function Uint16LE(v: int): (r: seq<Byte>)
    ensures |r| == 2
  {
    var u := v % 0x1_0000;
    [u % 0x100, u / 0x100]
  }

  /** `setUint32(pos, v, true)`: v is reduced modulo 2^32, low byte first. */
  function Uint32LE(v: int): (r: seq<Byte>)
    ensures |r| == 4
  {
    var u := v % 0x1_0000_0000;
    [u % 0x100, (u / 0x100) % 0x100, (u / 0x1_0000) % 0x100, u / 0x100_0000]
  }

  function U16At(bs: seq<Byte>, off: nat): int
    requires off + 2 <= |bs|
  {
    bs[off] as int + 0x100 * (bs[off + 1] as int)
  }

  function U32At(bs: seq<Byte>, off: nat): int
    requires off + 4 <= |bs|
  {
    bs[off] as int + 0x100 * (bs[off + 1] as int) + 0x1_0000 * (bs[off + 2] as int) + 0x100_0000 * (bs[off + 3] as int)
  }

  /** `getInt16(off, true)`: the two bytes as a two's-complement integer. */
  function I16At(bs: seq<Byte>, off: nat): int
    requires off + 2 <= |bs|
  {
    var u := U16At(bs, off);
    if u >= 0x8000 then u - 0x1_0000 else u
  }

  lemma Uint16RoundTrip(v: int)
    ensures U16At(Uint16LE(v), 0) == v % 0x1_0000
  {
  }

  lemma Uint32RoundTrip(v: int)
    ensures U32At(Uint32LE(v), 0) == v % 0x1_0000_0000
  {
    var u := v % 0x1_0000_0000;
    assert u == u % 0x100 + 0x100 * (u / 0x100);
    assert u / 0x100 == (u / 0x100) % 0x100 + 0x100 * (u / 0x1_0000);
    assert u / 0x1_0000 == (u / 0x1_0000) % 0x100 + 0x100 * (u / 0x100_0000);
  }

  lemma Int16RoundTrip(v: int)
    requires -0x8000 <= v < 0x8000
    ensures I16At(Uint16LE(v), 0) == v
  {
    Uint16RoundTrip(v);
  }

  // ---------------------------------------------------------------------------
  // The four chunk tags

  function Ascii(s: string): seq<int> {
    seq(|s|, i requires 0 <= i < |s| => s[i] as int)
  }

  const RiffTag: int := 0x46464952
  const WaveTag: int := 0x45564157
  const FmtTag: int := 0x20746d66
  const DataTag: int := 0x61746164

  /** Written as little-endian 32-bit words, the tag constants spell the
      ASCII chunk identifiers of the RIFF format. */
  lemma TagWordsSpellIdentifiers()
    ensures Uint32LE(RiffTag) == Ascii("RIFF")
    ensures Uint32LE(WaveTag) == Ascii("WAVE")
    ensures Uint32LE(FmtTag) == Ascii("fmt ")
    ensures Uint32LE(DataTag) == Ascii("data")
  {
    assert Uint32LE(RiffTag) == [0x52, 0x49, 0x46, 0x46] == Ascii("RIFF");
    assert Uint32LE(WaveTag) == [0x57, 0x41, 0x56, 0x45] == Ascii("WAVE");
    assert Uint32LE(FmtTag) == [0x66, 0x6d, 0x74, 0x20] == Ascii("fmt ");
    assert Uint32LE(DataTag) == [0x64, 0x61, 0x74, 0x61] == Ascii("data");
  }

  // ---------------------------------------------------------------------------
  // Sample quantisation

  /** `Math.max(-1, Math.min(1, s))`. */
  function Clamp(s: real): (c: real)
    ensures -1.0 <= c <= 1.0
    ensures -1.0 <= s <= 1.0 ==> c == s
    ensures s > 1.0 ==> c == 1.0
    ensures s < -1.0 ==> c == -1.0
  {
    Max(-1.0, Min(1.0, s))
  }

  /** The source's scaling: only a clamped sample with `0.5 + c < 0`, that
      is one below -0.5, is scaled by 32768; all others by 32767; the
      product is then truncated toward zero. */
  function Quantize(s: real): (q: int)
    ensures -0x8000 <= q < 0x8000
  {
    var c := Clamp(s);
    Trunc(if 0.5 + c < 0.0 then c * 32768.0 else c * 32767.0)
  }

  /** Full scale maps to the ends of the 16-bit range and silence to 0. */
  lemma QuantizeExtremes(s: real)
    ensures s >= 1.0 ==> Quantize(s) == 0x7fff
    ensures s <= -1.0 ==> Quantize(s) == -0x8000
    ensures s == 0.0 ==> Quantize(s) == 0
  {
  }

  /** Quantisation preserves the order of samples, across the -0.5 switch
      between the two scale factors as well. */
  lemma QuantizeMonotone(a: real, b: real)
    requires a <= b
    ensures Quantize(a) <= Quantize(b)
  {
    var ca, cb := Clamp(a), Clamp(b);
    assert ca <= cb;
    if 0.5 + ca < 0.0 && !(0.5 + cb < 0.0) {
      TruncMonotone(ca * 32768.0, -16384.0);
      TruncMonotone(-16383.5, cb * 32767.0);
    } else if 0.5 + ca < 0.0 {
      TruncMonotone(ca * 32768.0, cb * 32768.0);
    } else {
      TruncMonotone(ca * 32767.0, cb * 32767.0);
    }
  }

  /** The written integer is within two steps of the clamped sample scaled
      by 32768, the usual reading of a 16-bit sample. */
  lemma QuantizeError(s: real)
    ensures -2.0 < Quantize(s) as real - Clamp(s) * 32768.0 < 2.0
  {
  }

  // ---------------------------------------------------------------------------
  // Chunked layout

  /** The concatenation of a sequence of chunks, in order. */
  function Flatten(chunks: seq<seq<Byte>>): seq<Byte> {
    if |chunks| == 0 then [] else Flatten(chunks[..|chunks| - 1]) + chunks[|chunks| - 1]
  }

  ghost predicate Uniform(chunks: seq<seq<Byte>>, k: nat) {
    forall i :: 0 <= i < |chunks| ==> |chunks[i]| == k
  }

  lemma FlattenStep(chunks: seq<seq<Byte>>, j: nat)
    requires j < |chunks|
    ensures Flatten(chunks[..j + 1]) == Flatten(chunks[..j]) + chunks[j]
  {
    assert chunks[..j + 1][..j] == chunks[..j];
  }

  lemma {:induction false} FlattenLength(chunks: seq<seq<Byte>>, k: nat)
    requires Uniform(chunks, k)
    ensures |Flatten(chunks)| == |chunks| * k
  {
    if |chunks| > 0 {
      var init := chunks[..|chunks| - 1];
      FlattenLength(init, k);
      assert |chunks| * k == |init| * k + k;
    }
  }

  /** Flattening a prefix of the chunks yields a prefix of the whole. */
  lemma {:induction false} FlattenPrefix(chunks: seq<seq<Byte>>, j: nat)
    requires j <= |chunks|
    ensures |Flatten(chunks[..j])| <= |Flatten(chunks)|
    ensures Flatten(chunks)[..|Flatten(chunks[..j])|] == Flatten(chunks[..j])
  {
    if j < |chunks| {
      var init := chunks[..|chunks| - 1];
      assert init[..j] == chunks[..j];
      FlattenPrefix(init, j);
      assert Flatten(chunks) == Flatten(init) + chunks[|chunks| - 1];
    } else {
      assert chunks[..j] == chunks;
    }
  }

  /** With chunks of equal size k, chunk j occupies bytes j*k .. j*k+k. */
  lemma FlattenAt(chunks: seq<seq<Byte>>, k: nat, j: nat)
    requires Uniform(chunks, k)
    requires j < |chunks|
    ensures j * k + k <= |Flatten(chunks)|
    ensures Flatten(chunks)[j * k .. j * k + k] == chunks[j]
  {
    var pre := chunks[..j];
    FlattenLength(pre, k);
    FlattenLength(chunks, k);
    FlattenStep(chunks, j);
    FlattenPrefix(chunks, j + 1);
    var upto := Flatten(chunks[..j + 1]);
    assert |upto| == j * k + k;
    assert Flatten(chunks)[j * k .. j * k + k] == upto[j * k ..];
  }

  // ---------------------------------------------------------------------------
  // Header and payload

  /** `channels[c][f] || 0`. */
  function SampleAt(buf: AudioBuffer, c: nat, f: nat): (s: real)
    requires c < buf.NumberOfChannels()
    ensures f < |buf.channels[c]| ==> s == buf.channels[c][f]
    ensures f >= |buf.channels[c]| ==> s == 0.0
  {
    if f < |buf.channels[c]| then buf.channels[c][f] else 0.0
  }

  function SampleBytes(buf: AudioBuffer, c: nat, f: nat): (r: seq<Byte>)
    requires c < buf.NumberOfChannels()
    ensures |r| == 2
  {
    Uint16LE(Quantize(SampleAt(buf, c, f)))
  }

  /** The samples of frame f, one per channel in channel order. */
  function FrameSamples(buf: AudioBuffer, f: nat): (r: seq<seq<Byte>>)
    ensures |r| == buf.NumberOfChannels()
    ensures Uniform(r, 2)
  {
    seq(buf.NumberOfChannels(), c requires 0 <= c < buf.NumberOfChannels() => SampleBytes(buf, c, f))
  }

  function FrameBytes(buf: AudioBuffer, f: nat): (r: seq<Byte>)
    ensures |r| == buf.BlockAlign()
  {
    FlattenLength(FrameSamples(buf, f), 2);
    Flatten(FrameSamples(buf, f))
  }

  /** The frames 0..n-1. */
  function Frames(buf: AudioBuffer, n: nat): (r: seq<seq<Byte>>)
    ensures |r| == n
    ensures Uniform(r, buf.BlockAlign())
  {
    seq(n, f requires 0 <= f < n => FrameBytes(buf, f))
  }

  /** The interleaved samples of every frame. */
  function Payload(buf: AudioBuffer): (r: seq<Byte>)
    ensures |r| == buf.length * buf.BlockAlign()
  {
    FlattenLength(Frames(buf, buf.length), buf.BlockAlign());
    Flatten(Frames(buf, buf.length))
  }

  /** One write of the header: `setUint16` or `setUint32` at the current
      position, which then advances by the width written. */
  datatype Write = Word16(value: int) | Word32(value: int)

  function Width(w: Write): nat {
    if w.Word16? then 2 else 4
  }

  function WriteBytes(w: Write): (r: seq<Byte>)
    ensures |r| == Width(w)
  {
    match w
    case Word16(v) => Uint16LE(v)
    case Word32(v) => Uint32LE(v)
  }

  /** The position reached after a run of writes from position 0. */
  function EndOf(ws: seq<Write>): nat {
    if |ws| == 0 then 0 else EndOf(ws[..|ws| - 1]) + Width(ws[|ws| - 1])
  }

  /** The bytes of a run of writes, each placed where the previous one
      ended. */
  function Serialize(ws: seq<Write>): (r: seq<Byte>)
    ensures |r| == EndOf(ws)
  {
    if |ws| == 0 then [] else Serialize(ws[..|ws| - 1]) + WriteBytes(ws[|ws| - 1])
  }

  /** The thirteen header writes, in order: the RIFF descriptor (tag, file
      length less 8, form type), the `fmt ` chunk (tag, size 16, format 1
      for PCM, channels, sample rate, bytes per second, block alignment,
      16 bits per sample) and the `data` chunk header (tag, and the file
      length less the position 40 reached so far and the 4 bytes of the
      field itself). */
  function HeaderWrites(buf: AudioBuffer): (ws: seq<Write>)
    ensures |ws| == 13
  {
    var length := buf.FileLength();
    var nch := buf.NumberOfChannels();
    [ Word32(RiffTag), Word32(length - 8), Word32(WaveTag),
      Word32(FmtTag), Word32(16), Word16(1), Word16(nch),
      Word32(buf.sampleRate), Word32(buf.sampleRate * 2 * nch), Word16(nch * 2), Word16(16),
      Word32(DataTag), Word32(length - 40 - 4) ]
  }

  /** The position at which each header write starts. */
  const HeaderOffsets: seq<nat> := [0, 4, 8, 12, 16, 20, 22, 24, 28, 32, 34, 36, 40]

  function Header(buf: AudioBuffer): (h: seq<Byte>)
    ensures |h| == HeaderSize
  {
    HeaderPositions(buf);
    Serialize(HeaderWrites(buf))
  }

  lemma EndOfSnoc(ws: seq<Write>, k: nat)
    requires k < |ws|
    ensures EndOf(ws[..k + 1]) == EndOf(ws[..k]) + Width(ws[k])
  {
    assert ws[..k + 1][..k] == ws[..k];
  }

  /** Each header write starts where the previous ones end; the last ends
      at 44. In particular the `data` size is written when the position is
      40. */
  lemma HeaderPositions(buf: AudioBuffer)
    ensures forall k :: 0 <= k < 13 ==> EndOf(HeaderWrites(buf)[..k]) == HeaderOffsets[k]
    ensures EndOf(HeaderWrites(buf)) == HeaderSize
  {
    var ws := HeaderWrites(buf);
    assert ws[..0] == [];
    EndOfSnoc(ws, 0);
    EndOfSnoc(ws, 1);
    EndOfSnoc(ws, 2);
    EndOfSnoc(ws, 3);
    EndOfSnoc(ws, 4);
    EndOfSnoc(ws, 5);
    EndOfSnoc(ws, 6);
    EndOfSnoc(ws, 7);
    EndOfSnoc(ws, 8);
    EndOfSnoc(ws, 9);
    EndOfSnoc(ws, 10);
    EndOfSnoc(ws, 11);
    EndOfSnoc(ws, 12);
    assert ws[..13] == ws;
  }

  /** The serialised file. */
  function Encode(buf: AudioBuffer): (bytes: seq<Byte>)
    ensures |bytes| == buf.FileLength()
    ensures bytes[..HeaderSize] == Header(buf)
  {
    PrefixOfAppend(Header(buf), Payload(buf));
    Header(buf) + Payload(buf)
  }

  lemma PrefixOfAppend(a: seq<Byte>, b: seq<Byte>)
    ensures (a + b)[..|a|] == a
  {
  }

  // ---------------------------------------------------------------------------
  // Properties of the file

  lemma ReadWord32(bs: seq<Byte>, off: nat, v: int)
    requires off + 4 <= |bs|
    requires bs[off .. off + 4] == Uint32LE(v)
    ensures U32At(bs, off) == v % 0x1_0000_0000
  {
    Uint32RoundTrip(v);
    assert U32At(bs, off) == U32At(Uint32LE(v), 0);
  }

  lemma ReadWord16(bs: seq<Byte>, off: nat, v: int)
    requires off + 2 <= |bs|
    requires bs[off .. off + 2] == Uint16LE(v)
    ensures U16At(bs, off) == v % 0x1_0000
  {
    Uint16RoundTrip(v);
    assert U16At(bs, off) == U16At(Uint16LE(v), 0);
  }

  lemma SliceLeft(a: seq<Byte>, b: seq<Byte>, i: nat, j: nat)
    requires i <= j <= |a|
    ensures (a + b)[i .. j] == a[i .. j]
  {
    var u, v := (a + b)[i .. j], a[i .. j];
    assert forall k :: 0 <= k < j - i ==> u[k] == v[k];
  }

  lemma SliceRight(a: seq<Byte>, b: seq<Byte>, i: nat, j: nat)
    requires i <= j <= |b|
    ensures (a + b)[|a| + i .. |a| + j] == b[i .. j]
  {
    var u, v := (a + b)[|a| + i .. |a| + j], b[i .. j];
    assert forall k :: 0 <= k < j - i ==> u[k] == v[k];
  }

  /** A write's bytes sit in the serialised run from where the writes
      before it end. */
  lemma {:induction false} WriteAt(ws: seq<Write>, k: nat)
    requires k < |ws|
    ensures EndOf(ws[..k]) + Width(ws[k]) <= |Serialize(ws)|
    ensures Serialize(ws)[EndOf(ws[..k]) .. EndOf(ws[..k]) + Width(ws[k])] == WriteBytes(ws[k])
    decreases |ws|
  {
    var init := ws[..|ws| - 1];
    var last := WriteBytes(ws[|ws| - 1]);
    assert Serialize(ws) == Serialize(init) + last;
    if k == |ws| - 1 {
      assert init == ws[..k];
      SliceRight(Serialize(init), last, 0, |last|);
    } else {
      WriteAt(init, k);
      assert init[..k] == ws[..k] && init[k] == ws[k];
      EndOfSnoc(init, k);
      PrefixEnds(init, k + 1);
      SliceLeft(Serialize(init), last, EndOf(ws[..k]), EndOf(ws[..k]) + Width(ws[k]));
    }
  }

  /** A run of writes ends no earlier than any of its prefixes. */
  lemma {:induction false} PrefixEnds(ws: seq<Write>, n: nat)
    requires n <= |ws|
    ensures EndOf(ws[..n]) <= EndOf(ws)
    decreases |ws| - n
  {
    if n < |ws| {
      EndOfSnoc(ws, n);
      PrefixEnds(ws, n + 1);
    } else {
      assert ws[..n] == ws;
    }
  }

  /** The bytes of header write k, in the header at its offset. */
  lemma HeaderWriteAt(buf: AudioBuffer, k: nat)
    requires k < 13
    ensures var off, w := HeaderOffsets[k], HeaderWrites(buf)[k];
      Header(buf)[off .. off + Width(w)] == WriteBytes(w)
  {
    HeaderPositions(buf);
    WriteAt(HeaderWrites(buf), k);
  }

  /** What `getUint16` or `getUint32` reads at off, for a write of w's
      width. */
  function ReadBack(bs: seq<Byte>, off: nat, w: Write): int
    requires off + Width(w) <= |bs|
  {
    if w.Word16? then U16At(bs, off) else U32At(bs, off)
  }

  /** The value a write stores: reduced modulo 2^16 or 2^32. */
  function Stored(w: Write): int {
    if w.Word16? then w.value % 0x1_0000 else w.value % 0x1_0000_0000
  }

  /** Header write k reads back, at its offset, as the value it stores. */
  lemma HeaderWord(buf: AudioBuffer, k: nat)
    requires k < 13
    ensures HeaderOffsets[k] + Width(HeaderWrites(buf)[k]) <= HeaderSize
    ensures ReadBack(Header(buf), HeaderOffsets[k], HeaderWrites(buf)[k]) == Stored(HeaderWrites(buf)[k])
  {
    var w := HeaderWrites(buf)[k];
    HeaderWriteAt(buf, k);
    if w.Word16? {
      ReadWord16(Header(buf), HeaderOffsets[k], w.value);
    } else {
      ReadWord32(Header(buf), HeaderOffsets[k], w.value);
    }
  }

  /** Every header write reads back, at its offset, as the value it
      stores. */
  lemma HeaderReadsBack(buf: AudioBuffer)
    ensures forall k :: 0 <= k < 13 ==>
      && HeaderOffsets[k] + Width(HeaderWrites(buf)[k]) <= HeaderSize
      && ReadBack(Header(buf), HeaderOffsets[k], HeaderWrites(buf)[k]) == Stored(HeaderWrites(buf)[k])
  {
    forall k | 0 <= k < 13
      ensures HeaderOffsets[k] + Width(HeaderWrites(buf)[k]) <= HeaderSize
      ensures ReadBack(Header(buf), HeaderOffsets[k], HeaderWrites(buf)[k]) == Stored(HeaderWrites(buf)[k])
    {
      HeaderWord(buf, k);
    }
  }

  /** The four chunk identifiers, at offsets 0, 8, 12 and 36 of the
      header. */
  lemma HeaderTags(buf: AudioBuffer)
    ensures var h := Header(buf);
      && h[0..4] == Ascii("RIFF")
      && h[8..12] == Ascii("WAVE")
      && h[12..16] == Ascii("fmt ")
      && h[36..40] == Ascii("data")
  {
    TagWordsSpellIdentifiers();
    HeaderWriteAt(buf, 0);
    HeaderWriteAt(buf, 2);
    HeaderWriteAt(buf, 3);
    HeaderWriteAt(buf, 11);
  }

  /** The constant fields of the `fmt ` chunk: chunk size 16 at offset 16,
      format tag 1 (PCM) at 20 and 16 bits per sample at 34; the sample
      rate at 24 is reduced modulo 2^32. */
  lemma FormatConstants(buf: AudioBuffer)
    ensures var h := Header(buf);
      && U32At(h, 16) == 16
      && U16At(h, 20) == 1
      && U32At(h, 24) == buf.sampleRate % 0x1_0000_0000
      && U16At(h, 34) == 16
  {
    HeaderWord(buf, 4);
    HeaderWord(buf, 5);
    HeaderWord(buf, 7);
    HeaderWord(buf, 10);
  }

  /** When the file is shorter than 4 GiB, the two size fields carry the
      sizes exactly: the RIFF size is the file length less 8 and the data
      size is the payload length, the file length less the header. */
  lemma SizeFieldsExact(buf: AudioBuffer)
    requires buf.FileLength() - 8 < 0x1_0000_0000
    ensures var h := Header(buf);
      && U32At(h, 4) == buf.FileLength() - 8
      && U32At(h, 40) == buf.FileLength() - HeaderSize == buf.length * buf.BlockAlign()
  {
    var payload := buf.length * buf.BlockAlign();
    HeaderWord(buf, 1);
    HeaderWord(buf, 12);
    ModOfSmall(buf.FileLength() - 8, 0x1_0000_0000);
    ModOfSmall(payload, 0x1_0000_0000);
  }

  /** When they fit their fields, the channel count, the byte rate
      rate*2*channels and the block alignment 2*channels are carried
      exactly. */
  lemma FormatFieldsExact(buf: AudioBuffer)
    requires buf.sampleRate * 2 * buf.NumberOfChannels() < 0x1_0000_0000
    requires 2 * buf.NumberOfChannels() < 0x1_0000
    ensures var h, nch := Header(buf), buf.NumberOfChannels();
      && U16At(h, 22) == nch
      && U32At(h, 28) == buf.sampleRate * 2 * nch
      && U16At(h, 32) == 2 * nch
  {
    var nch := buf.NumberOfChannels();
    HeaderWord(buf, 6);
    HeaderWord(buf, 8);
    HeaderWord(buf, 9);
    ModOfSmall(nch, 0x1_0000);
    ProductNonNegative(buf.sampleRate * 2, nch);
    ModOfSmall(buf.sampleRate * 2 * nch, 0x1_0000_0000);
    ModOfSmall(2 * nch, 0x1_0000);
  }

  lemma ProductNonNegative(a: nat, b: nat)
    ensures a * b >= 0
  {
  }

  lemma ModOfSmall(x: int, m: int)
    requires 0 <= x < m
    ensures x % m == x
  {
  }

  /** Two levels of equal-sized chunks: the j-th two-byte piece of the
      f-th chunk of k pieces sits at 2*(f*k + j) of the whole. */
  lemma NestedAt(outer: seq<seq<Byte>>, inner: seq<seq<Byte>>, k: nat, f: nat, j: nat)
    requires Uniform(outer, 2 * k)
    requires f < |outer|
    requires |inner| == k && Uniform(inner, 2)
    requires outer[f] == Flatten(inner)
    requires j < k
    ensures 2 * (f * k + j) + 2 <= |Flatten(outer)|
    ensures Flatten(outer)[2 * (f * k + j) .. 2 * (f * k + j) + 2] == inner[j]
  {
    NestedOffset(f, k, 2 * k, j);
    NestedPiece(outer, inner, 2 * k, f, j);
  }

  /** NestedAt with the chunk's offset left as f * size. */
  lemma NestedPiece(outer: seq<seq<Byte>>, inner: seq<seq<Byte>>, size: nat, f: nat, j: nat)
    requires Uniform(outer, size)
    requires f < |outer|
    requires Uniform(inner, 2) && 2 * |inner| == size
    requires outer[f] == Flatten(inner)
    requires j < |inner|
    ensures f * size + 2 * j + 2 <= |Flatten(outer)|
    ensures Flatten(outer)[f * size + 2 * j .. f * size + 2 * j + 2] == inner[j]
  {
    var whole, mid := Flatten(outer), Flatten(inner);
    ProductNonNegative(f, size);
    FlattenAt(outer, size, f);
    FlattenAt(inner, 2, j);
    assert j * 2 == 2 * j;
    SliceChain(whole, mid, inner[j], f * size, size, 2 * j);
  }

  /** A piece of a slice is a slice of the whole, at the summed offset. */
  lemma SliceChain(whole: seq<Byte>, mid: seq<Byte>, piece: seq<Byte>, base: nat, size: nat, off: nat)
    requires base + size <= |whole| && whole[base .. base + size] == mid
    requires off + |piece| <= size && mid[off .. off + |piece|] == piece
    ensures whole[base + off .. base + off + |piece|] == piece
  {
    SliceOfSlice(whole, base, size, off, |piece|);
  }

  lemma NestedOffset(f: nat, k: nat, size: nat, j: nat)
    requires size == 2 * k
    requires j < k
    ensures f * size >= 0
    ensures f * size + 2 * j == 2 * (f * k + j)
    ensures 2 * j + 2 <= size
  {
    assert f * size == 2 * (f * k);
  }

  lemma SliceOfSlice(s: seq<Byte>, a: nat, n: nat, b: nat, m: nat)
    requires a + n <= |s|
    requires b + m <= n
    ensures s[a .. a + n][b .. b + m] == s[a + b .. a + b + m]
  {
    var u, v := s[a .. a + n][b .. b + m], s[a + b .. a + b + m];
    assert forall i :: 0 <= i < m ==> u[i] == v[i];
  }

  /** Where the sample of frame f, channel c starts: behind the header,
      two bytes for every sample written before it. */
  function SampleOffset(nch: nat, f: nat, c: nat): nat {
    HeaderSize + 2 * (f * nch + c)
  }

  /** Within the payload, the sample of frame f, channel c is the two
      bytes at 2*(f*channels + c). */
  lemma PayloadSample(buf: AudioBuffer, f: nat, c: nat)
    requires f < buf.length
    requires c < buf.NumberOfChannels()
    ensures var j := 2 * (f * buf.NumberOfChannels() + c);
      && j + 2 <= |Payload(buf)|
      && Payload(buf)[j .. j + 2] == SampleBytes(buf, c, f)
  {
    NestedAt(Frames(buf, buf.length), FrameSamples(buf, f), buf.NumberOfChannels(), f, c);
  }

  lemma SliceOfAppend(a: seq<Byte>, b: seq<Byte>, j: nat, m: nat)
    requires j + m <= |b|
    ensures (a + b)[|a| + j .. |a| + j + m] == b[j .. j + m]
  {
    var u, v := (a + b)[|a| + j .. |a| + j + m], b[j .. j + m];
    assert forall i :: 0 <= i < m ==> u[i] == v[i];
  }

  /** Two bytes written by `setInt16` read back as the value written. */
  lemma ReadInt16(bs: seq<Byte>, off: nat, v: int)
    requires -0x8000 <= v < 0x8000
    requires off + 2 <= |bs|
    requires bs[off .. off + 2] == Uint16LE(v)
    ensures I16At(bs, off) == v
  {
    Int16RoundTrip(v);
    assert I16At(bs, off) == I16At(Uint16LE(v), 0);
  }

  /** The sample of frame f, channel c sits at byte 44 + 2*(f*channels + c)
      and reads back as exactly the quantised sample. */
  lemma SampleLands(buf: AudioBuffer, f: nat, c: nat)
    requires f < buf.length
    requires c < buf.NumberOfChannels()
    ensures var i, bs := SampleOffset(buf.NumberOfChannels(), f, c), Encode(buf);
      && i + 2 <= |bs|
      && bs[i .. i + 2] == Uint16LE(Quantize(SampleAt(buf, c, f)))
      && I16At(bs, i) == Quantize(SampleAt(buf, c, f))
  {
    var j := 2 * (f * buf.NumberOfChannels() + c);
    PayloadSample(buf, f, c);
    SliceOfAppend(Header(buf), Payload(buf), j, 2);
    ReadInt16(Encode(buf), HeaderSize + j, Quantize(SampleAt(buf, c, f)));
  }

  /** A frame past the end of a channel's data, but inside the buffer's
      length, is written as silence: two zero bytes. */
  lemma SilencePastChannelEnd(buf: AudioBuffer, f: nat, c: nat)
    requires f < buf.length
    requires c < buf.NumberOfChannels() && f >= |buf.channels[c]|
    ensures var i, bs := SampleOffset(buf.NumberOfChannels(), f, c), Encode(buf);
      && i + 2 <= |bs|
      && bs[i .. i + 2] == [0, 0]
      && I16At(bs, i) == 0
  {
    SampleLands(buf, f, c);
  }

  /** Without channels the file is the header alone. */
  lemma NoChannelsHeaderOnly(buf: AudioBuffer)
    requires buf.NumberOfChannels() == 0
    ensures Encode(buf) == Header(buf)
  {
  }

  // ---------------------------------------------------------------------------
  // The writer loop

  /** One round of the source's outer loop: every channel's sample of
      frame f, clamped, scaled and truncated, in channel order. */
  method WriteFrame(buf: AudioBuffer, f: nat) returns (frame: seq<Byte>)
    ensures frame == FrameBytes(buf, f)
  {
    var nch := buf.NumberOfChannels();
    ghost var samples := FrameSamples(buf, f);
    frame := [];
    var i := 0;
    while i < nch
      invariant 0 <= i <= nch
      invariant frame == Flatten(samples[..i])
    {
      var sample := Clamp(SampleAt(buf, i, f));
      var q := Trunc(if 0.5 + sample < 0.0 then sample * 32768.0 else sample * 32767.0);
      FlattenStep(samples, i);
      frame := frame + Uint16LE(q);
      i := i + 1;
    }
    assert samples[..nch] == samples;
  }

  /** The encoder as the source writes it: the header, then a loop that
      runs while the write position is short of the file length, writing
      one frame of interleaved samples per round. The bytes behind the
      header are kept in `data` while the loop runs. The loop runs once per
      frame, not at all without channels, and stops with the position at
      the file length. */
  method EncodeWav(buf: AudioBuffer) returns (out: seq<Byte>, rounds: nat, pos: nat)
    ensures out == Encode(buf)
    ensures rounds == if buf.NumberOfChannels() == 0 then 0 else buf.length
    ensures pos == buf.FileLength()
  {
    var nch := buf.NumberOfChannels();
    var length := buf.length * nch * 2 + 44;
    ghost var frames := Frames(buf, buf.length);
    FlattenLength(frames, buf.BlockAlign());
    FileLengthForm(buf.length, nch);
    var data := [];
    pos := HeaderSize;
    var offset: nat := 0;
    while pos < length
      invariant offset <= buf.length
      invariant data == Flatten(frames[..offset])
      invariant pos == HeaderSize + |data|
      invariant nch == 0 ==> offset == 0
      decreases length - pos
    {
      FlattenLength(frames[..offset], buf.BlockAlign());
      assert offset < buf.length;
      var frame := WriteFrame(buf, offset);
      FlattenStep(frames, offset);
      data := data + frame;
      pos := pos + 2 * nch;
      offset := offset + 1;
    }
    FlattenLength(frames[..offset], buf.BlockAlign());
    if nch == 0 {
      assert data == [] == Flatten(frames);
    } else {
      if offset < buf.length {
        MulStrict(offset, buf.length, buf.BlockAlign());
      }
      assert frames[..offset] == frames;
    }
    out := Header(buf) + data;
    rounds := offset;
  }

  /** The source's file length `length * channels * 2 + 44`, regrouped. */
  lemma FileLengthForm(n: nat, nch: nat)
    ensures n * nch * 2 == n * (nch * 2)
  {
  }

  lemma MulStrict(a: nat, b: nat, k: nat)
    requires a < b
    requires k > 0
    ensures a * k < b * k
  {
  }
}
