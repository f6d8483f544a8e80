/** The bytes of an ATP file spelled out, also those no reader looks at. */
module AtpBytes {
  import opened Bytes
  import opened AtpChunks
  import opened AtpFormat
  import opened AtpRoundTrip

  /** The low byte of a 32-bit word comes first. */
  lemma {:induction false} DWordBytes(a: byte, b: byte, c: byte, d: byte)
    ensures DWord(a as nat + 0x100 * b as nat + 0x1_0000 * c as nat + 0x100_0000 * d as nat) == [a, b, c, d]
  {
    var low: nat, high: nat := a as nat + 0x100 * b as nat, c as nat + 0x100 * d as nat;
    Over64K(low, high);
    Over256(a, b);
    Over256(c, d);
    assert DWord(low + 0x1_0000 * high) == Word(low) + Word(high);
  }

  lemma {:induction false} SmallDWord(n: byte)
    ensures DWord(n) == [n, 0, 0, 0]
  {
    DWordBytes(n, 0, 0, 0);
  }

  /** A sector: `SECT`, 137 bytes, its number, its length, its status and its data. */
  lemma {:induction false} SectorBytes(s: AtpSector)
    requires SectorOk(s)
    ensures SectorChunk(ATP, s)
         == [0x53, 0x45, 0x43, 0x54, 137, 0, 0, 0, s.id, 0, 0, 0, 128, 0, 0, 0, s.status] + s.data
  {
    SmallDWord(137);
    SmallDWord(s.id);
    SmallDWord(128);
  }

  /** A track: `TRAK`, its length, its number, its number of sectors, 0 for FM or 1 for MFM, and its sectors. */
  lemma {:induction false} TrackBytes(t: Track, i: byte)
    requires TrackOk(t, i)
    ensures ATP.chunk(TRAK, TrackData(ATP, t))
         == [0x54, 0x52, 0x41, 0x4b] + DWord(12 + 145 * |t.sectors|)
            + ([i, 0, 0, 0, |t.sectors|, 0, 0, 0, if t.density.MFM? then 1 else 0, 0, 0, 0] + SectorChunks(ATP, t.sectors))
  {
    AllSectorsTake(t.sectors);
    ThreeSmallWords(i, |t.sectors|, if t.density.MFM? then 1 else 0);
    ChunkStarts(TRAK, TrackData(ATP, t), 12 + 145 * |t.sectors|);
  }

  lemma {:induction false} ThreeSmallWords(a: byte, b: byte, c: byte)
    ensures DWord(a) + DWord(b) + DWord(c) == [a, 0, 0, 0, b, 0, 0, 0, c, 0, 0, 0]
  {
    SmallDWord(a);
    SmallDWord(b);
    SmallDWord(c);
  }

  lemma {:induction false} AllSectorsTake(sectors: seq<AtpSector>)
    requires SectorsOk(sectors)
    ensures |SectorChunks(ATP, sectors)| == 145 * |sectors|
  {
    AtpIsSound();
    SectorChunksLength(ATP, sectors);
  }

  /** The timing of a track: `TTI1`, its length, number and number of sectors, and their timing. */
  lemma {:induction false} TrackTimingBytes(t: Track, i: byte)
    requires TrackOk(t, i)
    ensures ATP.chunk(TTI1, TimingData(ATP, t))
         == [0x54, 0x54, 0x49, 0x31] + DWord(8 + 8 * |t.sectors|) + ([i, 0, 0, 0, |t.sectors|, 0, 0, 0] + Timings(ATP, t.sectors))
  {
    AllTimingsTake(t.sectors);
    TwoSmallWords(i, |t.sectors|);
    ChunkStarts(TTI1, TimingData(ATP, t), 8 + 8 * |t.sectors|);
  }

  lemma {:induction false} TwoSmallWords(a: byte, b: byte)
    ensures DWord(a) + DWord(b) == [a, 0, 0, 0, b, 0, 0, 0]
  {
    SmallDWord(a);
    SmallDWord(b);
  }

  lemma {:induction false} AllTimingsTake(sectors: seq<AtpSector>)
    ensures |Timings(ATP, sectors)| == 8 * |sectors|
  {
    AtpIsSound();
    TimingsLength(ATP, sectors);
  }

  // ------------------------------------------------------------------
  // The lengths
  // ------------------------------------------------------------------

  function SectorCount(tracks: seq<Track>): nat
    decreases |tracks|
  {
    if tracks == [] then 0 else |tracks[0].sectors| + SectorCount(tracks[1..])
  }

  lemma {:induction false} SectorCountBound(tracks: seq<Track>, i: nat)
    requires TracksOk(tracks, i)
    ensures SectorCount(tracks) <= 255 * |tracks|
    decreases |tracks|
  {
    if tracks != [] {
      TracksOkTail(tracks, i);
      SectorCountBound(tracks[1..], i + 1);
    }
  }

  lemma {:induction false} TracksTake(f: Format, tracks: seq<Track>, i: nat)
    requires Sound(f) && TracksOk(tracks, i)
    ensures |TrackChunks(f, tracks)| == 20 * |tracks| + 145 * SectorCount(tracks)
    decreases |tracks|
  {
    if tracks != [] {
      TracksOkTail(tracks, i);
      SectorChunksLength(f, tracks[0].sectors);
      TracksTake(f, tracks[1..], i + 1);
    }
  }

  lemma {:induction false} TimingsTake(f: Format, tracks: seq<Track>)
    requires Sound(f)
    ensures |TimingChunks(f, tracks)| == 16 * |tracks| + 8 * SectorCount(tracks)
    decreases |tracks|
  {
    if tracks != [] {
      TimingsLength(f, tracks[0].sectors);
      TimingsTake(f, tracks[1..]);
    }
  }

  // ------------------------------------------------------------------
  // The file
  // ------------------------------------------------------------------

  /** `INFO`, 8 bytes, the number of tracks and 1 if the image is write protected; then the tracks. */
  ghost predicate IsImagePart(im: Image, s: seq<byte>)
    requires |im.tracks| < 256
  {
    s == [0x49, 0x4e, 0x46, 0x4f, 8, 0, 0, 0, |im.tracks|, 0, 0, 0, if im.writeProtected then 1 else 0, 0, 0, 0] + TrackChunks(ATP, im.tracks)
  }

  /** `CRC1`, 4 bytes, the CRC of the image part. */
  ghost predicate IsSumPart(data: seq<byte>, s: seq<byte>) {
    s == [0x43, 0x52, 0x43, 0x31, 4, 0, 0, 0] + DWord(CrcValue(data))
  }

  /** `TIM1`, its length, the number of tracks; then the timing of the tracks. */
  ghost predicate IsTimingPart(im: Image, s: seq<byte>)
    requires |im.tracks| < 256
  {
    s == [0x54, 0x49, 0x4d, 0x31] + DWord(4 + 16 * |im.tracks| + 8 * SectorCount(im.tracks))
         + ([|im.tracks|, 0, 0, 0] + TimingChunks(ATP, im.tracks))
  }

  lemma {:induction false} ImageTakes(im: Image)
    requires ImageOk(im)
    ensures |ImageData(ATP, im)| == 16 + 20 * |im.tracks| + 145 * SectorCount(im.tracks)
    ensures |TimingChunks(ATP, im.tracks)| == 16 * |im.tracks| + 8 * SectorCount(im.tracks)
    ensures SectorCount(im.tracks) <= 255 * |im.tracks| && |im.tracks| <= 255
  {
    AtpIsSound();
    SectorCountBound(im.tracks, 0);
    TracksTake(ATP, im.tracks, 0);
    TimingsTake(ATP, im.tracks);
  }

  lemma {:induction false} HeaderBytes(t: byte, flags: byte)
    ensures ATP.chunk(INFO, ATP.dword(t) + ATP.dword(flags)) == [0x49, 0x4e, 0x46, 0x4f, 8, 0, 0, 0, t, 0, 0, 0, flags, 0, 0, 0]
  {
    SmallDWord(8);
    SmallDWord(t);
    SmallDWord(flags);
  }

  lemma {:induction false} ImagePart(im: Image)
    requires ImageOk(im)
    ensures IsImagePart(im, ImageData(ATP, im))
  {
    var t: byte, flags: byte := |im.tracks|, if im.writeProtected then 1 else 0;
    HeaderBytes(t, flags);
    assert ImageData(ATP, im) == ATP.chunk(INFO, ATP.dword(t) + ATP.dword(flags)) + TrackChunks(ATP, im.tracks);
  }

  lemma {:induction false} SumPart(data: seq<byte>)
    ensures IsSumPart(data, ATP.chunk(CRC1, ATP.dword(ATP.sum(data))))
  {
    ChunkStarts(CRC1, DWord(CrcValue(data)), 4);
    SumStarts();
  }

  lemma {:induction false} SumStarts()
    ensures CRC1 + DWord(4) == [0x43, 0x52, 0x43, 0x31, 4, 0, 0, 0]
  {
    SmallDWord(4);
  }

  lemma {:induction false} TimingBytes(t: byte, timings: seq<byte>, n: nat)
    requires n == 4 + |timings| < 0x1_0000_0000
    ensures ATP.chunk(TIM1, ATP.dword(t) + timings) == [0x54, 0x49, 0x4d, 0x31] + DWord(n) + ([t, 0, 0, 0] + timings)
  {
    ChunkStarts(TIM1, DWord(t) + timings, n);
    SmallDWord(t);
  }

  lemma {:induction false} TimingPart(im: Image)
    requires ImageOk(im)
    ensures IsTimingPart(im, ATP.chunk(TIM1, ATP.dword(|im.tracks|) + TimingChunks(ATP, im.tracks)))
  {
    ImageTakes(im);
    TimingBytes(|im.tracks|, TimingChunks(ATP, im.tracks), 4 + 16 * |im.tracks| + 8 * SectorCount(im.tracks));
  }

  /** A chunk around three parts, the first of them a chunk. */
  lemma {:induction false} Nested(outer: Tag, inner: Tag, data: seq<byte>, behind: seq<byte>, a: nat, b: nat)
    requires a == |data| && b == 8 + a + |behind| < 0x1_0000_0000
    ensures Chunk(outer, Chunk(inner, data) + behind) == outer + DWord(b) + (inner + DWord(a) + data + behind)
    ensures |Chunk(outer, Chunk(inner, data) + behind)| == 8 + b
  {
    ChunkStarts(inner, data, a);
    ChunkStarts(outer, Chunk(inner, data) + behind, b);
  }

  lemma {:induction false} Parts(im: Image, t: nat, n: nat) returns (image: seq<byte>, sum: seq<byte>, timing: seq<byte>)
    requires ImageOk(im) && t == |im.tracks| && n == SectorCount(im.tracks)
    ensures n <= 255 * t && t <= 255 && |image| == 16 + 20 * t + 145 * n && |sum| == 12 && |timing| == 12 + 16 * t + 8 * n
    ensures IsImagePart(im, image) && IsSumPart(image, sum) && IsTimingPart(im, timing)
    ensures WriteImage(ATP, im) == Chunk(FORM, Chunk(ATP1, image) + (sum + timing))
  {
    image, sum := ImageData(ATP, im), ATP.chunk(CRC1, ATP.dword(ATP.sum(ImageData(ATP, im))));
    timing := ATP.chunk(TIM1, ATP.dword(t) + TimingChunks(ATP, im.tracks));
    ImageTakes(im);
    ImagePart(im);
    SumPart(image);
    TimingPart(im);
  }

  /**
   The file of an image with `t` tracks and `n` sectors: `FORM` with all that
   follows, `ATP1` with the image part, the checksum of that part, and the timing.
   It is 56 + 36t + 153n bytes long.
   */
  lemma {:induction false} FileBytes(im: Image, t: nat, n: nat) returns (image: seq<byte>, sum: seq<byte>, timing: seq<byte>)
    requires ImageOk(im) && t == |im.tracks| && n == SectorCount(im.tracks)
    ensures IsImagePart(im, image) && IsSumPart(image, sum) && IsTimingPart(im, timing)
    ensures |WriteImage(ATP, im)| == 56 + 36 * t + 153 * n
    ensures WriteImage(ATP, im)
         == [0x46, 0x4f, 0x52, 0x4d] + DWord(48 + 36 * t + 153 * n)
            + ([0x41, 0x54, 0x50, 0x31] + DWord(16 + 20 * t + 145 * n) + image + (sum + timing))
  {
    image, sum, timing := Parts(im, t, n);
    Nested(FORM, ATP1, image, sum + timing, 16 + 20 * t + 145 * n, 48 + 36 * t + 153 * n);
  }
}
