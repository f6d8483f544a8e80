/** Reading an ATP file gives back exactly the images the format can hold. */
module AtpRoundTrip {
  import opened Bytes
  import opened AtpChunks
  import opened AtpFormat

  // ------------------------------------------------------------------
  // Sectors
  // ------------------------------------------------------------------

  function UntimedAll(sectors: seq<AtpSector>): (r: seq<AtpSector>)
    ensures |r| == |sectors| && forall k :: 0 <= k < |r| ==> r[k] == Untimed(sectors[k])
  {
    seq(|sectors|, k requires 0 <= k < |sectors| => Untimed(sectors[k]))
  }

  predicate AllAtZero(sectors: seq<AtpSector>) {
    forall k :: 0 <= k < |sectors| ==> sectors[k].position == 0
  }

  predicate SectorsOk(sectors: seq<AtpSector>) {
    forall k :: 0 <= k < |sectors| ==> SectorOk(sectors[k])
  }

  lemma {:induction false} LastPlace(sectors: seq<AtpSector>, i: nat)
    requires AllAtZero(sectors) && i <= |sectors|
    ensures InsertionPoint(sectors, 0, i) == |sectors|
    decreases |sectors| - i
  {
    if i < |sectors| {
      LastPlace(sectors, i + 1);
    }
  }

  /** As long as all positions are still 0, sectors are added in the order they come. */
  lemma {:induction false} AddingIsStable(sectors: seq<AtpSector>, s: AtpSector)
    requires AllAtZero(sectors) && s.position == 0
    ensures AddSector(sectors, s) == sectors + [s] && AllAtZero(sectors + [s])
  {
    LastPlace(sectors, 0);
  }

  lemma {:induction false} SectorReadsBack(f: Format, s: AtpSector)
    requires Sound(f)
    requires SectorOk(s)
    ensures ReadSector(f, SectorData(f, s)) == Some(Untimed(s))
  {
    var s1 := f.dword(128) + ([s.status] + s.data);
    assert SectorData(f, s) == f.dword(s.id) + s1;
    assert ([s.status] + s.data)[1..129] == s.data;
  }

  lemma {:induction false} SectorChunksLength(f: Format, sectors: seq<AtpSector>)
    requires Sound(f)
    requires SectorsOk(sectors)
    ensures |SectorChunks(f, sectors)| == 145 * |sectors|
    decreases |sectors|
  {
    if sectors != [] {
      SectorChunksLength(f, sectors[1..]);
    }
  }

  lemma {:induction false} FirstSectorFound(f: Format, sectors: seq<AtpSector>)
    requires Sound(f)
    requires SectorsOk(sectors) && sectors != []
    ensures f.findChunk(SectorChunks(f, sectors), SECT) == Some(Opened(SECT, SectorData(f, sectors[0]), SectorChunks(f, sectors[1..])))
  {
  }

  lemma {:induction false} ReadSectorsStep(f: Format, s: seq<byte>, n: nat, i: byte, before: seq<AtpSector>, o: Opened, sector: AtpSector)
    requires Shrinks(f)
    requires i < n && f.findChunk(s, SECT) == Some(o) && ReadSector(f, o.data) == Some(sector)
    ensures ReadSectors(f, s, n, i, before) == ReadSectors(f, o.rest, n, (i + 1) % 256, AddSector(before, sector))
  {
  }

  lemma {:induction false} OneSectorRead(f: Format, sectors: seq<AtpSector>, n: nat, i: byte, before: seq<AtpSector>)
    requires Sound(f)
    requires SectorsOk(sectors) && sectors != [] && AllAtZero(before) && i < n <= 255
    ensures ReadSectors(f, SectorChunks(f, sectors), n, i, before)
         == ReadSectors(f, SectorChunks(f, sectors[1..]), n, i + 1, before + [Untimed(sectors[0])])
  {
    var o := Opened(SECT, SectorData(f, sectors[0]), SectorChunks(f, sectors[1..]));
    FirstSectorFound(f, sectors);
    SectorReadsBack(f, sectors[0]);
    AddingIsStable(before, Untimed(sectors[0]));
    ReadSectorsStep(f, SectorChunks(f, sectors), n, i, before, o, Untimed(sectors[0]));
  }

  lemma {:induction false} UntimedInTurn(sectors: seq<AtpSector>, before: seq<AtpSector>)
    requires sectors != []
    ensures before + UntimedAll(sectors) == (before + [Untimed(sectors[0])]) + UntimedAll(sectors[1..])
  {
  }

  lemma {:induction false} SectorsReadBack(f: Format, sectors: seq<AtpSector>, n: nat, i: byte, before: seq<AtpSector>)
    requires Sound(f)
    requires SectorsOk(sectors) && AllAtZero(before) && n == i + |sectors| <= 255
    ensures ReadSectors(f, SectorChunks(f, sectors), n, i, before) == Some(before + UntimedAll(sectors))
    decreases |sectors|
  {
    if sectors == [] {
      assert before + UntimedAll(sectors) == before;
    } else {
      OneSectorRead(f, sectors, n, i, before);
      UntimedInTurn(sectors, before);
      Onwards(sectors, before);
      SectorsReadBack(f, sectors[1..], n, i + 1, before + [Untimed(sectors[0])]);
    }
  }

  lemma {:induction false} Onwards(sectors: seq<AtpSector>, before: seq<AtpSector>)
    requires SectorsOk(sectors) && sectors != [] && AllAtZero(before)
    ensures SectorsOk(sectors[1..]) && AllAtZero(before + [Untimed(sectors[0])])
  {
  }

  /** A track without its timing. */
  function UntimedTrack(t: Track): Track {
    t.(sectors := UntimedAll(t.sectors))
  }

  /** Three words in front of the sectors. */
  lemma {:induction false} ThreeWords(f: Format, a: nat, b: nat, c: nat, rest: seq<byte>)
    requires Sound(f)
    requires a < 0x1_0000_0000 && b < 0x1_0000_0000 && c < 0x1_0000_0000
    ensures f.dword(a) + f.dword(b) + f.dword(c) + rest == f.dword(a) + (f.dword(b) + (f.dword(c) + rest))
    ensures f.readDword(f.dword(a) + (f.dword(b) + (f.dword(c) + rest))) == Some((a, f.dword(b) + (f.dword(c) + rest)))
    ensures f.readDword(f.dword(b) + (f.dword(c) + rest)) == Some((b, f.dword(c) + rest))
    ensures f.readDword(f.dword(c) + rest) == Some((c, rest))
  {
  }

  lemma {:induction false} ReadTrackStep(f: Format, s: seq<byte>, a: nat, s1: seq<byte>, n: nat, s2: seq<byte>, d: nat, s3: seq<byte>)
    requires Shrinks(f)
    requires f.readDword(s) == Some((a, s1)) && f.readDword(s1) == Some((n, s2)) && f.readDword(s2) == Some((d, s3))
    requires ReadSectors(f, s3, n, 0, []).Some?
    ensures ReadTrack(f, s) == Some(Track(a, if d == 1 then MFM else FM, ReadSectors(f, s3, n, 0, []).value))
  {
  }

  lemma {:induction false} TrackReadsBack(f: Format, t: Track)
    requires Sound(f)
    requires t.number < 0x1_0000_0000 && |t.sectors| <= 255 && SectorsOk(t.sectors)
    ensures ReadTrack(f, TrackData(f, t)) == Some(UntimedTrack(t))
  {
    var s3 := SectorChunks(f, t.sectors);
    var n, d := |t.sectors|, DensityCode(t.density);
    ThreeWords(f, t.number, n, d, s3);
    SectorsReadBack(f, t.sectors, n, 0, []);
    assert [] + UntimedAll(t.sectors) == UntimedAll(t.sectors);
    ReadTrackStep(f, TrackData(f, t), t.number, f.dword(n) + (f.dword(d) + s3), n, f.dword(d) + s3, d, s3);
  }

  // ------------------------------------------------------------------
  // Timing
  // ------------------------------------------------------------------

  predicate TimingOk(sectors: seq<AtpSector>) {
    && Rising(sectors)
    && forall k :: 0 <= k < |sectors| ==> sectors[k].position < ROTATION && sectors[k].timeLength < ROTATION
  }

  lemma {:induction false} TimingsReadBack(f: Format, sectors: seq<AtpSector>, last: Option<nat>)
    requires Sound(f)
    requires TimingOk(sectors) && (last.Some? && |sectors| > 0 ==> last.value < sectors[0].position)
    ensures ReadTimings(f, Timings(f, sectors), UntimedAll(sectors), last) == Some(sectors)
    decreases |sectors|
  {
    if sectors != [] {
      var s, rest := sectors[0], sectors[1..];
      TimingsTail(f, sectors);
      TimingsReadBack(f, rest, Some(s.position));
      OneTiming(f, s.position, s.timeLength, Timings(f, rest), UntimedAll(sectors), last, s, rest);
      Rejoin(sectors);
    }
  }

  lemma {:induction false} Rejoin<T>(s: seq<T>)
    requires s != []
    ensures [s[0]] + s[1..] == s
  {
  }

  lemma {:induction false} TimingsTail(f: Format, sectors: seq<AtpSector>)
    requires TimingOk(sectors) && sectors != []
    ensures var s, rest := sectors[0], sectors[1..];
      && Timings(f, sectors) == f.dword(s.position) + (f.dword(s.timeLength) + Timings(f, rest))
      && TimingOk(rest) && (rest != [] ==> s.position < rest[0].position)
      && UntimedAll(sectors)[0] == Untimed(s) && UntimedAll(sectors)[1..] == UntimedAll(rest)
  {
    assert UntimedAll(sectors)[1..] == UntimedAll(sectors[1..]);
  }

  lemma {:induction false} OneTiming(f: Format, position: nat, length: nat, s: seq<byte>, untimed: seq<AtpSector>, last: Option<nat>,
      first: AtpSector, rest: seq<AtpSector>)
    requires Sound(f)
    requires first.position == position < ROTATION && first.timeLength == length < ROTATION && (last.Some? ==> last.value < position)
    requires untimed != [] && untimed[0] == Untimed(first) && ReadTimings(f, s, untimed[1..], Some(position)) == Some(rest)
    ensures ReadTimings(f, f.dword(position) + (f.dword(length) + s), untimed, last) == Some([first] + rest)
  {
    assert f.readDword(f.dword(length) + s) == Some((length, s));
  }

  lemma {:induction false} TrackTimingReadsBack(f: Format, t: Track)
    requires Sound(f)
    requires t.number < 0x1_0000_0000 && |t.sectors| < 0x1_0000_0000 && TimingOk(t.sectors)
    ensures ReadTrackTiming(f, TimingData(f, t), UntimedTrack(t)) == Some(t)
  {
    var s2 := Timings(f, t.sectors);
    var s1 := f.dword(|t.sectors|) + s2;
    assert TimingData(f, t) == f.dword(t.number) + s1;
    TimingsReadBack(f, t.sectors, None);
  }

  // ------------------------------------------------------------------
  // Images
  // ------------------------------------------------------------------

  /** Tracks numbered from `i` on that the format can hold. */
  predicate TracksOk(tracks: seq<Track>, i: nat) {
    i + |tracks| <= 255 && forall k :: 0 <= k < |tracks| ==> TrackOk(tracks[k], i + k)
  }

  lemma {:induction false} TracksOkTail(tracks: seq<Track>, i: nat)
    requires TracksOk(tracks, i) && tracks != []
    ensures TrackOk(tracks[0], i) && TracksOk(tracks[1..], i + 1)
  {
    forall k | 0 <= k < |tracks[1..]|
      ensures TrackOk(tracks[1..][k], i + 1 + k)
    {
      assert TrackOk(tracks[k + 1], i + (k + 1));
    }
  }

  lemma {:induction false} TrackDataLength(f: Format, t: Track, i: nat)
    requires Sound(f)
    requires TrackOk(t, i)
    ensures |TrackData(f, t)| <= 36987
  {
    SectorChunksLength(f, t.sectors);
  }

  lemma {:induction false} TrackChunksLength(f: Format, tracks: seq<Track>, i: nat)
    requires Sound(f)
    requires TracksOk(tracks, i)
    ensures |TrackChunks(f, tracks)| <= 36995 * |tracks|
    decreases |tracks|
  {
    if tracks != [] {
      TracksOkTail(tracks, i);
      TrackDataLength(f, tracks[0], i);
      TrackChunksLength(f, tracks[1..], i + 1);
    }
  }

  lemma {:induction false} TimingsLength(f: Format, sectors: seq<AtpSector>)
    requires Sound(f)
    ensures |Timings(f, sectors)| == 8 * |sectors|
    decreases |sectors|
  {
    if sectors != [] {
      TimingsLength(f, sectors[1..]);
    }
  }

  lemma {:induction false} TimingChunksLength(f: Format, tracks: seq<Track>, i: nat)
    requires Sound(f)
    requires TracksOk(tracks, i)
    ensures |TimingChunks(f, tracks)| <= 2056 * |tracks|
    decreases |tracks|
  {
    if tracks != [] {
      TracksOkTail(tracks, i);
      TimingsLength(f, tracks[0].sectors);
      TimingChunksLength(f, tracks[1..], i + 1);
    }
  }

  function UntimedTracks(tracks: seq<Track>): (r: seq<Track>)
    ensures |r| == |tracks|
    decreases |tracks|
  {
    if tracks == [] then [] else [UntimedTrack(tracks[0])] + UntimedTracks(tracks[1..])
  }

  lemma {:induction false} ReadTracksStep(f: Format, s: seq<byte>, n: nat, i: nat, o: Opened, t: Track, rest: seq<Track>)
    requires Shrinks(f) && i < n && f.findChunk(s, TRAK) == Some(o) && ReadTrack(f, o.data) == Some(t) && t.number == i
    requires ReadTracks(f, o.rest, n, i + 1) == Some(rest)
    ensures ReadTracks(f, s, n, i) == Some([t] + rest)
  {
  }

  lemma {:induction false} FirstTrackFound(f: Format, tracks: seq<Track>, i: nat)
    requires Sound(f)
    requires TracksOk(tracks, i) && tracks != []
    ensures f.findChunk(TrackChunks(f, tracks), TRAK) == Some(Opened(TRAK, TrackData(f, tracks[0]), TrackChunks(f, tracks[1..])))
    ensures ReadTrack(f, TrackData(f, tracks[0])) == Some(UntimedTrack(tracks[0]))
  {
    TracksOkTail(tracks, i);
    TrackDataLength(f, tracks[0], i);
    TrackReadsBack(f, tracks[0]);
  }

  lemma {:induction false} TracksReadBack(f: Format, tracks: seq<Track>, n: nat, i: nat)
    requires Sound(f)
    requires TracksOk(tracks, i) && n == i + |tracks|
    ensures ReadTracks(f, TrackChunks(f, tracks), n, i) == Some(UntimedTracks(tracks))
    decreases |tracks|
  {
    if tracks != [] {
      TracksOkTail(tracks, i);
      TracksReadBack(f, tracks[1..], n, i + 1);
      FirstTrackFound(f, tracks, i);
      ReadTracksStep(f, TrackChunks(f, tracks), n, i,
        Opened(TRAK, TrackData(f, tracks[0]), TrackChunks(f, tracks[1..])), UntimedTrack(tracks[0]), UntimedTracks(tracks[1..]));
    }
  }

  lemma {:induction false} ReadTrackTimingsStep(f: Format, s: seq<byte>, tracks: seq<Track>, o: Opened, t: Track, rest: seq<Track>)
    requires tracks != [] && f.findChunk(s, TTI1) == Some(o) && ReadTrackTiming(f, o.data, tracks[0]) == Some(t)
    requires ReadTrackTimings(f, o.rest, tracks[1..]) == Some(rest)
    ensures ReadTrackTimings(f, s, tracks) == Some([t] + rest)
  {
  }

  lemma {:induction false} FirstTimingFound(f: Format, tracks: seq<Track>, i: nat)
    requires Sound(f)
    requires TracksOk(tracks, i) && tracks != []
    ensures f.findChunk(TimingChunks(f, tracks), TTI1) == Some(Opened(TTI1, TimingData(f, tracks[0]), TimingChunks(f, tracks[1..])))
    ensures ReadTrackTiming(f, TimingData(f, tracks[0]), UntimedTrack(tracks[0])) == Some(tracks[0])
  {
    TracksOkTail(tracks, i);
    TimingsLength(f, tracks[0].sectors);
    TrackTimingReadsBack(f, tracks[0]);
  }

  lemma {:induction false} UntimedTail(tracks: seq<Track>)
    requires tracks != []
    ensures UntimedTracks(tracks)[0] == UntimedTrack(tracks[0])
    ensures UntimedTracks(tracks)[1..] == UntimedTracks(tracks[1..])
    ensures [tracks[0]] + tracks[1..] == tracks
  {
  }

  lemma {:induction false} OneTimingRead(f: Format, tracks: seq<Track>, i: nat, o: Opened)
    requires Sound(f)
    requires TracksOk(tracks, i) && tracks != []
    requires o == Opened(TTI1, TimingData(f, tracks[0]), TimingChunks(f, tracks[1..]))
    requires ReadTrackTimings(f, o.rest, UntimedTracks(tracks[1..])) == Some(tracks[1..])
    ensures ReadTrackTimings(f, TimingChunks(f, tracks), UntimedTracks(tracks)) == Some(tracks)
  {
    FirstTimingFound(f, tracks, i);
    UntimedTail(tracks);
    ReadTrackTimingsStep(f, TimingChunks(f, tracks), UntimedTracks(tracks), o, tracks[0], tracks[1..]);
  }

  lemma {:induction false} TrackTimingsReadBack(f: Format, tracks: seq<Track>, i: nat)
    requires Sound(f)
    requires TracksOk(tracks, i)
    ensures ReadTrackTimings(f, TimingChunks(f, tracks), UntimedTracks(tracks)) == Some(tracks)
    decreases |tracks|
  {
    if tracks != [] {
      TracksOkTail(tracks, i);
      TrackTimingsReadBack(f, tracks[1..], i + 1);
      OneTimingRead(f, tracks, i, Opened(TTI1, TimingData(f, tracks[0]), TimingChunks(f, tracks[1..])));
    }
  }

  lemma {:induction false} HeaderReadsBack(f: Format, im: Image)
    requires Sound(f)
    requires |im.tracks| <= 255
    ensures var s := f.dword(if im.writeProtected then 1 else 0);
      && f.readDword(HeaderData(f, im)) == Some((|im.tracks|, s))
      && f.readDword(s) == Some((if im.writeProtected then 1 else 0, []))
  {
    var s := f.dword(if im.writeProtected then 1 else 0);
    assert s + [] == s;
  }

  lemma {:induction false} ReadUntimedStep(f: Format, s: seq<byte>, o: Opened, n: nat, s1: seq<byte>, flags: nat, s2: seq<byte>, tracks: seq<Track>)
    requires Shrinks(f)
    requires f.findChunk(s, INFO) == Some(o) && f.readDword(o.data) == Some((n, s1)) && f.readDword(s1) == Some((flags, s2))
    requires n < 256 && ReadTracks(f, o.rest, n, 0) == Some(tracks)
    ensures ReadUntimed(f, s) == Some(Image(tracks, flags % 2 == 1))
  {
  }

  lemma {:induction false} UntimedReadsBack(f: Format, im: Image)
    requires Sound(f)
    requires ImageOk(im)
    ensures ReadUntimed(f, ImageData(f, im)) == Some(Image(UntimedTracks(im.tracks), im.writeProtected))
  {
    var flags := if im.writeProtected then 1 else 0;
    HeaderReadsBack(f, im);
    TracksReadBack(f, im.tracks, |im.tracks|, 0);
    ReadUntimedStep(f, ImageData(f, im), Opened(INFO, HeaderData(f, im), TrackChunks(f, im.tracks)), |im.tracks|, f.dword(flags), flags, [],
      UntimedTracks(im.tracks));
  }

  lemma {:induction false} TimingPartReadsBack(f: Format, im: Image)
    requires Sound(f)
    requires ImageOk(im)
    ensures ReadTimingPart(f, f.chunk(TIM1, f.dword(|im.tracks|) + TimingChunks(f, im.tracks)), Image(UntimedTracks(im.tracks), im.writeProtected)) == Some(im)
  {
    var data := f.dword(|im.tracks|) + TimingChunks(f, im.tracks);
    TimingChunksLength(f, im.tracks, 0);
    assert f.chunk(TIM1, data) + [] == f.chunk(TIM1, data);
    TrackTimingsReadBack(f, im.tracks, 0);
  }

  lemma {:induction false} CheckedReadsBack(f: Format, im: Image, data: seq<byte>)
    requires Sound(f)
    requires ImageOk(im)
    ensures ReadChecked(f, 
        f.chunk(CRC1, f.dword(f.sum(data))) + f.chunk(TIM1, f.dword(|im.tracks|) + TimingChunks(f, im.tracks)), data,
        Image(UntimedTracks(im.tracks), im.writeProtected)) == Some(im)
  {
    var sum := f.dword(f.sum(data));
    assert sum + [] == sum;
    TimingPartReadsBack(f, im);
  }

  lemma {:induction false} ImageDataLength(f: Format, im: Image)
    requires Sound(f)
    requires ImageOk(im)
    ensures |ImageData(f, im)| <= 9433741 && |FormData(f, im)| <= 9958054
  {
    TrackChunksLength(f, im.tracks, 0);
    TimingChunksLength(f, im.tracks, 0);
  }

  lemma {:induction false} FormOpens(f: Format, im: Image, data: seq<byte>, behind: seq<byte>)
    requires Sound(f)
    requires ImageOk(im)
    requires data == ImageData(f, im) && FormData(f, im) == f.chunk(ATP1, data) + behind
    ensures f.findChunk(WriteImage(f, im), FORM) == Some(Opened(FORM, FormData(f, im), []))
    ensures f.findChunk(FormData(f, im), ATP1) == Some(Opened(ATP1, data, behind))
  {
    ImageDataLength(f, im);
    assert WriteImage(f, im) + [] == WriteImage(f, im);
  }

  /** Every image the format can hold is read back. */
  lemma {:induction false} ImageReadsBack(f: Format, im: Image)
    requires Sound(f)
    requires ImageOk(im)
    ensures ReadImage(f, WriteImage(f, im)) == Some(im)
  {
    var data := ImageData(f, im);
    var behind := f.chunk(CRC1, f.dword(f.sum(data))) + f.chunk(TIM1, f.dword(|im.tracks|) + TimingChunks(f, im.tracks));
    FormOpens(f, im, data, behind);
    UntimedReadsBack(f, im);
    CheckedReadsBack(f, im, data);
    ReadImageParts(f, WriteImage(f, im), Opened(FORM, FormData(f, im), []), Opened(ATP1, data, behind),
      Image(UntimedTracks(im.tracks), im.writeProtected), im);
  }

  lemma {:induction false} ReadImageParts(f: Format, s: seq<byte>, form: Opened, atp: Opened, untimed: Image, im: Image)
    requires Shrinks(f)
    requires f.findChunk(s, FORM) == Some(form) && f.findChunk(form.data, ATP1) == Some(atp)
    requires ReadUntimed(f, atp.data) == Some(untimed) && ReadChecked(f, atp.rest, atp.data, untimed) == Some(im)
    ensures ReadImage(f, s) == Some(im)
  {
  }

  // ------------------------------------------------------------------
  // Whatever is read is well formed
  // ------------------------------------------------------------------

  lemma {:induction false} AddedOk(sectors: seq<AtpSector>, s: AtpSector)
    requires SectorsOk(sectors) && SectorOk(s)
    ensures SectorsOk(AddSector(sectors, s))
  {
  }

  lemma {:induction false} ReadSectorsOk(f: Format, s: seq<byte>, n: nat, i: byte, before: seq<AtpSector>)
    requires Shrinks(f)
    requires SectorsOk(before) && |before| == i
    requires ReadSectors(f, s, n, i, before).Some?
    ensures var r := ReadSectors(f, s, n, i, before).value; SectorsOk(r) && |r| <= 255
    decreases |s|
  {
    if i < n {
      var o := f.findChunk(s, SECT).value;
      var sector := ReadSector(f, o.data).value;
      var after := AddSector(before, sector);
      AddedOk(before, sector);
      ReadSectorsStep(f, s, n, i, before, o, sector);
      if i == 255 {
        TooMany(f, o.rest, n, 0, after);
      } else {
        ReadSectorsOk(f, o.rest, n, i + 1, after);
      }
    }
  }

  /** The byte counter never reaches a number above 255. */
  lemma {:induction false} TooMany(f: Format, s: seq<byte>, n: nat, i: byte, before: seq<AtpSector>)
    requires Shrinks(f)
    requires n > 255
    ensures ReadSectors(f, s, n, i, before).None?
    decreases |s|
  {
    var o := f.findChunk(s, SECT);
    if o.Some? && ReadSector(f, o.value.data).Some? {
      TooMany(f, o.value.rest, n, (i + 1) % 256, AddSector(before, ReadSector(f, o.value.data).value));
    }
  }

  lemma {:induction false} ReadTrackOk(f: Format, s: seq<byte>)
    requires Shrinks(f)
    requires ReadTrack(f, s).Some?
    ensures var t := ReadTrack(f, s).value; SectorsOk(t.sectors) && |t.sectors| <= 255
  {
    var s1 := f.readDword(s).value.1;
    var (n, s2) := f.readDword(s1).value;
    var s3 := f.readDword(s2).value.1;
    ReadSectorsOk(f, s3, n, 0, []);
  }

  lemma {:induction false} ReadTimingsOk(f: Format, s: seq<byte>, sectors: seq<AtpSector>, last: Option<nat>)
    requires ReadTimings(f, s, sectors, last).Some? && SectorsOk(sectors)
    ensures var r := ReadTimings(f, s, sectors, last).value;
      SectorsOk(r) && TimingOk(r) && (last.Some? ==> forall k :: 0 <= k < |r| ==> last.value < r[k].position)
    decreases |sectors|
  {
    if sectors != [] {
      var (position, s1) := f.readDword(s).value;
      var s2 := f.readDword(s1).value.1;
      ReadTimingsOk(f, s2, sectors[1..], Some(position));
    }
  }

  predicate UntimedOk(t: Track, i: nat) {
    t.number == i && SectorsOk(t.sectors) && |t.sectors| <= 255
  }

  lemma {:induction false} ReadTrackTimingOk(f: Format, s: seq<byte>, t: Track, i: nat)
    requires UntimedOk(t, i) && ReadTrackTiming(f, s, t).Some?
    ensures TrackOk(ReadTrackTiming(f, s, t).value, i)
  {
    var s1 := f.readDword(s).value.1;
    var s2 := f.readDword(s1).value.1;
    ReadTimingsOk(f, s2, t.sectors, None);
  }

  predicate AllUntimedOk(tracks: seq<Track>, i: nat) {
    forall k :: 0 <= k < |tracks| ==> UntimedOk(tracks[k], i + k)
  }

  lemma {:induction false} ReadTracksOk(f: Format, s: seq<byte>, n: nat, i: nat)
    requires Shrinks(f)
    requires i <= n && ReadTracks(f, s, n, i).Some?
    ensures AllUntimedOk(ReadTracks(f, s, n, i).value, i)
    decreases n - i
  {
    if i < n {
      var o := f.findChunk(s, TRAK).value;
      ReadTrackOk(f, o.data);
      ReadTracksOk(f, o.rest, n, i + 1);
    }
  }

  lemma {:induction false} ReadTrackTimingsOk(f: Format, s: seq<byte>, tracks: seq<Track>, i: nat)
    requires AllUntimedOk(tracks, i) && i + |tracks| <= 255 && ReadTrackTimings(f, s, tracks).Some?
    ensures TracksOk(ReadTrackTimings(f, s, tracks).value, i)
    decreases |tracks|
  {
    if tracks != [] {
      var o := f.findChunk(s, TTI1).value;
      ReadTrackTimingOk(f, o.data, tracks[0], i);
      forall k | 0 <= k < |tracks[1..]|
        ensures UntimedOk(tracks[1..][k], i + 1 + k)
      {
        assert UntimedOk(tracks[k + 1], i + (k + 1));
      }
      ReadTrackTimingsOk(f, o.rest, tracks[1..], i + 1);
    }
  }

  /** Whatever the file holds: an image that is read from it is one the format can hold. */
  lemma {:induction false} ReadImageOk(f: Format, s: seq<byte>)
    requires Shrinks(f)
    requires ReadImage(f, s).Some?
    ensures ImageOk(ReadImage(f, s).value)
  {
    var form := f.findChunk(s, FORM).value;
    var atp := f.findChunk(form.data, ATP1).value;
    var info := f.findChunk(atp.data, INFO).value;
    var (n, s1) := f.readDword(info.data).value;
    ReadTracksOk(f, info.rest, n % 256, 0);
    var crc := f.findChunk(atp.rest, CRC1).value;
    var tim := f.findChunk(crc.rest, TIM1).value;
    var s2 := f.readDword(tim.data).value.1;
    ReadTrackTimingsOk(f, s2, ReadTracks(f, info.rest, n % 256, 0).value, 0);
  }

  lemma {:induction false} FormatRoundTripIff(f: Format, im: Image)
    requires Sound(f)
    ensures ReadImage(f, WriteImage(f, im)) == Some(im) <==> ImageOk(im)
  {
    if ImageOk(im) {
      ImageReadsBack(f, im);
    }
    if ReadImage(f, WriteImage(f, im)) == Some(im) {
      ReadImageOk(f, WriteImage(f, im));
    }
  }

  /**
   An image is read back from the file it was written to exactly if it is one the
   format can hold: at most 255 tracks, numbered in order, with at most 255 sectors
   each (the reader counts them in a byte), sector numbers from 1 to 26, 128 bytes
   of data, and rising positions within one rotation.
   */
  lemma {:induction false} RoundTripIff(im: Image)
    ensures Shrinks(ATP) && (ReadImage(ATP, WriteImage(ATP, im)) == Some(im) <==> ImageOk(im))
  {
    AtpIsSound();
    FormatRoundTripIff(ATP, im);
  }
}
