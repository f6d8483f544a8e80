/** `AtpImage`: an image of tracks, written to a file and read back. */
module AtpImages {
  import opened Bytes
  import opened AtpChunks
  import opened AtpFormat
  import opened AtpRoundTrip
  import opened AtpSearch
  import opened AtpStreams
  import opened AtpTracks
  import opened FileIO

  /** The track objects have these values. */
  ghost predicate Stand(tracks: seq<AtpTrack>, values: seq<Track>)
    reads tracks
  {
    && |tracks| == |values|
    && forall i :: 0 <= i < |tracks| ==> tracks[i].Valid() && tracks[i].Value() == values[i]
  }

  /** The first of the track objects have these values. */
  ghost predicate Begin(tracks: seq<AtpTrack>, values: seq<Track>)
    reads tracks
  {
    && |values| <= |tracks|
    && forall i :: 0 <= i < |values| ==> tracks[i].Valid() && tracks[i].Value() == values[i]
  }

  predicate Different(tracks: seq<AtpTrack>) {
    forall i, j :: 0 <= i < j < |tracks| ==> tracks[i] != tracks[j]
  }

  // ------------------------------------------------------------------
  // Writing the parts
  // ------------------------------------------------------------------

  lemma {:induction false} OneTrackMore(f: Format, tracks: seq<Track>, i: nat, done: seq<byte>)
    requires i < |tracks|
    ensures (done + f.chunk(TRAK, TrackData(f, tracks[i]))) + TrackChunks(f, tracks[i + 1..]) == done + TrackChunks(f, tracks[i..])
  {
    var t := tracks[i..];
    assert t[0] == tracks[i] && t[1..] == tracks[i + 1..];
  }

  lemma {:induction false} OneTrackTimingMore(f: Format, tracks: seq<Track>, i: nat, done: seq<byte>)
    requires i < |tracks|
    ensures (done + f.chunk(TTI1, TimingData(f, tracks[i]))) + TimingChunks(f, tracks[i + 1..]) == done + TimingChunks(f, tracks[i..])
  {
    var t := tracks[i..];
    assert t[0] == tracks[i] && t[1..] == tracks[i + 1..];
  }

  method AppendTrack(ghost f: Format, c: ChunkWriter, track: AtpTrack, ghost tag: Tag, ghost done: seq<byte>)
    requires Matches(f) && Building(c, tag, done) && track.Valid()
    modifies c, c.fData
    ensures Building(c, tag, done + f.chunk(TRAK, TrackData(f, track.Value()))) && (c.fData == old(c.fData) || fresh(c.fData))
  {
    var sub := track.BuildTrackChunk(f);
    PutChunk(f, c, sub, tag, done, TRAK, TrackData(f, track.Value()));
  }

  method AppendTracks(ghost f: Format, c: ChunkWriter, tracks: seq<AtpTrack>, ghost values: seq<Track>, ghost tag: Tag, ghost head: seq<byte>)
    requires Matches(f) && Building(c, tag, head) && Stand(tracks, values)
    modifies c, c.fData
    ensures Building(c, tag, head + TrackChunks(f, values)) && (c.fData == old(c.fData) || fresh(c.fData))
  {
    ghost var done := head;
    var i := 0;
    assert values[0..] == values;
    while i < |tracks|
      invariant 0 <= i <= |tracks| && Building(c, tag, done) && (c.fData == old(c.fData) || fresh(c.fData))
      invariant Stand(tracks, values)
      invariant done + TrackChunks(f, values[i..]) == head + TrackChunks(f, values)
    {
      AppendTrack(f, c, tracks[i], tag, done);
      OneTrackMore(f, values, i, done);
      done := done + f.chunk(TRAK, TrackData(f, values[i]));
      i := i + 1;
    }
    assert done + [] == done;
  }

  method AppendTrackTiming(ghost f: Format, c: ChunkWriter, track: AtpTrack, ghost tag: Tag, ghost done: seq<byte>)
    requires Matches(f) && Building(c, tag, done) && track.Valid()
    modifies c, c.fData
    ensures Building(c, tag, done + f.chunk(TTI1, TimingData(f, track.Value()))) && (c.fData == old(c.fData) || fresh(c.fData))
  {
    var sub := track.BuildTrackTimingChunk(f);
    PutChunk(f, c, sub, tag, done, TTI1, TimingData(f, track.Value()));
  }

  method AppendTrackTimings(ghost f: Format, c: ChunkWriter, tracks: seq<AtpTrack>, ghost values: seq<Track>, ghost tag: Tag, ghost head: seq<byte>)
    requires Matches(f) && Building(c, tag, head) && Stand(tracks, values)
    modifies c, c.fData
    ensures Building(c, tag, head + TimingChunks(f, values)) && (c.fData == old(c.fData) || fresh(c.fData))
  {
    ghost var done := head;
    var i := 0;
    assert values[0..] == values;
    while i < |tracks|
      invariant 0 <= i <= |tracks| && Building(c, tag, done) && (c.fData == old(c.fData) || fresh(c.fData))
      invariant Stand(tracks, values)
      invariant done + TimingChunks(f, values[i..]) == head + TimingChunks(f, values)
    {
      AppendTrackTiming(f, c, tracks[i], tag, done);
      OneTrackTimingMore(f, values, i, done);
      done := done + f.chunk(TTI1, TimingData(f, values[i]));
      i := i + 1;
    }
    assert done + [] == done;
  }

  // ------------------------------------------------------------------
  // Reading the parts
  // ------------------------------------------------------------------

  /** A list that begins with tracks already read. */
  function PrefixedTracks(before: seq<Track>, r: Option<seq<Track>>): Option<seq<Track>> {
    match r
    case None => None
    case Some(tracks) => Some(before + tracks)
  }

  lemma {:induction false} PrefixedTracksInTurn(before: seq<Track>, t: Track, r: Option<seq<Track>>)
    ensures PrefixedTracks(before, PrefixedTracks([t], r)) == PrefixedTracks(before + [t], r)
  {
    if r.Some? {
      Reassociate(before, [t], r.value);
    }
  }

  /** One track, with the number it must have. */
  method ReadOneTrack(ghost f: Format, r: ChunkReader, track: AtpTrack, ghost n: nat, i: nat) returns (ok: bool)
    requires Matches(f) && r.Valid() && i < n
    modifies track, r`fCurrentPosition, r.fFile`pos
    ensures r.Valid() && (ok ==> track.Valid())
    ensures ReadTracks(f, old(r.Rest()), n, i) ==
      if ok then PrefixedTracks([track.Value()], ReadTracks(f, r.Rest(), n, i + 1)) else None
  {
    var trackChunk := NextChunk(f, r, TRAK);
    if trackChunk == null {
      return false;
    }
    ok := track.InitFromTRAKChunk(f, trackChunk);
    if ok && track.fTrackNumber != i {
      ok := false;
    }
  }

  method ReadOneTrackTiming(ghost f: Format, r: ChunkReader, track: AtpTrack, ghost tracks: seq<Track>) returns (ok: bool)
    requires Matches(f) && r.Valid() && track.Valid() && tracks != [] && tracks[0] == track.Value()
    modifies track, r`fCurrentPosition, r.fFile`pos
    ensures r.Valid() && track.Valid()
    ensures ReadTrackTimings(f, old(r.Rest()), tracks) ==
      if ok then PrefixedTracks([track.Value()], ReadTrackTimings(f, r.Rest(), tracks[1..])) else None
  {
    var timingChunk := NextChunk(f, r, TTI1);
    if timingChunk == null {
      return false;
    }
    ok := track.SetTimingInformationFromTTI1Chunk(f, timingChunk);
  }

  /** One turn of the loop over the TRAK chunks: one more track has its value. */
  method ReadNextTrack(ghost f: Format, r: ChunkReader, tracks: seq<AtpTrack>, i: nat, ghost goal: Option<seq<Track>>, ghost values: seq<Track>)
    returns (ok: bool, ghost more: seq<Track>)
    requires Matches(f) && r.Valid() && Different(tracks) && i == |values| < |tracks| && Begin(tracks, values)
    requires goal == PrefixedTracks(values, ReadTracks(f, r.Rest(), |tracks|, i))
    modifies tracks[i], r`fCurrentPosition, r.fFile`pos
    ensures r.Valid()
    ensures !ok ==> goal == None
    ensures ok ==> |more| == i + 1 && Begin(tracks, more)
    ensures ok ==> goal == PrefixedTracks(more, ReadTracks(f, r.Rest(), |tracks|, i + 1))
  {
    ok := ReadOneTrack(f, r, tracks[i], |tracks|, i);
    PrefixedTracksInTurn(values, tracks[i].Value(), ReadTracks(f, r.Rest(), |tracks|, i + 1));
    more := values + [tracks[i].Value()];
  }

  /** The loop over the TRAK chunks. */
  method ReadAllTracks(ghost f: Format, r: ChunkReader, tracks: seq<AtpTrack>) returns (ok: bool, ghost values: seq<Track>)
    requires Matches(f) && r.Valid() && Different(tracks)
    modifies tracks, r`fCurrentPosition, r.fFile`pos
    ensures r.Valid()
    ensures ReadTracks(f, old(r.Rest()), |tracks|, 0) == if ok then Some(values) else None
    ensures ok ==> Stand(tracks, values)
  {
    ghost var goal := ReadTracks(f, r.Rest(), |tracks|, 0);
    values := [];
    var i := 0;
    assert goal.Some? ==> [] + goal.value == goal.value;
    while i < |tracks|
      invariant 0 <= i <= |tracks| && r.Valid() && |values| == i && Begin(tracks, values)
      invariant goal == PrefixedTracks(values, ReadTracks(f, r.Rest(), |tracks|, i))
    {
      ok, values := ReadNextTrack(f, r, tracks, i, goal, values);
      if !ok {
        return;
      }
      i := i + 1;
    }
    assert values + [] == values;
    ok := true;
  }

  /** The loop over the TTI1 chunks. */
  /** The first tracks have their timings already. */
  ghost predicate Halfway(tracks: seq<AtpTrack>, values: seq<Track>, untimed: seq<Track>)
    reads tracks
  {
    && |tracks| == |untimed| && Begin(tracks, values)
    && forall k :: |values| <= k < |tracks| ==> tracks[k].Valid() && tracks[k].Value() == untimed[k]
  }

  method ReadNextTrackTiming(ghost f: Format, r: ChunkReader, tracks: seq<AtpTrack>, i: nat, ghost values: seq<Track>, ghost untimed: seq<Track>)
    returns (ok: bool)
    requires Matches(f) && r.Valid() && Different(tracks) && Halfway(tracks, values, untimed) && |values| == i < |tracks|
    modifies tracks[i], r`fCurrentPosition, r.fFile`pos
    ensures r.Valid() && Halfway(tracks, values + [tracks[i].Value()], untimed)
    ensures ReadTrackTimings(f, old(r.Rest()), untimed[i..]) ==
      if ok then PrefixedTracks([tracks[i].Value()], ReadTrackTimings(f, r.Rest(), untimed[i + 1..])) else None
  {
    assert untimed[i..][0] == untimed[i] && untimed[i..][1..] == untimed[i + 1..];
    ok := ReadOneTrackTiming(f, r, tracks[i], untimed[i..]);
  }

  method ReadAllTimings(ghost f: Format, r: ChunkReader, tracks: seq<AtpTrack>, ghost untimed: seq<Track>)
    returns (ok: bool, ghost values: seq<Track>)
    requires Matches(f) && r.Valid() && Different(tracks) && Stand(tracks, untimed)
    modifies tracks, r`fCurrentPosition, r.fFile`pos
    ensures r.Valid()
    ensures ReadTrackTimings(f, old(r.Rest()), untimed) == if ok then Some(values) else None
    ensures ok ==> Stand(tracks, values)
  {
    ghost var goal := ReadTrackTimings(f, r.Rest(), untimed);
    values := [];
    var i := 0;
    assert untimed[0..] == untimed;
    assert goal.Some? ==> [] + goal.value == goal.value;
    while i < |tracks|
      invariant 0 <= i <= |tracks| && r.Valid() && |values| == i && Halfway(tracks, values, untimed)
      invariant goal == PrefixedTracks(values, ReadTrackTimings(f, r.Rest(), untimed[i..]))
    {
      ok := ReadNextTrackTiming(f, r, tracks, i, values, untimed);
      if !ok {
        return;
      }
      PrefixedTracksInTurn(values, tracks[i].Value(), ReadTrackTimings(f, r.Rest(), untimed[i + 1..]));
      values := values + [tracks[i].Value()];
      i := i + 1;
    }
    assert untimed[i..] == [] && values + [] == values;
    ok := true;
  }

  // ------------------------------------------------------------------
  // Images
  // ------------------------------------------------------------------

  class AtpImage {
    var fTracks: seq<AtpTrack>
    var fNumberOfTracks: nat
    var fWriteProtected: bool
    ghost var values: seq<Track>

    ghost predicate Valid()
      reads this, fTracks
    {
      fNumberOfTracks == |fTracks| <= 255 && Different(fTracks) && Stand(fTracks, values)
    }

    /** The image as a value. */
    ghost function Value(): Image
      reads this
    {
      Image(values, fWriteProtected)
    }

    constructor (numberOfTracks: byte)
      ensures Valid() && Value() == Image(Blank(numberOfTracks, 0), false)
      ensures forall i :: 0 <= i < |fTracks| ==> fresh(fTracks[i])
    {
      fTracks, fNumberOfTracks, fWriteProtected, values := [], 0, false, [];
      new;
      AllocData(numberOfTracks);
    }

    /** `AllocData`: new tracks, numbered in order. */
    method AllocData(tracks: byte)
      modifies this`fTracks, this`fNumberOfTracks, this`values
      ensures Valid() && values == Blank(tracks, 0)
      ensures forall i :: 0 <= i < |fTracks| ==> fresh(fTracks[i])
    {
      var all: seq<AtpTrack> := [];
      var i: nat := 0;
      while i < tracks
        invariant 0 <= i <= tracks && |all| == i && Different(all)
        invariant forall k :: 0 <= k < i ==> fresh(all[k]) && all[k].Valid() && all[k].Value() == Track(k, FM, [])
      {
        var t := new AtpTrack(i);
        all := all + [t];
        i := i + 1;
      }
      fTracks, fNumberOfTracks, values := all, tracks, Blank(tracks, 0);
    }

    method AddSector(trackno: byte, sector: AtpSector) returns (ok: bool)
      requires Valid()
      modifies this`values, fTracks
      ensures Valid() && (ok <==> trackno < old(|values|))
      ensures Value() == if ok then old(Value()).(tracks := old(values)[trackno :=
          old(values)[trackno].(sectors := AtpFormat.AddSector(old(values)[trackno].sectors, sector))]) else old(Value())
    {
      ok := trackno < fNumberOfTracks;
      if ok {
        fTracks[trackno].AddSector(sector);
        values := values[trackno := fTracks[trackno].Value()];
      }
    }

    method GetSector(trackno: byte, sectorID: byte, currentTime: nat) returns (found: bool, index: nat)
      requires Valid()
      ensures if trackno >= |values| then !found
        else AtpSearch.GetSector(values[trackno].sectors, sectorID, currentTime) == if found then Some(index) else None
    {
      found, index := false, 0;
      if trackno < fNumberOfTracks {
        found, index := fTracks[trackno].GetSector(sectorID, currentTime);
      }
    }

    method BuildHeaderChunk(ghost f: Format) returns (c: ChunkWriter)
      requires Matches(f) && Valid()
      ensures fresh(c) && fresh(c.fData) && IsChunk(f, c, INFO, HeaderData(f, Value()))
    {
      c := NewChunk(INFO);
      PutDword(f, c, fNumberOfTracks, INFO, []);
      assert [] + f.dword(fNumberOfTracks) == f.dword(fNumberOfTracks);
      PutDword(f, c, if fWriteProtected then 1 else 0, INFO, f.dword(fNumberOfTracks));
      Close(f, c, INFO, HeaderData(f, Value()));
    }

    /** The chunk with the header and all tracks. */
    method BuildAtpChunk(ghost f: Format) returns (c: ChunkWriter)
      requires Matches(f) && Valid()
      ensures fresh(c) && fresh(c.fData) && IsChunk(f, c, ATP1, ImageData(f, Value()))
    {
      c := NewChunk(ATP1);
      var header := BuildHeaderChunk(f);
      ghost var head := f.chunk(INFO, HeaderData(f, Value()));
      PutChunk(f, c, header, ATP1, [], INFO, HeaderData(f, Value()));
      assert [] + head == head;
      AppendTracks(f, c, fTracks, values, ATP1, head);
      Close(f, c, ATP1, ImageData(f, Value()));
    }

    static method BuildCrcChunk(ghost f: Format, checksum: nat) returns (c: ChunkWriter)
      requires Matches(f)
      ensures fresh(c) && fresh(c.fData) && IsChunk(f, c, CRC1, f.dword(checksum))
    {
      c := NewChunk(CRC1);
      PutDword(f, c, checksum, CRC1, []);
      assert [] + f.dword(checksum) == f.dword(checksum);
      Close(f, c, CRC1, f.dword(checksum));
    }

    method BuildTimingChunk(ghost f: Format) returns (c: ChunkWriter)
      requires Matches(f) && Valid()
      ensures fresh(c) && fresh(c.fData) && IsChunk(f, c, TIM1, f.dword(|values|) + TimingChunks(f, values))
    {
      c := NewChunk(TIM1);
      PutDword(f, c, fNumberOfTracks, TIM1, []);
      assert [] + f.dword(fNumberOfTracks) == f.dword(fNumberOfTracks);
      AppendTrackTimings(f, c, fTracks, values, TIM1, f.dword(fNumberOfTracks));
      Close(f, c, TIM1, f.dword(fNumberOfTracks) + TimingChunks(f, values));
    }

    /** The outermost chunk. */
    method BuildFormChunk(ghost f: Format) returns (c: ChunkWriter)
      requires Matches(f) && Valid()
      ensures IsChunk(f, c, FORM, FormData(f, Value()))
    {
      ghost var data := ImageData(f, Value());
      var atpChunk := BuildAtpChunk(f);
      var checksum := SumOfClosed(f, atpChunk, ATP1, data);
      var crcChunk := BuildCrcChunk(f, checksum);
      var timingChunk := BuildTimingChunk(f);
      c := AssembleForm(f, atpChunk, crcChunk, timingChunk, data, f.dword(checksum), f.dword(|values|) + TimingChunks(f, values));
    }

    static method SumOfClosed(ghost f: Format, c: ChunkWriter, ghost tag: Tag, ghost data: seq<byte>) returns (n: nat)
      requires Matches(f) && IsChunk(f, c, tag, data)
      ensures n == f.sum(data)
    {
      n := SumOfPayload(f, c);
      assert f.chunk(tag, data) == Chunk(tag, data);
      assert Chunk(tag, data)[8..] == data;
    }

    static method AssembleForm(
        ghost f: Format, atp: ChunkWriter, crc: ChunkWriter, tim: ChunkWriter,
        ghost a: seq<byte>, ghost b: seq<byte>, ghost d: seq<byte>)
      returns (c: ChunkWriter)
      requires Matches(f) && IsChunk(f, atp, ATP1, a) && IsChunk(f, crc, CRC1, b) && IsChunk(f, tim, TIM1, d)
      ensures IsChunk(f, c, FORM, f.chunk(ATP1, a) + (f.chunk(CRC1, b) + f.chunk(TIM1, d)))
    {
      ghost var x, y, z := f.chunk(ATP1, a), f.chunk(CRC1, b), f.chunk(TIM1, d);
      c := NewChunk(FORM);
      PutChunk(f, c, atp, FORM, [], ATP1, a);
      PutChunk(f, c, crc, FORM, [] + x, CRC1, b);
      PutChunk(f, c, tim, FORM, ([] + x) + y, TIM1, d);
      assert (([] + x) + y) + z == x + (y + z);
      Close(f, c, FORM, x + (y + z));
    }

    method WriteImageToFile(ghost f: Format, fileio: File)
      requires Matches(f) && Valid()
      modifies fileio
      ensures fileio.Valid() && fileio.data == WriteImage(f, Value())
    {
      var fileChunk := BuildFormChunk(f);
      fileio.OpenWrite();
      var ok := fileChunk.WriteToFile(fileio);
      assert [] + fileChunk.Bytes() == fileChunk.Bytes();
    }

    /** `InitFromHeaderChunk`: the number of tracks is cut to a byte. */
    method InitFromHeaderChunk(ghost f: Format, r: ChunkReader) returns (ok: bool)
      requires Matches(f) && r.Valid()
      modifies this, r`fCurrentPosition, r.fFile`pos
      ensures match f.readDword(old(r.Rest()))
        case None => !ok
        case Some((n, s1)) =>
          match f.readDword(s1)
          case None => !ok
          case Some((flags, _)) => ok && Valid() && |values| == n % 256 && fWriteProtected == (flags % 2 == 1)
      ensures ok ==> forall i :: 0 <= i < |fTracks| ==> fresh(fTracks[i])
    {
      var tmp;
      ok, tmp := NextDword(f, r);
      if !ok {
        return;
      }
      AllocData(tmp % 256);
      ok, tmp := NextDword(f, r);
      if !ok {
        return;
      }
      fWriteProtected := tmp % 2 == 1;
    }

    /** The image without its timing, from the ATP1 chunk. */
    method ReadAtpChunk(ghost f: Format, atp: ChunkReader) returns (ok: bool)
      requires Matches(f) && atp.Valid()
      modifies this, atp`fCurrentPosition, atp.fFile`pos
      ensures atp.Valid()
      ensures ReadUntimed(f, old(atp.Rest())) == if ok then Some(Value()) else None
      ensures ok ==> Valid() && forall i :: 0 <= i < |fTracks| ==> fresh(fTracks[i])
    {
      var headerChunk := NextChunk(f, atp, INFO);
      if headerChunk == null {
        return false;
      }
      ok := InitFromHeaderChunk(f, headerChunk);
      if !ok {
        return;
      }
      ghost var read;
      ok, read := ReadAllTracks(f, atp, fTracks);
      if ok {
        values := read;
      }
    }

    /** The stored checksum must be that of the whole ATP1 chunk. */
    method CheckCrc(ghost f: Format, form: ChunkReader, atp: ChunkReader) returns (ok: bool)
      requires Matches(f) && form.Valid() && atp.Valid() && form != atp && form.fFile == atp.fFile
      modifies form`fCurrentPosition, form.fFile`pos
      ensures form.Valid()
      ensures match f.findChunk(old(form.Rest()), CRC1)
        case None => !ok
        case Some(crc) =>
          match f.readDword(crc.data)
          case None => !ok
          case Some((sum, _)) => ok == (sum == f.sum(atp.Data())) && form.Rest() == crc.rest
    {
      var crcChunk := NextChunk(f, form, CRC1);
      if crcChunk == null {
        return false;
      }
      var fileChecksum;
      ok, fileChecksum := NextDword(f, crcChunk);
      if !ok {
        return;
      }
      var calculatedChecksum := SumOfChunk(f, atp);
      ok := fileChecksum == calculatedChecksum;
    }

    /** The timing information, from the TIM1 chunk. */
    method ReadTimingChunk(ghost f: Format, form: ChunkReader) returns (ok: bool)
      requires Matches(f) && form.Valid() && Valid()
      modifies this`values, fTracks, form`fCurrentPosition, form.fFile`pos
      ensures ReadTimingPart(f, old(form.Rest()), old(Value())) == if ok then Some(Value()) else None
      ensures ok ==> Valid()
    {
      var timingChunk := NextChunk(f, form, TIM1);
      if timingChunk == null {
        return false;
      }
      var timingNrOfTracks;
      ok, timingNrOfTracks := NextDword(f, timingChunk);
      if !ok {
        return;
      }
      if timingNrOfTracks != fNumberOfTracks {
        return false;
      }
      ghost var read;
      ok, read := ReadAllTimings(f, timingChunk, fTracks, values);
      if ok {
        values := read;
      }
    }

    /** The rest of the outermost chunk, after the image has been read from the ATP1 chunk. */
    method ReadCheckedRest(ghost f: Format, form: ChunkReader, atp: ChunkReader) returns (ok: bool)
      requires Matches(f) && form.Valid() && atp.Valid() && form != atp && form.fFile == atp.fFile && Valid()
      modifies this`values, fTracks, form`fCurrentPosition, form.fFile`pos
      ensures ReadChecked(f, old(form.Rest()), atp.Data(), old(Value())) == if ok then Some(Value()) else None
      ensures ok ==> Valid()
    {
      ok := CheckCrc(f, form, atp);
      if ok {
        ok := ReadTimingChunk(f, form);
      }
    }

    /** The contents of the outermost chunk. */
    method ReadFormChunk(ghost f: Format, formChunk: ChunkReader) returns (ok: bool)
      requires Matches(f) && formChunk.Valid()
      modifies this, formChunk`fCurrentPosition, formChunk.fFile`pos
      ensures match f.findChunk(old(formChunk.Rest()), ATP1)
        case None => !ok
        case Some(atp) =>
          match ReadUntimed(f, atp.data)
          case None => !ok
          case Some(im) => ReadChecked(f, atp.rest, atp.data, im) == if ok then Some(Value()) else None
      ensures ok ==> Valid()
    {
      var atpChunk := NextChunk(f, formChunk, ATP1);
      if atpChunk == null {
        return false;
      }
      ok := ReadAtpChunk(f, atpChunk);
      if ok {
        ok := ReadCheckedRest(f, formChunk, atpChunk);
      }
    }

    method ReadImageFromFile(ghost f: Format, fileio: File) returns (ok: bool)
      requires Matches(f)
      modifies this, fileio`pos
      ensures ReadImage(f, fileio.data) == if ok then Some(Value()) else None
      ensures ok ==> Valid()
    {
      fileio.OpenRead();
      var fileChunk := new ChunkReader(fileio, 0, |fileio.data|, None);
      assert fileChunk.Rest() == fileio.data;
      var formChunk := NextChunk(f, fileChunk, FORM);
      if formChunk == null {
        return false;
      }
      ok := ReadFormChunk(f, formChunk);
    }
  }

  /** An image written to a file is read back from it, if it is one the format can hold. */
  method WriteThenRead(image: AtpImage, other: AtpImage, fileio: File) returns (ok: bool)
    requires image.Valid() && image != other
    modifies fileio, other
    ensures ImageOk(old(image.Value())) ==> ok && other.Valid() && other.Value() == old(image.Value())
    ensures ok ==> other.Valid() && ImageOk(other.Value())
  {
    ghost var f, im := ATP, image.Value();
    AtpMatches();
    image.WriteImageToFile(f, fileio);
    ok := other.ReadImageFromFile(f, fileio);
    RoundTripIff(im);
    if ok {
      ReadImageOk(f, fileio.data);
    }
  }

  /** Tracks without sectors, numbered from `i` on. */
  function Blank(n: nat, i: nat): (r: seq<Track>)
    ensures |r| == n && forall k :: 0 <= k < n ==> r[k] == Track(i + k, FM, [])
  {
    seq(n, k requires 0 <= k < n => Track(i + k, FM, []))
  }
}
