/** `AtpSector` and `AtpTrack`: the sectors of a track in a list, written to and read from chunks. */
module AtpTracks {
  import opened Bytes
  import opened AtpChunks
  import opened AtpFormat
  import opened AtpSearch
  import opened AtpStreams
  import opened FileIO
  import Crc32

  // ------------------------------------------------------------------
  // Chunks in terms of a format
  // ------------------------------------------------------------------

  /** The format is the one the chunk classes implement. */
  ghost predicate Matches(f: Format) {
    && Shrinks(f)
    && (forall s {:trigger ReadDword(s)} :: f.readDword(s) == ReadDword(s))
    && (forall s, tag {:trigger FindChunk(s, tag)} :: f.findChunk(s, tag) == FindChunk(s, tag))
    && (forall n: nat {:trigger DWord(n)} :: f.dword(n) == DWord(n))
    && (forall tag, data {:trigger Chunk(tag, data)} :: f.chunk(tag, data) == Chunk(tag, data))
    && (forall s {:trigger Crc32.Crc(s)} :: f.sum(s) == Crc32.Crc(s) as nat)
  }

  lemma {:induction false} AtpMatches()
    ensures Matches(ATP)
  {
  }

  /** The next word of a chunk. */
  method NextDword(ghost f: Format, r: ChunkReader) returns (ok: bool, n: nat)
    requires Matches(f) && r.Valid()
    modifies r`fCurrentPosition, r.fFile`pos
    ensures r.Valid()
    ensures f.readDword(old(r.Rest())) == if ok then Some((n, r.Rest())) else None
  {
    ghost var was := r.Rest();
    ok, n := r.ReadDword();
    assert f.readDword(was) == ReadDword(was);
  }

  /** The checksum of a whole chunk. */
  method SumOfChunk(ghost f: Format, r: ChunkReader) returns (n: nat)
    requires Matches(f) && r.Valid()
    modifies r.fFile`pos
    ensures n == f.sum(r.Data())
  {
    var crc := r.CalculateCRC32();
    assert f.sum(r.Data()) == Crc32.Crc(r.Data()) as nat;
    n := crc as nat;
  }

  /** The checksum of what has been appended to a chunk. */
  method SumOfPayload(ghost f: Format, c: ChunkWriter) returns (n: nat)
    requires Matches(f) && c.Valid()
    ensures n == f.sum(c.Payload())
  {
    var crc := c.CalculateCRC32();
    n := crc as nat;
  }

  /** The next chunk with a name, in the same file. */
  ghost predicate Found(f: Format, was: seq<byte>, tag: Tag, r: ChunkReader, c: ChunkReader?)
    reads r, r.fFile`data, c, if c != null then {c.fFile} else {}
  {
    r.Valid() &&
    if c == null then f.findChunk(was, tag) == None
    else c.Valid() && c.fFile == r.fFile && f.findChunk(was, tag) == Some(Opened(tag, c.Rest(), r.Rest())) && c.Data() == c.Rest()
  }

  method NextChunk(ghost f: Format, r: ChunkReader, tag: Tag) returns (c: ChunkReader?)
    requires Matches(f) && r.Valid()
    modifies r`fCurrentPosition, r.fFile`pos
    ensures Found(f, old(r.Rest()), tag, r, c) && (c != null ==> fresh(c))
  {
    ghost var was := r.Rest();
    c := r.FindChunk(tag);
    assert f.findChunk(was, tag) == FindChunk(was, tag);
  }

  /** A closed chunk of the format. */
  ghost predicate IsChunk(f: Format, c: ChunkWriter, tag: Tag, data: seq<byte>)
    reads c, c.fData
  {
    c.Valid() && !c.fIsOpen && c.Bytes() == f.chunk(tag, data)
  }

  /** An open chunk with what has been appended so far. */
  ghost predicate Building(c: ChunkWriter, tag: Tag, data: seq<byte>)
    reads c, c.fData
  {
    c.Valid() && c.fIsOpen && c.Name() == tag && c.Payload() == data
  }

  method NewChunk(tag: Tag) returns (c: ChunkWriter)
    ensures fresh(c) && fresh(c.fData) && Building(c, tag, [])
  {
    c := new ChunkWriter(tag);
  }

  lemma {:induction false} AppendedPayload(was: seq<byte>, now: seq<byte>, more: seq<byte>)
    requires |was| >= 8 && now == was + more
    ensures now[..4] == was[..4] && now[8..] == was[8..] + more
  {
  }

  method PutDword(ghost f: Format, c: ChunkWriter, n: nat, ghost tag: Tag, ghost data: seq<byte>)
    requires Matches(f) && Building(c, tag, data)
    modifies c, c.fData
    ensures Building(c, tag, data + f.dword(n)) && (c.fData == old(c.fData) || fresh(c.fData))
  {
    ghost var was := c.Bytes();
    var ok := c.AppendDword(n);
    AppendedPayload(was, c.Bytes(), DWord(n));
    assert was[8..] == data && c.Bytes()[8..] == c.Payload();
  }

  method PutBlock(c: ChunkWriter, block: seq<byte>, ghost tag: Tag, ghost data: seq<byte>)
    requires Building(c, tag, data)
    modifies c, c.fData
    ensures Building(c, tag, data + block) && (c.fData == old(c.fData) || fresh(c.fData))
  {
    ghost var was := c.Bytes();
    var ok := c.AppendBlock(block);
    AppendedPayload(was, c.Bytes(), block);
    assert was[8..] == data && c.Bytes()[8..] == c.Payload();
  }

  method PutChunk(ghost f: Format, c: ChunkWriter, sub: ChunkWriter, ghost tag: Tag, ghost data: seq<byte>, ghost subTag: Tag, ghost subData: seq<byte>)
    requires Building(c, tag, data) && IsChunk(f, sub, subTag, subData) && c != sub && c.fData != sub.fData
    modifies c, c.fData
    ensures Building(c, tag, data + f.chunk(subTag, subData)) && (c.fData == old(c.fData) || fresh(c.fData))
  {
    ghost var was := c.Bytes();
    var ok := c.AppendChunk(sub);
    AppendedPayload(was, c.Bytes(), f.chunk(subTag, subData));
    assert was[8..] == data && c.Bytes()[8..] == c.Payload();
  }

  method Close(ghost f: Format, c: ChunkWriter, ghost tag: Tag, ghost data: seq<byte>)
    requires Matches(f) && Building(c, tag, data)
    modifies c, c.fData
    ensures IsChunk(f, c, tag, data) && c.fData == old(c.fData)
  {
    var ok := c.CloseChunk();
    assert f.chunk(tag, data) == Chunk(tag, data);
  }

  // ------------------------------------------------------------------
  // Sectors
  // ------------------------------------------------------------------

  /** `AtpSector::BuildSectorChunk`. */
  method BuildSectorChunk(ghost f: Format, s: AtpSector) returns (c: ChunkWriter)
    requires Matches(f)
    ensures fresh(c) && fresh(c.fData) && IsChunk(f, c, SECT, SectorData(f, s))
  {
    c := NewChunk(SECT);
    PutDword(f, c, s.id, SECT, []);
    PutDword(f, c, |s.data|, SECT, [] + f.dword(s.id));
    PutBlock(c, [s.status], SECT, ([] + f.dword(s.id)) + f.dword(|s.data|));
    PutBlock(c, s.data, SECT, ([] + f.dword(s.id)) + f.dword(|s.data|) + [s.status]);
    assert ([] + f.dword(s.id)) + f.dword(|s.data|) + [s.status] + s.data == SectorData(f, s);
    Close(f, c, SECT, SectorData(f, s));
  }

  /** `AtpSector::InitFromSectorChunk`. */
  method InitFromSectorChunk(ghost f: Format, r: ChunkReader) returns (s: Option<AtpSector>)
    requires Matches(f) && r.Valid()
    modifies r`fCurrentPosition, r.fFile`pos
    ensures s == ReadSector(f, old(r.Rest()))
  {
    var ok, id := NextDword(f, r);
    if !ok || id < 1 || id > 26 {
      return None;
    }
    var length;
    ok, length := NextDword(f, r);
    if !ok || length != 128 {
      return None;
    }
    s := ReadSectorBody(id, r);
  }

  /** The status and the data. */
  method ReadSectorBody(id: nat, r: ChunkReader) returns (s: Option<AtpSector>)
    requires r.Valid()
    modifies r`fCurrentPosition, r.fFile`pos
    ensures var b := old(r.Rest());
      s == if |b| < 129 then None else Some(AtpSector(id, b[1..129], 0, 0, b[0]))
  {
    ghost var was := r.Rest();
    var ok, status := r.ReadByte();
    if !ok {
      return None;
    }
    var data;
    ok, data := r.ReadBlock(128);
    if !ok {
      return None;
    }
    assert was[1..][..128] == was[1..129];
    s := Some(AtpSector(id, data, 0, 0, status));
  }

  // ------------------------------------------------------------------
  // Tracks
  // ------------------------------------------------------------------

  class AtpTrack {
    var fSectors: seq<AtpSector>
    var fNumberOfSectors: nat
    var fTrackNumber: nat
    var fDensity: Density

    ghost predicate Valid()
      reads this
    {
      fNumberOfSectors == |fSectors|
    }

    /** The track as a value. */
    ghost function Value(): Track
      reads this
    {
      Track(fTrackNumber, fDensity, fSectors)
    }

    constructor (trackNumber: nat)
      ensures Valid() && Value() == Track(trackNumber, FM, [])
    {
      fSectors, fNumberOfSectors, fTrackNumber, fDensity := [], 0, trackNumber, FM;
    }

    method AddSector(sec: AtpSector)
      requires Valid()
      modifies this`fSectors, this`fNumberOfSectors
      ensures Valid() && fSectors == AtpFormat.AddSector(old(fSectors), sec)
    {
      var iter := 0;
      while iter < |fSectors| && fSectors[iter].position <= sec.position
        invariant 0 <= iter <= |fSectors|
        invariant InsertionPoint(fSectors, sec.position, 0) == InsertionPoint(fSectors, sec.position, iter)
      {
        iter := iter + 1;
      }
      fSectors := fSectors[..iter] + [sec] + fSectors[iter..];
      fNumberOfSectors := fNumberOfSectors + 1;
    }

    /** Looks for a sector from the one that passes next, once around the track. */
    method GetSector(id: nat, currentTime: nat) returns (found: bool, index: nat)
      requires Valid()
      ensures AtpSearch.GetSector(fSectors, id, currentTime) == if found then Some(index) else None
    {
      found, index := false, 0;
      if |fSectors| == 0 {
        return;
      }
      var current := Seek(currentTime);
      index := current;
      ghost var k := 0;
      while true
        invariant 0 <= k < |fSectors| && index == Passing(|fSectors|, current, k) && !found
        invariant FirstPassing(fSectors, id, current, 0) == FirstPassing(fSectors, id, current, k)
        decreases |fSectors| - k
      {
        if fSectors[index].id == id {
          return true, index;
        }
        index := index + 1;
        if index == |fSectors| {
          index := 0;
        }
        k := k + 1;
        if index == current {
          return;
        }
      }
    }

    /** The sector that passes next. */
    method Seek(currentTime: nat) returns (current: nat)
      requires |fSectors| > 0
      ensures current == StartIndex(fSectors, currentTime)
    {
      current := 0;
      while current < |fSectors| && fSectors[current].position < currentTime
        invariant 0 <= current <= |fSectors|
        invariant SeekIndex(fSectors, currentTime, 0) == SeekIndex(fSectors, currentTime, current)
      {
        current := current + 1;
      }
      if current == |fSectors| {
        current := 0;
      }
    }

    /** The first three words of a TRAK chunk. */
    method BuildTrackHead(ghost f: Format) returns (c: ChunkWriter)
      requires Matches(f) && Valid()
      ensures fresh(c) && fresh(c.fData) && Building(c, TRAK, TrackHead(f, Value()))
    {
      c := NewChunk(TRAK);
      PutDword(f, c, fTrackNumber, TRAK, []);
      PutDword(f, c, fNumberOfSectors, TRAK, [] + f.dword(fTrackNumber));
      var code := if fDensity == FM then 0 else 1;
      PutDword(f, c, code, TRAK, ([] + f.dword(fTrackNumber)) + f.dword(fNumberOfSectors));
      assert [] + f.dword(fTrackNumber) == f.dword(fTrackNumber);
    }

    method BuildTrackChunk(ghost f: Format) returns (c: ChunkWriter)
      requires Matches(f) && Valid()
      ensures fresh(c) && fresh(c.fData) && IsChunk(f, c, TRAK, TrackData(f, Value()))
    {
      c := BuildTrackHead(f);
      AppendSectors(f, c, fSectors, TRAK, TrackHead(f, Value()));
      Close(f, c, TRAK, TrackData(f, Value()));
    }

    /** The loop over the sectors. */
    static method AppendSectors(ghost f: Format, c: ChunkWriter, sectors: seq<AtpSector>, ghost tag: Tag, ghost head: seq<byte>)
      requires Matches(f) && Building(c, tag, head)
      modifies c, c.fData
      ensures Building(c, tag, head + SectorChunks(f, sectors)) && (c.fData == old(c.fData) || fresh(c.fData))
    {
      ghost var done := head;
      var iter := 0;
      assert sectors[0..] == sectors;
      while iter < |sectors|
        invariant 0 <= iter <= |sectors| && Building(c, tag, done) && (c.fData == old(c.fData) || fresh(c.fData))
        invariant done + SectorChunks(f, sectors[iter..]) == head + SectorChunks(f, sectors)
      {
        AppendSector(f, c, sectors[iter], tag, done);
        OneSectorMore(f, sectors, iter, done);
        done := done + SectorChunk(f, sectors[iter]);
        iter := iter + 1;
      }
      assert done + [] == done;
    }

    static method AppendSector(ghost f: Format, c: ChunkWriter, s: AtpSector, ghost tag: Tag, ghost data: seq<byte>)
      requires Matches(f) && Building(c, tag, data)
      modifies c, c.fData
      ensures Building(c, tag, data + SectorChunk(f, s)) && (c.fData == old(c.fData) || fresh(c.fData))
    {
      var sub := BuildSectorChunk(f, s);
      PutChunk(f, c, sub, tag, data, SECT, SectorData(f, s));
    }

    method BuildTrackTimingChunk(ghost f: Format) returns (c: ChunkWriter)
      requires Matches(f) && Valid()
      ensures fresh(c) && fresh(c.fData) && IsChunk(f, c, TTI1, TimingData(f, Value()))
    {
      c := NewChunk(TTI1);
      PutDword(f, c, fTrackNumber, TTI1, []);
      PutDword(f, c, fNumberOfSectors, TTI1, [] + f.dword(fTrackNumber));
      assert [] + f.dword(fTrackNumber) == f.dword(fTrackNumber);
      AppendTimings(f, c, fSectors, TTI1, f.dword(fTrackNumber) + f.dword(fNumberOfSectors));
      Close(f, c, TTI1, TimingData(f, Value()));
    }

    static method AppendTimings(ghost f: Format, c: ChunkWriter, sectors: seq<AtpSector>, ghost tag: Tag, ghost head: seq<byte>)
      requires Matches(f) && Building(c, tag, head)
      modifies c, c.fData
      ensures Building(c, tag, head + Timings(f, sectors)) && (c.fData == old(c.fData) || fresh(c.fData))
    {
      ghost var done := head;
      var iter := 0;
      assert sectors[0..] == sectors;
      while iter < |sectors|
        invariant 0 <= iter <= |sectors| && Building(c, tag, done) && (c.fData == old(c.fData) || fresh(c.fData))
        invariant done + Timings(f, sectors[iter..]) == head + Timings(f, sectors)
      {
        PutDword(f, c, sectors[iter].position, tag, done);
        PutDword(f, c, sectors[iter].timeLength, tag, done + f.dword(sectors[iter].position));
        OneTimingMore(f, sectors, iter, done);
        done := (done + f.dword(sectors[iter].position)) + f.dword(sectors[iter].timeLength);
        iter := iter + 1;
      }
      assert done + [] == done;
    }

    /** `SetTimingInformationFromTTI1Chunk`. */
    method SetTimingInformationFromTTI1Chunk(ghost f: Format, r: ChunkReader) returns (ok: bool)
      requires Matches(f) && r.Valid() && Valid()
      modifies this`fSectors, r`fCurrentPosition, r.fFile`pos
      ensures Valid()
      ensures ReadTrackTiming(f, old(r.Rest()), old(Value())) == if ok then Some(Value()) else None
    {
      var trackno, secNo;
      ok, trackno := NextDword(f, r);
      if !ok {
        return;
      }
      if trackno != fTrackNumber {
        return false;
      }
      ok, secNo := NextDword(f, r);
      if !ok {
        return;
      }
      if secNo != fNumberOfSectors {
        return false;
      }
      ok := SetTimings(f, r);
    }

    /** The loop over the sectors; each gets its position and its length in time. */
    method SetTimings(ghost f: Format, r: ChunkReader) returns (ok: bool)
      requires Matches(f) && r.Valid() && Valid()
      modifies this`fSectors, r`fCurrentPosition, r.fFile`pos
      ensures Valid()
      ensures ReadTimings(f, old(r.Rest()), old(fSectors), None) == if ok then Some(fSectors) else None
    {
      ghost var goal, was := ReadTimings(f, r.Rest(), fSectors, None), fSectors;
      var lastPosition: Option<nat> := None;
      var iter := 0;
      PrefixedNothing(goal);
      assert was[0..] == was && fSectors[..0] == [];
      while iter < |fSectors|
        invariant 0 <= iter <= |fSectors| == |was| && Valid() && r.Valid() && fSectors[iter..] == was[iter..]
        invariant goal == Prefixed(fSectors[..iter], ReadTimings(f, r.Rest(), was[iter..], lastPosition))
      {
        var timing := ReadOneTiming(f, r, lastPosition, was[iter..]);
        if timing.None? {
          return false;
        }
        var (position, length) := timing.value;
        ghost var before, rest := fSectors[..iter], ReadTimings(f, r.Rest(), was[iter + 1..], Some(position));
        fSectors := fSectors[iter := fSectors[iter].(position := position, timeLength := length)];
        assert was[iter..][1..] == was[iter + 1..] && was[iter..][0] == was[iter];
        PrefixedInTurn(before, fSectors[iter], rest);
        assert fSectors[..iter + 1] == before + [fSectors[iter]];
        lastPosition := Some(position);
        iter := iter + 1;
      }
      assert fSectors[..iter] + [] == fSectors && was[iter..] == [];
      ok := true;
    }

    /** Position and length of one sector, if they are acceptable. */
    static method ReadOneTiming(ghost f: Format, r: ChunkReader, last: Option<nat>, ghost sectors: seq<AtpSector>)
      returns (timing: Option<(nat, nat)>)
      requires Matches(f) && r.Valid() && sectors != []
      modifies r`fCurrentPosition, r.fFile`pos
      ensures r.Valid()
      ensures ReadTimings(f, old(r.Rest()), sectors, last) ==
        if timing.None? then None
        else Prefixed([sectors[0].(position := timing.value.0, timeLength := timing.value.1)],
                      ReadTimings(f, r.Rest(), sectors[1..], Some(timing.value.0)))
    {
      var ok, position := NextDword(f, r);
      if !ok || position >= ROTATION || (last.Some? && position <= last.value) {
        return None;
      }
      var length;
      ok, length := NextDword(f, r);
      if !ok || length >= ROTATION {
        return None;
      }
      timing := Some((position, length));
    }

    /** `InitFromTRAKChunk`. */
    method InitFromTRAKChunk(ghost f: Format, r: ChunkReader) returns (ok: bool)
      requires Matches(f) && r.Valid()
      modifies this, r`fCurrentPosition, r.fFile`pos
      ensures ReadTrack(f, old(r.Rest())) == if ok then Some(Value()) else None
      ensures ok ==> Valid()
    {
      fSectors, fNumberOfSectors := [], 0;
      var trackno, secNo, dens;
      ok, trackno := NextDword(f, r);
      if !ok {
        return;
      }
      fTrackNumber := trackno;
      ok, secNo := NextDword(f, r);
      if !ok {
        return;
      }
      ok, dens := NextDword(f, r);
      if !ok {
        return;
      }
      fDensity := if dens == 1 then MFM else FM;
      ok := ReadAllSectors(f, r, secNo);
    }

    /** The loop over the SECT chunks. */
    method ReadAllSectors(ghost f: Format, r: ChunkReader, secNo: nat) returns (ok: bool)
      requires Matches(f) && r.Valid() && Valid() && fSectors == []
      modifies this`fSectors, this`fNumberOfSectors, r`fCurrentPosition, r.fFile`pos
      ensures Valid()
      ensures ReadSectors(f, old(r.Rest()), secNo, 0, []) == if ok then Some(fSectors) else None
    {
      ghost var goal := ReadSectors(f, r.Rest(), secNo, 0, []);
      var i: byte := 0;
      while i < secNo
        invariant Valid() && r.Valid() && goal == ReadSectors(f, r.Rest(), secNo, i, fSectors)
        decreases |r.Rest()|, i < secNo
      {
        ghost var was := r.Rest();
        ok := ReadOneSector(f, r, secNo, i);
        if !ok {
          return;
        }
        i := (i + 1) % 256;
      }
      ok := true;
    }

    /** The body of the loop. */
    method ReadOneSector(ghost f: Format, r: ChunkReader, ghost secNo: nat, ghost i: byte) returns (ok: bool)
      requires Matches(f) && r.Valid() && Valid() && i < secNo
      modifies this`fSectors, this`fNumberOfSectors, r`fCurrentPosition, r.fFile`pos
      ensures Valid() && r.Valid()
      ensures ReadSectors(f, old(r.Rest()), secNo, i, old(fSectors))
           == if ok then ReadSectors(f, r.Rest(), secNo, (i + 1) % 256, fSectors) else None
      ensures ok ==> |r.Rest()| < |old(r.Rest())|
    {
      var sectorChunk := NextChunk(f, r, SECT);
      if sectorChunk == null {
        return false;
      }
      var sector := InitFromSectorChunk(f, sectorChunk);
      if sector.None? {
        return false;
      }
      AddSector(sector.value);
      ok := true;
    }
  }

  /** A list that begins with sectors already read. */
  function Prefixed(before: seq<AtpSector>, r: Option<seq<AtpSector>>): Option<seq<AtpSector>> {
    match r
    case None => None
    case Some(sectors) => Some(before + sectors)
  }

  lemma {:induction false} PrefixedNothing(r: Option<seq<AtpSector>>)
    ensures Prefixed([], r) == r
  {
    if r.Some? {
      assert [] + r.value == r.value;
    }
  }

  lemma {:induction false} PrefixedInTurn(before: seq<AtpSector>, s: AtpSector, r: Option<seq<AtpSector>>)
    ensures Prefixed(before, Prefixed([s], r)) == Prefixed(before + [s], r)
  {
    if r.Some? {
      Reassociate(before, [s], r.value);
    }
  }

  function TrackHead(f: Format, t: Track): seq<byte> {
    f.dword(t.number) + f.dword(|t.sectors|) + f.dword(DensityCode(t.density))
  }

  lemma {:induction false} OneSectorMore(f: Format, sectors: seq<AtpSector>, i: nat, done: seq<byte>)
    requires i < |sectors|
    ensures (done + SectorChunk(f, sectors[i])) + SectorChunks(f, sectors[i + 1..]) == done + SectorChunks(f, sectors[i..])
  {
    var t := sectors[i..];
    assert t[0] == sectors[i] && t[1..] == sectors[i + 1..];
  }

  lemma {:induction false} OneTimingMore(f: Format, sectors: seq<AtpSector>, i: nat, done: seq<byte>)
    requires i < |sectors|
    ensures ((done + f.dword(sectors[i].position)) + f.dword(sectors[i].timeLength)) + Timings(f, sectors[i + 1..])
         == done + Timings(f, sectors[i..])
  {
    var t := sectors[i..];
    assert t[0] == sectors[i] && t[1..] == sectors[i + 1..];
  }
}
