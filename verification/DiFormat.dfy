/** The DI file format: a checksum for every sector, and the sectors that are not all zero. */
module DiFormat {
  import opened Bytes
  import opened AtrImage
  import opened FileIO
  import opened SioChecksum

  const D: byte := 0x44
  const I: byte := 0x49

  const VERSION := 0x0220

  /** `AtariSIO`, and with the NUL that ends it. */
  const NAME: seq<byte> := [0x41, 0x74, 0x61, 0x72, 0x69, 0x53, 0x49, 0x4f]
  const CREATOR: seq<byte> := NAME + [0]

  function BigEndian(w: nat): (s: seq<byte>)
    ensures |s| == 2
  {
    [w / 256 % 256, w % 256]
  }

  function BigEndianValue(s: seq<byte>): (w: nat)
    requires |s| >= 2
    ensures w < 0x1_0000
  {
    var hi: nat, lo: nat := s[0], s[1];
    256 * hi + lo
  }

  // ------------------------------------------------------------------
  // Writing
  // ------------------------------------------------------------------

  /** The sector map: a checksum that is 0 exactly for empty sectors. */
  function Map(d: Sectors): (m: seq<byte>)
    ensures |m| == |d| && forall i :: 0 <= i < |m| ==> m[i] == Checksum(d[i])
  {
    seq(|d|, i requires 0 <= i < |d| => Checksum(d[i]))
  }

  function NonEmpty(d: Sectors): seq<byte>
    decreases |d|
  {
    if d == [] then [] else if Checksum(d[0]) != 0 then d[0] + NonEmpty(d[1..]) else NonEmpty(d[1..])
  }

  /** The nine bytes of the layout; tracks and sides have a byte each. */
  function Layout(c: Config): (s: seq<byte>)
    requires c.sides > 0
    ensures |s| == 9
  {
    [1, c.tracksPerSide % 256] + BigEndian(c.sectorsPerTrack) + [(c.sides - 1) % 256, 0] + BigEndian(c.sectorLength) + [0]
  }

  /** `WriteImageToDiFile`. */
  function WriteDi(c: Config, d: Sectors): seq<byte>
    requires c.sides > 0
  {
    [D, I] + Word(VERSION) + CREATOR + (Layout(c) + (Map(d) + NonEmpty(d)))
  }

  // ------------------------------------------------------------------
  // Reading
  // ------------------------------------------------------------------

  /** What follows the NUL that ends the creator. */
  function SkipCreator(s: seq<byte>): (r: Option<seq<byte>>)
    ensures r.Some? ==> |r.value| < |s|
    decreases |s|
  {
    if s == [] then None else if s[0] == 0 then Some(s[1..]) else SkipCreator(s[1..])
  }

  /** The layout; the number of sides is one more than what is stored, in a byte. */
  function ReadLayout(s: seq<byte>): (c: Option<Config>)
    requires |s| >= 9
    ensures c.Some? ==> c.value.Legal() && c.value.sectorLength in {128, 256}
  {
    var tracks: nat, stored: nat := s[1], s[4];
    var sectors, sides, length := BigEndianValue(s[2..]), (stored + 1) % 256, BigEndianValue(s[6..]);
    if length != 128 && length != 256 then None
    else
      SmallLayoutLegal(length, sectors, tracks, sides);
      ConfigOfLayout(length, sectors, tracks, sides)
  }

  /** The sectors from the `i`-th on: empty, or with the checksum of the map. */
  function ReadSectors(c: Config, sums: seq<byte>, s: seq<byte>, i: nat): (d: Option<Sectors>)
    requires i <= |sums|
    ensures d.Some? ==> |d.value| == |sums| - i
    decreases |sums| - i
  {
    if i == |sums| then Some([])
    else
      var len := c.SectorLength(i + 1);
      if sums[i] == 0 then
        match ReadSectors(c, sums, s, i + 1)
        case None => None
        case Some(rest) => Some([Zeros(len)] + rest)
      else if |s| < len || Checksum(s[..len]) != sums[i] then None
      else
        match ReadSectors(c, sums, s[len..], i + 1)
        case None => None
        case Some(rest) => Some([s[..len]] + rest)
  }

  datatype Disk = Disk(config: Config, sectors: Sectors)

  function ReadBody(c: Config, s: seq<byte>): Option<Disk> {
    if |s| < c.numberOfSectors then None
    else
      match ReadSectors(c, s[..c.numberOfSectors], s[c.numberOfSectors..], 0)
      case None => None
      case Some(d) => Some(Disk(c, d))
  }

  /** The layout and the sectors. Two sectors of double density do not fit into the image made for them. */
  function ReadRest(s: seq<byte>): Option<Disk> {
    if |s| < 9 then None
    else
      match ReadLayout(s)
      case None => None
      case Some(c) => if c.sectorLength == 256 && c.numberOfSectors == 2 then None else ReadBody(c, s[9..])
  }

  /** Signature, version and creator; what follows them. */
  function ReadHeader(s: seq<byte>): Option<seq<byte>> {
    if |s| < 4 || s[0] != D || s[1] != I || WordValue(s[2..]) != VERSION then None
    else SkipCreator(s[4..])
  }

  /** `ReadImageFromDiFile`. */
  function ReadDi(s: seq<byte>): Option<Disk> {
    match ReadHeader(s)
    case None => None
    case Some(rest) => ReadRest(rest)
  }

  // ------------------------------------------------------------------
  // Round trip
  // ------------------------------------------------------------------

  lemma {:induction false} SectorsReadBack(c: Config, d: Sectors, i: nat)
    requires WellSized(c, d) && i <= |d|
    ensures ReadSectors(c, Map(d), NonEmpty(d[i..]), i) == Some(d[i..])
    decreases |d| - i
  {
    if i < |d| {
      var t := d[i..];
      assert t[0] == d[i] && t[1..] == d[i + 1..] && d[i..] == [d[i]] + d[i + 1..];
      SectorsReadBack(c, d, i + 1);
      ChecksumZero(d[i]);
      if Checksum(d[i]) == 0 {
        assert d[i] == Zeros(c.SectorLength(i + 1));
      } else {
        Seam(d[i], NonEmpty(d[i + 1..]));
      }
    }
  }

  lemma {:induction false} NameSkipped(name: seq<byte>, rest: seq<byte>)
    requires forall i :: 0 <= i < |name| ==> name[i] != 0
    ensures SkipCreator(name + ([0] + rest)) == Some(rest)
  {
    if name == [] {
      assert name + ([0] + rest) == [0] + rest && ([0] + rest)[1..] == rest;
    } else {
      NameSkipped(name[1..], rest);
      assert (name + ([0] + rest))[1..] == name[1..] + ([0] + rest);
    }
  }

  lemma {:induction false} CreatorSkipped(rest: seq<byte>)
    ensures SkipCreator(CREATOR + rest) == Some(rest)
  {
    NameSkipped(NAME, rest);
    assert CREATOR + rest == NAME + ([0] + rest);
  }

  /** The fields of a stored layout. */
  lemma {:induction false} LayoutFields(c: Config, rest: seq<byte>)
    requires 0 < c.sides && c.sectorsPerTrack < 0x1_0000 && c.sectorLength < 0x1_0000
    ensures var s := Layout(c) + rest;
      && s[1] == c.tracksPerSide % 256 && s[4] == (c.sides - 1) % 256
      && BigEndianValue(s[2..]) == c.sectorsPerTrack && BigEndianValue(s[6..]) == c.sectorLength
  {
    var s := Layout(c) + rest;
    assert s[2..] == BigEndian(c.sectorsPerTrack) + s[4..];
    assert s[6..] == BigEndian(c.sectorLength) + s[8..];
    BigEndianReads(c.sectorsPerTrack, s[4..]);
    BigEndianReads(c.sectorLength, s[8..]);
  }

  /** A legal layout is the one made of its own parts. */
  lemma {:induction false} LayoutOfParts(c: Config)
    requires c.Legal()
    ensures ConfigOfLayout(c.sectorLength, c.sectorsPerTrack, c.tracksPerSide, c.sides) == Some(c)
  {
    SmallRemainder(c.numberOfSectors);
  }

  /** The layout survives exactly if tracks and sides are below 256. */
  lemma {:induction false} LayoutReadsBack(c: Config, rest: seq<byte>)
    requires c.Legal() && c.sectorLength in {128, 256}
    ensures c.sides > 0
    ensures ReadLayout(Layout(c) + rest) == Some(c) <==> c.tracksPerSide <= 255 && c.sides <= 255
  {
    LayoutParts(c);
    LayoutFields(c, rest);
    var tracks, sides := c.tracksPerSide % 256, ((c.sides - 1) % 256 + 1) % 256;
    assert ReadLayout(Layout(c) + rest) == ConfigOfLayout(c.sectorLength, c.sectorsPerTrack, tracks, sides);
    FitsByte(c.tracksPerSide);
    FitsByte(c.sides - 1);
    SamePartsIff(c, tracks, sides);
  }

  lemma {:induction false} FitsByte(n: nat)
    ensures (n % 256 == n <==> n <= 255) && ((n % 256 + 1) % 256 == n + 1 <==> n < 255)
  {
  }

  lemma {:induction false} SamePartsIff(c: Config, tracks: nat, sides: nat)
    requires c.Legal()
    ensures ConfigOfLayout(c.sectorLength, c.sectorsPerTrack, tracks, sides) == Some(c) <==> tracks == c.tracksPerSide && sides == c.sides
  {
    if tracks == c.tracksPerSide && sides == c.sides {
      LayoutOfParts(c);
    }
  }

  lemma {:induction false} BigEndianReads(w: nat, rest: seq<byte>)
    requires w < 0x1_0000
    ensures BigEndianValue(BigEndian(w) + rest) == w
  {
  }

  /** A legal layout has no more tracks, sides or sectors per track than sectors. */
  lemma {:induction false} LayoutParts(c: Config)
    requires c.Legal()
    ensures 0 < c.sectorsPerTrack < 65536 && 0 < c.tracksPerSide < 65536 && 0 < c.sides < 65536
  {
    FactorBound(c.sectorsPerTrack * c.tracksPerSide, c.sides);
    FactorBound(c.sectorsPerTrack, c.tracksPerSide);
  }

  lemma {:induction false} FactorBound(a: nat, b: nat)
    requires 0 < a * b < 65536
    ensures 0 < a <= a * b && 0 < b <= a * b
  {
  }

  lemma {:induction false} HeaderReadsBack(rest: seq<byte>)
    ensures ReadDi([D, I] + Word(VERSION) + CREATOR + rest) == ReadRest(rest)
  {
    var s := [D, I] + Word(VERSION) + CREATOR + rest;
    assert s[2..] == Word(VERSION) + (CREATOR + rest);
    WordRoundTrip(VERSION, CREATOR + rest);
    assert s[4..] == CREATOR + rest;
    CreatorSkipped(rest);
  }

  /** Any image that is read has a layout the format can store. */
  lemma {:induction false} BodyReadsBack(c: Config, d: Sectors)
    requires WellSized(c, d)
    ensures ReadBody(c, Map(d) + NonEmpty(d)) == Some(Disk(c, d))
  {
    Seam(Map(d), NonEmpty(d));
    SectorsReadBack(c, d, 0);
    assert d[0..] == d;
  }

  /**
   A DI file restores layout and data of the image it was written from exactly if
   the image has at most 255 tracks on a side and at most 255 sides.
   */
  lemma {:induction false} RoundTripIff(c: Config, d: Sectors)
    requires c.Legal() && c.Fits() && c.sectorLength in {128, 256} && WellSized(c, d)
    ensures c.sides > 0
    ensures ReadDi(WriteDi(c, d)) == Some(Disk(c, d)) <==> c.tracksPerSide <= 255 && c.sides <= 255
  {
    var body := Map(d) + NonEmpty(d);
    LayoutParts(c);
    FitsIff(c);
    HeaderReadsBack(Layout(c) + body);
    LayoutReadsBack(c, body);
    Seam(Layout(c), body);
    BodyReadsBack(c, d);
  }

  /** The 22 bytes in front of the map: `DI`, version 2.20, the creator, and the layout with its high bytes first. */
  lemma {:induction false} FileStarts(c: Config, d: Sectors)
    requires c.Legal() && c.sectorLength in {128, 256}
    ensures 0 < c.sides && c.sectorsPerTrack < 0x1_0000
    ensures WriteDi(c, d)
         == [0x44, 0x49, 0x20, 0x02, 0x41, 0x74, 0x61, 0x72, 0x69, 0x53, 0x49, 0x4f, 0,
             1, c.tracksPerSide % 256, c.sectorsPerTrack / 256, c.sectorsPerTrack % 256, (c.sides - 1) % 256, 0,
             c.sectorLength / 256, c.sectorLength % 256, 0] + (Map(d) + NonEmpty(d))
  {
    LayoutParts(c);
    LayoutBytes(c);
    Reassociate([D, I] + Word(VERSION) + CREATOR, Layout(c), Map(d) + NonEmpty(d));
  }

  lemma {:induction false} LayoutBytes(c: Config)
    requires 0 < c.sides && c.sectorsPerTrack < 0x1_0000 && c.sectorLength in {128, 256}
    ensures [D, I] + Word(VERSION) + CREATOR + Layout(c)
         == [0x44, 0x49, 0x20, 0x02, 0x41, 0x74, 0x61, 0x72, 0x69, 0x53, 0x49, 0x4f, 0,
             1, c.tracksPerSide % 256, c.sectorsPerTrack / 256, c.sectorsPerTrack % 256, (c.sides - 1) % 256, 0,
             c.sectorLength / 256, c.sectorLength % 256, 0]
  {
  }

  // ------------------------------------------------------------------
  // The methods of AtrMemoryImage
  // ------------------------------------------------------------------

  /** `CalculateDiSectorChecksum`. */
  method CalculateDiSectorChecksum(buf: seq<byte>) returns (chksum: byte)
    ensures chksum == Checksum(buf)
  {
    chksum := 0;
    var i := 0;
    while i < |buf|
      invariant 0 <= i <= |buf| && chksum == Checksum(buf[..i])
    {
      assert buf[..i + 1][..i] == buf[..i];
      var sum: nat := chksum + buf[i];
      if sum >= 256 {
        sum := sum - 255;
      }
      chksum := sum;
      i := i + 1;
    }
    assert buf[..i] == buf;
  }

  /** The loop that builds the sector map. */
  method BuildMap(image: MemoryImage) returns (sums: seq<byte>)
    requires image.Valid()
    ensures sums == Map(image.Contents())
  {
    sums := [];
    var sector := 1;
    while sector <= image.config.numberOfSectors
      invariant 1 <= sector <= image.config.numberOfSectors + 1 && |sums| == sector - 1
      invariant forall k :: 0 <= k < |sums| ==> sums[k] == Checksum(image.Contents()[k])
    {
      SectorFits(image.config, sector);
      var ok, buf := image.ReadSector(sector, image.config.SectorLength(sector));
      var sum := CalculateDiSectorChecksum(buf);
      sums := sums + [sum];
      sector := sector + 1;
    }
  }

  lemma {:induction false} NonEmptyStep(d: Sectors, i: nat, done: seq<byte>)
    requires i < |d|
    ensures done + NonEmpty(d[i..]) == (if Checksum(d[i]) != 0 then done + d[i] else done) + NonEmpty(d[i + 1..])
  {
    var t := d[i..];
    assert t[0] == d[i] && t[1..] == d[i + 1..];
  }

  /** The loop that writes the sectors that are not empty. */
  method WriteSectors(image: MemoryImage, fileio: File, sums: seq<byte>)
    requires image.Valid() && sums == Map(image.Contents())
    modifies fileio`data
    ensures fileio.data == old(fileio.data) + NonEmpty(image.Contents())
  {
    ghost var d := image.Contents();
    ghost var all := fileio.data + NonEmpty(d);
    var sector := 1;
    assert d[0..] == d;
    while sector <= image.config.numberOfSectors
      invariant 1 <= sector <= image.config.numberOfSectors + 1
      invariant fileio.data + NonEmpty(d[sector - 1..]) == all
    {
      NonEmptyStep(d, sector - 1, fileio.data);
      if sums[sector - 1] != 0 {
        SectorFits(image.config, sector);
        var ok, buf := image.ReadSector(sector, image.config.SectorLength(sector));
        fileio.WriteBlock(buf);
      }
      sector := sector + 1;
    }
    assert fileio.data + [] == fileio.data;
  }

  method WriteImageToDiFile(image: MemoryImage, fileio: File) returns (ok: bool)
    requires image.Valid() && image.config.sectorLength in {128, 256}
    modifies fileio
    ensures ok && image.config.sides > 0 && fileio.data == WriteDi(image.config, image.Contents())
  {
    LayoutParts(image.config);
    var sums := BuildMap(image);
    fileio.OpenWrite();
    ghost var c := image.config;
    fileio.WriteBlock([D, I] + Word(VERSION) + CREATOR);
    WriteLayout(image.config, fileio);
    fileio.WriteBlock(sums);
    WriteSectors(image, fileio, sums);
    Regroup([D, I] + Word(VERSION) + CREATOR, Layout(c), Map(image.Contents()), NonEmpty(image.Contents()));
    ok := true;
  }

  method WriteLayout(c: Config, fileio: File)
    requires c.sides > 0
    modifies fileio`data
    ensures fileio.data == old(fileio.data) + Layout(c)
  {
    fileio.WriteBlock(
      [1, c.tracksPerSide % 256] + BigEndian(c.sectorsPerTrack) + [(c.sides - 1) % 256, 0] + BigEndian(c.sectorLength) + [0]);
  }

  lemma {:induction false} Regroup(a: seq<byte>, b: seq<byte>, c: seq<byte>, d: seq<byte>)
    ensures ((([] + a) + b) + c) + d == a + (b + (c + d))
  {
  }

  /** Reads bytes up to and including the NUL that ends the creator. */
  method SkipCreatorString(fileio: File) returns (ok: bool)
    requires fileio.Valid()
    modifies fileio`pos
    ensures fileio.Valid()
    ensures SkipCreator(old(fileio.Rest())) == if ok then Some(fileio.Rest()) else None
  {
    var more, b := fileio.ReadByte();
    while more && b != 0
      invariant fileio.Valid()
      invariant more ==> SkipCreator(old(fileio.Rest())) == SkipCreator([b] + fileio.Rest())
      invariant !more ==> SkipCreator(old(fileio.Rest())) == None
      decreases |fileio.Rest()|, more
    {
      SkipOne(b, fileio.Rest());
      more, b := fileio.ReadByte();
    }
    if more {
      SkipOne(b, fileio.Rest());
    }
    ok := more;
  }

  lemma {:induction false} SkipOne(b: byte, rest: seq<byte>)
    ensures SkipCreator([b] + rest) == if b == 0 then Some(rest) else SkipCreator(rest)
  {
    assert ([b] + rest)[1..] == rest;
  }

  method ReadFileHeader(fileio: File) returns (ok: bool)
    requires fileio.Valid()
    modifies fileio`pos
    ensures fileio.Valid()
    ensures ReadHeader(old(fileio.Rest())) == if ok then Some(fileio.Rest()) else None
  {
    var buf := fileio.ReadBlock(2);
    if |buf| != 2 || buf[0] != D || buf[1] != I {
      return false;
    }
    var version;
    ok, version := fileio.ReadWord();
    if !ok || version != VERSION {
      return false;
    }
    ok := SkipCreatorString(fileio);
  }

  /** The nine bytes of the layout, field by field. */
  method ReadLayoutFields(fileio: File) returns (ok: bool, sectors: nat, tracks: byte, sides: byte, length: nat)
    requires fileio.Valid()
    modifies fileio`pos
    ensures fileio.Valid()
    ensures ok <==> |old(fileio.Rest())| >= 9
    ensures ok ==> var s := old(fileio.Rest());
      && tracks == s[1] && sectors == BigEndianValue(s[2..]) && sides == (s[4] as nat + 1) % 256
      && length == BigEndianValue(s[6..]) && fileio.Rest() == s[9..]
  {
    ghost var s := fileio.Rest();
    var unknown, more;
    ok, tracks, sectors := ReadTracks(fileio);
    sides, length := 0, 0;
    if !ok { return; }
    ok, more := fileio.ReadByte();
    if !ok { return; }
    sides := if more == 255 then 0 else more + 1;
    ok, unknown := fileio.ReadByte();
    if !ok { return; }
    assert fileio.Rest() == s[6..];
    ok, length := fileio.ReadBigEndianWord();
    if !ok { return; }
    ok, unknown := fileio.ReadByte();
  }

  method ReadTracks(fileio: File) returns (ok: bool, tracks: byte, sectors: nat)
    requires fileio.Valid()
    modifies fileio`pos
    ensures fileio.Valid() && sectors < 0x1_0000
    ensures ok <==> |old(fileio.Rest())| >= 4
    ensures ok ==> var s := old(fileio.Rest());
      tracks == s[1] && sectors == BigEndianValue(s[2..]) && fileio.Rest() == s[4..]
  {
    var unknown;
    sectors := 0;
    ok, unknown := fileio.ReadByte();
    if !ok { tracks := 0; return; }
    ok, tracks := fileio.ReadByte();
    if !ok { return; }
    ok, sectors := fileio.ReadBigEndianWord();
    if !ok { sectors := 0; }
  }

  function Prepend(done: Sectors, rest: Option<Sectors>): Option<Sectors> {
    match rest
    case None => None
    case Some(d) => Some(done + d)
  }

  /** What reading sector `i + 1` does to the sectors read before it. */
  lemma {:induction false} EmptySectorStep(c: Config, sums: seq<byte>, s: seq<byte>, i: nat, done: Sectors)
    requires i < |sums| && sums[i] == 0
    ensures Prepend(done, ReadSectors(c, sums, s, i))
      == Prepend(done + [Zeros(c.SectorLength(i + 1))], ReadSectors(c, sums, s, i + 1))
  {
    match ReadSectors(c, sums, s, i + 1)
    case None =>
    case Some(rest) =>
      Reassociate(done, [Zeros(c.SectorLength(i + 1))], rest);
  }

  lemma {:induction false} StoredSectorStep(c: Config, sums: seq<byte>, s: seq<byte>, i: nat, done: Sectors)
    requires i < |sums| && sums[i] != 0 && |s| >= c.SectorLength(i + 1)
    requires Checksum(s[..c.SectorLength(i + 1)]) == sums[i]
    ensures Prepend(done, ReadSectors(c, sums, s, i))
      == Prepend(done + [s[..c.SectorLength(i + 1)]], ReadSectors(c, sums, s[c.SectorLength(i + 1)..], i + 1))
  {
    match ReadSectors(c, sums, s[c.SectorLength(i + 1)..], i + 1)
    case None =>
    case Some(rest) =>
      Reassociate(done, [s[..c.SectorLength(i + 1)]], rest);
  }

  /** Fetches one sector if the map says that it is stored. */
  method ReadStoredSector(image: MemoryImage, fileio: File, sector: nat, checksum: byte) returns (ok: bool)
    requires image.Valid() && !image.writeProtected && 1 <= sector <= image.config.numberOfSectors
    requires image.Contents()[sector - 1] == Zeros(image.config.SectorLength(sector))
    requires fileio.Valid()
    modifies fileio`pos, image.fData, image`sectors
    ensures fileio.Valid() && image.Valid()
    ensures var c, s, was := image.config, old(fileio.Rest()), old(image.Contents());
      var len := c.SectorLength(sector);
      && (ok <==> checksum == 0 || (|s| >= len && Checksum(s[..len]) == checksum))
      && (ok ==> image.Contents() == if checksum == 0 then was else was[sector - 1 := s[..len]])
      && (ok ==> fileio.Rest() == if checksum == 0 then s else s[len..])
  {
    ok := true;
    if checksum != 0 {
      var len := image.config.SectorLength(sector);
      var buf := fileio.ReadBlock(len);
      if |buf| != len {
        return false;
      }
      var sum := CalculateDiSectorChecksum(buf);
      if sum != checksum {
        return false;
      }
      ok := image.WriteSector(sector, buf);
    }
  }

  predicate BlankFrom(c: Config, d: Sectors, i: nat) {
    |d| == c.numberOfSectors && forall k :: i <= k < |d| ==> d[k] == Zeros(c.SectorLength(k + 1))
  }

  /** Reading has come to sector `i + 1`: what follows decides about success, and completes the sectors. */
  predicate ReadUpTo(all: Option<Sectors>, c: Config, sums: seq<byte>, s: seq<byte>, d: Sectors, i: nat) {
    i <= |sums| == c.numberOfSectors && BlankFrom(c, d, i) && all == Prepend(d[..i], ReadSectors(c, sums, s, i))
  }

  lemma {:induction false} StepSectors(all: Option<Sectors>, c: Config, sums: seq<byte>, s: seq<byte>, d: Sectors, i: nat, d2: Sectors, s2: seq<byte>)
    requires ReadUpTo(all, c, sums, s, d, i) && i < |sums|
    requires var len := c.SectorLength(i + 1);
      if sums[i] == 0 then d2 == d && s2 == s
      else |s| >= len && Checksum(s[..len]) == sums[i] && d2 == d[i := s[..len]] && s2 == s[len..]
    ensures ReadUpTo(all, c, sums, s2, d2, i + 1)
  {
    assert d2[..i + 1] == d[..i] + [d2[i]];
    if sums[i] == 0 {
      EmptySectorStep(c, sums, s, i, d[..i]);
    } else {
      StoredSectorStep(c, sums, s, i, d[..i]);
    }
  }

  /** Sector by sector: the sectors that are not stored stay zero. */
  method ReadStoredSectors(image: MemoryImage, fileio: File, sums: seq<byte>) returns (ok: bool)
    requires image.Valid() && !image.writeProtected && BlankFrom(image.config, image.Contents(), 0)
    requires fileio.Valid() && |sums| == image.config.numberOfSectors
    modifies fileio`pos, image.fData, image`sectors
    ensures fileio.Valid() && image.Valid()
    ensures ReadSectors(image.config, sums, old(fileio.Rest()), 0) == if ok then Some(image.Contents()) else None
  {
    ghost var all := ReadSectors(image.config, sums, fileio.Rest(), 0);
    var sector := 0;
    assert all.Some? ==> [] + all.value == all.value;
    while sector < image.config.numberOfSectors
      invariant fileio.Valid() && image.Valid()
      invariant ReadUpTo(all, image.config, sums, fileio.Rest(), image.Contents(), sector)
    {
      ghost var d, s := image.Contents(), fileio.Rest();
      ok := ReadStoredSector(image, fileio, sector + 1, sums[sector]);
      if !ok {
        return;
      }
      StepSectors(all, image.config, sums, s, d, sector, image.Contents(), fileio.Rest());
      sector := sector + 1;
    }
    assert image.Contents()[..sector] + [] == image.Contents();
    ok := true;
  }

  /** `ReadImageFromDiFile`: succeeds exactly if the file can be read, with the layout and the data found in it. */
  method ReadImageFromDiFile(image: MemoryImage, fileio: File) returns (ok: bool)
    modifies fileio`pos, image
    ensures ReadDi(fileio.data) == if ok then Some(Disk(image.config, image.Contents())) else None
    ensures ok ==> image.Valid() && fresh(image.fData)
  {
    fileio.OpenRead();
    ok := ReadFileHeader(fileio);
    if ok {
      ok := ReadFileRest(image, fileio);
    }
  }

  /** The layouts that are refused. */
  predicate Refused(length: nat, totalSectors: nat) {
    totalSectors == 0 || totalSectors > 65535 || (length != 128 && length != 256) || (length == 256 && totalSectors == 2)
  }

  lemma {:induction false} SmallConfig(length: nat, sectors: nat, tracks: nat, sides: nat)
    requires IsSectorLength(length) && sectors < 0x1_0000 && tracks < 0x100 && sides <= 0x100
    ensures var n, c := sectors * tracks * sides, ConfigOfLayout(length, sectors, tracks, sides);
      n < 0x1_0000_0000 && (c.Some? <==> 0 < n < 65536) && (c.Some? ==> c.value.numberOfSectors == n && c.value.sectorLength == length)
  {
    SmallLayout(sectors, tracks, sides);
  }

  /** The layout that is gone on with, if any. */
  function Accepted(length: nat, c: Option<Config>): Option<Config> {
    if length != 128 && length != 256 then None
    else if c.Some? && c.value.sectorLength == 256 && c.value.numberOfSectors == 2 then None
    else c
  }

  /** What the fields of the layout decide. */
  lemma {:induction false} RestByFields(s: seq<byte>, c: Option<Config>, sectors: nat, tracks: byte, sides: byte, length: nat)
    requires |s| >= 9 && tracks == s[1] && sectors == BigEndianValue(s[2..]) && sides == (s[4] as nat + 1) % 256
    requires length == BigEndianValue(s[6..])
    requires IsSectorLength(length) ==> c == ConfigOfLayout(length, sectors, tracks, sides)
    ensures ReadRest(s) == match Accepted(length, c) case None => None case Some(config) => ReadBody(config, s[9..])
  {
    LayoutByFields(s, sectors, tracks, sides, length);
    RestOfLayout(s, if length == 128 || length == 256 then c else None);
  }

  lemma {:induction false} LayoutByFields(s: seq<byte>, sectors: nat, tracks: byte, sides: byte, length: nat)
    requires |s| >= 9 && tracks == s[1] && sectors == BigEndianValue(s[2..]) && sides == (s[4] as nat + 1) % 256
    requires length == BigEndianValue(s[6..])
    ensures ReadLayout(s) == if length == 128 || length == 256 then ConfigOfLayout(length, sectors, tracks, sides) else None
  {
  }

  lemma {:induction false} RestOfLayout(s: seq<byte>, c: Option<Config>)
    requires |s| >= 9 && ReadLayout(s) == c
    ensures ReadRest(s) ==
      if c.None? || (c.value.sectorLength == 256 && c.value.numberOfSectors == 2) then None else ReadBody(c.value, s[9..])
  {
  }

  lemma {:induction false} AcceptedWhen(length: nat, n: nat, c: Option<Config>)
    requires IsSectorLength(length) ==> (c.Some? <==> 0 < n < 65536)
    requires IsSectorLength(length) && c.Some? ==> c.value.numberOfSectors == n && c.value.sectorLength == length
    ensures Accepted(length, c).Some? <==> !Refused(length, n)
  {
  }

  /** The checks of the reader decide whether the layout is accepted. */
  method CheckLayout(length: nat, sectors: nat, tracks: byte, sides: byte, ghost c: Option<Config>) returns (ok: bool)
    requires sectors < 0x1_0000
    requires IsSectorLength(length) ==> c == ConfigOfLayout(length, sectors, tracks, sides)
    ensures ok == Accepted(length, c).Some?
  {
    var totalSectors := sectors * tracks * sides;
    if IsSectorLength(length) {
      SmallConfig(length, sectors, tracks, sides);
    }
    AcceptedWhen(length, totalSectors, c);
    ok := CheckTotal(length, totalSectors);
  }

  method CheckTotal(length: nat, totalSectors: nat) returns (ok: bool)
    ensures ok <==> !Refused(length, totalSectors)
  {
    if totalSectors == 0 || totalSectors > 65535 {
      return false;
    }
    if length != 128 && length != 256 {
      return false;
    }
    ok := !(length == 256 && totalSectors == 2);
  }

  /** Reads and checks the layout. */
  method ReadFileLayout(fileio: File) returns (ok: bool, sectors: nat, tracks: byte, sides: byte, length: nat, ghost c: Option<Config>)
    requires fileio.Valid()
    modifies fileio`pos
    ensures fileio.Valid()
    ensures ok ==> IsSectorLength(length) && sectors < 0x1_0000 && c == ConfigOfLayout(length, sectors, tracks, sides) == Accepted(length, c)
    ensures ok ==> c.Some? && ReadRest(old(fileio.Rest())) == ReadBody(c.value, fileio.Rest())
    ensures !ok ==> ReadRest(old(fileio.Rest())) == None
  {
    ghost var s := fileio.Rest();
    ok, sectors, tracks, sides, length := ReadLayoutFields(fileio);
    c := None;
    if ok {
      c := if IsSectorLength(length) then ConfigOfLayout(length, sectors, tracks, sides) else None;
      RestByFields(s, c, sectors, tracks, sides, length);
      ok := CheckLayout(length, sectors, tracks, sides, c);
    }
  }

  lemma {:induction false} AcceptedFits(length: nat, sectors: nat, tracks: byte, sides: byte, c: Option<Config>)
    requires IsSectorLength(length) && sectors < 0x1_0000
    requires c == ConfigOfLayout(length, sectors, tracks, sides) == Accepted(length, c) && c.Some?
    ensures c.value.Legal() && c.value.Fits()
  {
    SmallLayoutLegal(length, sectors, tracks, sides);
    FitsIff(c.value);
  }

  /** The checksums and the sectors of a new image of the given layout. */
  method ReadFileBody(image: MemoryImage, fileio: File, length: nat, sectors: nat, tracks: byte, sides: byte, ghost c: Config) returns (ok: bool)
    requires fileio.Valid() && IsSectorLength(length)
    requires ConfigOfLayout(length, sectors, tracks, sides) == Some(c) && c.Legal() && c.Fits()
    modifies fileio`pos, image
    ensures ReadBody(c, old(fileio.Rest())) == if ok then Some(Disk(image.config, image.Contents())) else None
    ensures ok ==> image.Valid() && fresh(image.fData)
  {
    ok := image.CreateImageOfLayout(length, sectors, tracks, sides);
    var sums := fileio.ReadBlock(image.config.numberOfSectors);
    if |sums| != image.config.numberOfSectors {
      return false;
    }
    ok := ReadStoredSectors(image, fileio, sums);
  }

  method ReadFileRest(image: MemoryImage, fileio: File) returns (ok: bool)
    requires fileio.Valid()
    modifies fileio`pos, image
    ensures ReadRest(old(fileio.Rest())) == if ok then Some(Disk(image.config, image.Contents())) else None
    ensures ok ==> image.Valid() && fresh(image.fData)
  {
    var sectors, tracks, sides, length;
    ghost var c;
    ok, sectors, tracks, sides, length, c := ReadFileLayout(fileio);
    if ok {
      AcceptedFits(length, sectors, tracks, sides, c);
      ok := ReadFileBody(image, fileio, length, sectors, tracks, sides, c.value);
    }
  }

  /** Saving an image and loading it again gives it back, when its layout fits into the header. */
  method WriteThenRead(image: MemoryImage, fileio: File, image2: MemoryImage) returns (ok: bool)
    requires image.Valid() && image.config.sectorLength in {128, 256} && image2 != image
    requires image.config.tracksPerSide <= 255 && image.config.sides <= 255
    modifies fileio, image2
    ensures ok && image2.Valid()
    ensures image2.config == image.config && image2.Contents() == image.Contents()
  {
    ok := WriteImageToDiFile(image, fileio);
    RoundTripIff(image.config, image.Contents());
    ok := ReadImageFromDiFile(image2, fileio);
  }
}
