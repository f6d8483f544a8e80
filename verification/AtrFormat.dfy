/** The ATR file format: a header of 16 bytes that tells size and density, and the data. */
module AtrFormat {
  import opened Bytes
  import opened AtrImage
  import opened FileIO

  const HEADER_SIZE := 16
  const WRITE_PROTECTED: byte := 0x20

  /** Data of double density files of SIO2PC, which have full size boot sectors. */
  const SIO2PC_SIZE := 256 * 720

  // ------------------------------------------------------------------
  // The header
  // ------------------------------------------------------------------

  /** `CreateATRHeaderFromFormat`: the size is counted in units of 16 bytes. */
  function Header(c: Config, protect: bool): (h: seq<byte>)
    ensures |h| == HEADER_SIZE
  {
    HeaderOf(c.ImageSize() / 16, c.sectorLength, protect)
  }

  function HeaderOf(p: nat, length: nat, protect: bool): (h: seq<byte>)
    ensures |h| == HEADER_SIZE
  {
    [0x96, 0x02] + Word(p % 0x1_0000) + Word(length) + Word(p / 0x1_0000) + [if protect then WRITE_PROTECTED else 0] + Zeros(7)
  }

  /** The size as a signed 32-bit number, widened to 64 bits without sign. */
  function SizeOf(h: seq<byte>): (size: nat)
    requires |h| >= HEADER_SIZE
  {
    var low := (WordValue(h[2..]) + 0x1_0000 * WordValue(h[6..])) * 16 % 0x1_0000_0000;
    if low < 0x8000_0000 then low else 0xffff_ffff_0000_0000 + low
  }

  /** How many sectors make up that size; the count is kept in 32 bits. */
  function CountOf(length: nat, size: nat): (n: Option<nat>)
    requires length > 0
  {
    if length == 256 then
      if size <= 384 then None
      else if size == SIO2PC_SIZE then Some(720)
      else
        var all := (size + 384) % 0x1_0000_0000_0000_0000;
        if all % 256 != 0 then None else Some(all / 256 % 0x1_0000_0000)
    else if size % length != 0 then None
    else Some(size / length % 0x1_0000_0000)
  }

  datatype Format = Format(config: Config, protect: bool)

  /** `SetFormatFromATRHeader`. */
  function ReadHeader(h: seq<byte>): (f: Option<Format>)
    requires |h| >= HEADER_SIZE
    ensures f.Some? ==> f.value.config.Legal()
  {
    var length := WordValue(h[4..]);
    if h[0] != 0x96 || h[1] != 0x02 || !IsSectorLength(length) then None
    else
      match CountOf(length, SizeOf(h))
      case None => None
      case Some(n) =>
        match ConfigOfCount(length, n)
        case None => None
        case Some(c) => Some(Format(c, h[8] as nat / 32 % 2 == 1))
  }

  /** No header stands for two sectors of double density, which would not fit into their image. */
  lemma {:induction false} NeverTwo(h: seq<byte>)
    requires |h| >= HEADER_SIZE && ReadHeader(h).Some?
    ensures var c := ReadHeader(h).value.config; !(c.sectorLength == 256 && c.numberOfSectors == 2)
  {
    SizeBounds(h);
    CountNotTwo(SizeOf(h));
  }

  lemma {:induction false} SizeBounds(h: seq<byte>)
    requires |h| >= HEADER_SIZE
    ensures SizeOf(h) < 0x8000_0000 || 0xffff_ffff_8000_0000 <= SizeOf(h) < 0x1_0000_0000_0000_0000
  {
  }

  lemma {:induction false} CountNotTwo(size: nat)
    requires size < 0x8000_0000 || 0xffff_ffff_8000_0000 <= size < 0x1_0000_0000_0000_0000
    ensures CountOf(256, size) != Some(2)
  {
  }

  /** The layout is the one that is guessed from the number of sectors. */
  predicate Guessed(c: Config)
    requires IsSectorLength(c.sectorLength)
  {
    (c.sectorsPerTrack, c.tracksPerSide, c.sides) == GuessLayout(c.sectorLength, c.numberOfSectors)
  }

  lemma {:induction false} HeaderParts(c: Config, protect: bool)
    ensures var h, p := Header(c, protect), c.ImageSize() / 16;
      && h[0] == 0x96 && h[1] == 0x02 && h[2..] == Word(p % 0x1_0000) + h[4..]
      && h[4..] == Word(c.sectorLength) + h[6..] && h[6..] == Word(p / 0x1_0000) + h[8..]
      && h[8] as nat / 32 % 2 == if protect then 1 else 0
  {
  }

  /** The header gives the size back, up to the widening of its sign. */
  lemma {:induction false} SizeReadsBack(c: Config, protect: bool)
    requires c.Legal()
    ensures WordValue(Header(c, protect)[4..]) == c.sectorLength
    ensures var s := c.ImageSize(); SizeOf(Header(c, protect)) == if s < 0x8000_0000 then s else 0xffff_ffff_0000_0000 + s
  {
    var h, s := Header(c, protect), c.ImageSize();
    HeaderParts(c, protect);
    SizeInParagraphs(c);
    WordRoundTrip(s / 16 % 0x1_0000, h[4..]);
    WordRoundTrip(c.sectorLength, h[6..]);
    WordRoundTrip(s / 16 / 0x1_0000, h[8..]);
    assert s / 16 % 0x1_0000 + 0x1_0000 * (s / 16 / 0x1_0000) == s / 16;
  }

  lemma {:induction false} SizeInParagraphs(c: Config)
    requires c.Legal()
    ensures c.ImageSize() < 0x1_0000_0000 && c.ImageSize() / 16 * 16 == c.ImageSize()
  {
    if c.sectorLength == 256 {
    } else {
      SizeOfSectors(c.sectorLength, c.numberOfSectors);
    }
  }

  lemma {:induction false} SizeOfSectors(length: nat, n: nat)
    requires IsSectorLength(length) && n < 65536
    ensures n * length < 0x8000_0000 && n * length / 16 * 16 == n * length
    ensures n * length % length == 0 && n * length / length == n
  {
    QuotientOfProduct(n, length);
    QuotientOfProduct(n * (length / 16), 16);
    assert length == length / 16 * 16;
    Regroup(n, length / 16);
    assert n * length <= n * 8192 by {
      ProductGrows(n, length, 8192);
    }
  }

  lemma {:induction false} QuotientOfProduct(n: nat, k: nat)
    requires k > 0
    ensures n * k % k == 0 && n * k / k == n
  {
    var q, r := n * k / k, n * k % k;
    assert n * k == q * k + r;
    if q < n {
      ProductGrows(k, q + 1, n);
    }
  }

  lemma {:induction false} ProductGrows(k: nat, a: nat, b: nat)
    requires a <= b
    ensures k * a <= k * b
  {
  }

  lemma {:induction false} Regroup(n: nat, q: nat)
    ensures n * (q * 16) == n * q * 16
  {
  }

  /** The number of sectors comes back, but for two and three sectors of double density. */
  lemma {:induction false} CountReadsBack(c: Config, protect: bool)
    requires c.Legal()
    ensures CountOf(c.sectorLength, SizeOf(Header(c, protect)))
      == if c.sectorLength == 256 && c.numberOfSectors in {2, 3} then None else Some(c.numberOfSectors)
  {
    SizeReadsBack(c, protect);
    if c.sectorLength == 256 {
      DoubleDensityCount(c.numberOfSectors);
    } else {
      OtherCount(c.sectorLength, c.numberOfSectors);
      assert c.ImageSize() == c.numberOfSectors * c.sectorLength;
    }
  }

  lemma {:induction false} OtherCount(length: nat, n: nat)
    requires IsSectorLength(length) && length != 256 && n < 65536
    ensures n * length < 0x8000_0000 && CountOf(length, n * length) == Some(n)
  {
    SizeOfSectors(length, n);
  }

  lemma {:induction false} DoubleDensityCount(n: nat)
    requires 0 < n < 65536
    ensures var s := (n * 256 - 384) % 0x1_0000_0000;
      CountOf(256, if s < 0x8000_0000 then s else 0xffff_ffff_0000_0000 + s) == if n in {2, 3} then None else Some(n)
  {
    var s := (n * 256 - 384) % 0x1_0000_0000;
    if n == 1 {
      assert s == 0xffff_ff80;
    } else {
      assert s == n * 256 - 384;
      assert s != SIO2PC_SIZE;
    }
  }

  /**
   A header gives the format back exactly if the layout is the one guessed from
   the number of sectors, and the image has not two or three sectors of double
   density, which are too few for the reader.
   */
  lemma {:induction false} HeaderRoundTripIff(c: Config, protect: bool)
    requires c.Legal()
    ensures ReadHeader(Header(c, protect)) == Some(Format(c, protect))
      <==> Guessed(c) && !(c.sectorLength == 256 && c.numberOfSectors in {2, 3})
  {
    HeaderParts(c, protect);
    SizeReadsBack(c, protect);
    CountReadsBack(c, protect);
  }

  /** The four standard disks, with the size of each in units of 16 bytes. */
  function StandardHeader(format: DiskFormat, flags: byte): seq<byte>
  {
    match format
    case Disk90k => [0x96, 0x02, 0x80, 0x16, 0x80, 0x00, 0, 0, flags, 0, 0, 0, 0, 0, 0, 0]
    case Disk130k => [0x96, 0x02, 0x80, 0x20, 0x80, 0x00, 0, 0, flags, 0, 0, 0, 0, 0, 0, 0]
    case Disk180k => [0x96, 0x02, 0xe8, 0x2c, 0x00, 0x01, 0, 0, flags, 0, 0, 0, 0, 0, 0, 0]
    case Disk360k => [0x96, 0x02, 0xe8, 0x59, 0x00, 0x01, 0, 0, flags, 0, 0, 0, 0, 0, 0, 0]
    case _ => []
  }

  /** Their headers, byte for byte; each is read as the standard disk again. */
  lemma {:induction false} StandardHeaders(format: DiskFormat, protect: bool)
    requires !format.NoDisk? && !format.UserDefDisk?
    ensures var c := StandardConfig(format);
      && Header(c, protect) == StandardHeader(format, if protect then 0x20 else 0)
      && ReadHeader(Header(c, protect)) == Some(Format(c, protect))
  {
    StandardHeaderReads(format, protect);
    StandardHeaderBytes(format, protect);
  }

  lemma {:induction false} StandardHeaderReads(format: DiskFormat, protect: bool)
    requires !format.NoDisk? && !format.UserDefDisk?
    ensures var c := StandardConfig(format); ReadHeader(Header(c, protect)) == Some(Format(c, protect))
  {
    StandardConfigLegal(format);
    StandardCounts(format);
    HeaderRoundTripIff(StandardConfig(format), protect);
  }

  lemma {:induction false} StandardHeaderBytes(format: DiskFormat, protect: bool)
    requires !format.NoDisk? && !format.UserDefDisk?
    ensures Header(StandardConfig(format), protect) == StandardHeader(format, if protect then 0x20 else 0)
  {
    if format.Disk90k? || format.Disk130k? {
      SingleDensityHeader(format, protect);
    } else {
      DoubleDensityHeader(format, protect);
    }
  }

  lemma {:induction false} SingleDensityHeader(format: DiskFormat, protect: bool)
    requires format.Disk90k? || format.Disk130k?
    ensures Header(StandardConfig(format), protect) == StandardHeader(format, if protect then 0x20 else 0)
  {
    HeaderLiteral(StandardConfig(format), protect, if format.Disk90k? then 5760 else 8320);
  }

  lemma {:induction false} DoubleDensityHeader(format: DiskFormat, protect: bool)
    requires format.Disk180k? || format.Disk360k?
    ensures Header(StandardConfig(format), protect) == StandardHeader(format, if protect then 0x20 else 0)
  {
    HeaderLiteral(StandardConfig(format), protect, if format.Disk180k? then 11496 else 23016);
  }

  /** An image of less than a megabyte. */
  lemma {:induction false} HeaderLiteral(c: Config, protect: bool, p: nat)
    requires c.ImageSize() == 16 * p && p < 0x1_0000 && c.sectorLength < 0x1_0000
    ensures Header(c, protect)
      == [0x96, 0x02, p % 256, p / 256, c.sectorLength % 256, c.sectorLength / 256, 0, 0, if protect then 0x20 else 0]
         + [0, 0, 0, 0, 0, 0, 0]
  {
    assert Zeros(7) == [0, 0, 0, 0, 0, 0, 0];
    SmallWord(p);
    SmallWord(c.sectorLength);
  }

  lemma {:induction false} SmallWord(n: nat)
    requires n < 0x1_0000
    ensures n % 0x1_0000 == n && n / 0x1_0000 == 0 && Word(n) == [n % 256, n / 256] && Word(0) == [0, 0]
  {
  }

  /** A double density disk saved with three full boot sectors is read as the standard disk. */
  lemma {:induction false} Sio2pcHeader(rest: seq<byte>)
    requires |rest| == 7
    ensures ReadHeader([0x96, 0x02, 0x00, 0x2d, 0x00, 0x01, 0, 0, 0] + rest) == Some(Format(StandardConfig(Disk180k), false))
  {
    var h := [0x96, 0x02, 0x00, 0x2d, 0x00, 0x01, 0, 0, 0] + rest;
    assert WordValue(h[2..]) == 0x2d00 && WordValue(h[6..]) == 0 && WordValue(h[4..]) == 256;
    StandardCounts(Disk180k);
  }

  // ------------------------------------------------------------------
  // Files
  // ------------------------------------------------------------------

  function WriteAtr(c: Config, protect: bool, data: seq<byte>): seq<byte> {
    Header(c, protect) + data
  }

  datatype AtrDisk = AtrDisk(format: Format, data: seq<byte>)

  /** A file that is too short is filled up with zeros. */
  function Fitted(s: seq<byte>, size: nat): (data: seq<byte>)
    ensures |data| == size
  {
    if |s| >= size then s[..size] else s + Zeros(size - |s|)
  }

  /** `ReadImageFromAtrFile`. */
  function ReadAtr(s: seq<byte>): Option<AtrDisk> {
    if |s| < HEADER_SIZE then None
    else
      match ReadHeader(s[..HEADER_SIZE])
      case None => None
      case Some(f) => Some(AtrDisk(f, Fitted(s[HEADER_SIZE..], f.config.ImageSize())))
  }

  /** An ATR file restores the image exactly if its header restores the format. */
  lemma {:induction false} RoundTripIff(c: Config, protect: bool, data: seq<byte>)
    requires c.Legal() && c.Fits() && |data| == c.ImageSize()
    ensures ReadAtr(WriteAtr(c, protect, data)) == Some(AtrDisk(Format(c, protect), data))
      <==> Guessed(c) && !(c.sectorLength == 256 && c.numberOfSectors == 3)
  {
    FitsIff(c);
    HeaderRoundTripIff(c, protect);
    Seam(Header(c, protect), data);
    assert Fitted(data, c.ImageSize()) == data;
  }

  // ------------------------------------------------------------------
  // The methods of AtrImage and AtrMemoryImage
  // ------------------------------------------------------------------

  method CreateATRHeaderFromFormat(c: Config, protect: bool, hdr: array<byte>) returns (ok: bool)
    requires hdr.Length == HEADER_SIZE && (c.numberOfSectors > 0 ==> IsSectorLength(c.sectorLength))
    modifies hdr
    ensures ok <==> c.numberOfSectors != 0
    ensures ok ==> hdr[..] == Header(c, protect)
  {
    forall i | 0 <= i < HEADER_SIZE {
      hdr[i] := 0;
    }
    if c.numberOfSectors == 0 {
      return false;
    }
    var parSize := c.ImageSize() / 16;
    hdr[0], hdr[1], hdr[2], hdr[3] := 0x96, 0x02, parSize % 256, parSize / 256 % 256;
    hdr[6], hdr[7] := parSize / 0x1_0000 % 256, parSize / 0x100_0000 % 256;
    if protect {
      hdr[8] := WRITE_PROTECTED;
    }
    hdr[4], hdr[5] := if c.sectorLength == 128 then 0x80 else 0, c.sectorLength / 256;
    HeaderBytes(parSize, c.sectorLength, protect, hdr[..]);
    ok := true;
  }

  lemma {:induction false} HeaderBytes(p: nat, length: nat, protect: bool, h: seq<byte>)
    requires IsSectorLength(length) && |h| == HEADER_SIZE
    requires h[0] == 0x96 && h[1] == 0x02 && h[2] == p % 256 && h[3] == p / 256 % 256
    requires h[4] == (if length == 128 then 0x80 else 0) && h[5] == length / 256
    requires h[6] == p / 0x1_0000 % 256 && h[7] == p / 0x100_0000 % 256
    requires h[8] == if protect then WRITE_PROTECTED else 0
    requires forall i :: 9 <= i < HEADER_SIZE ==> h[i] == 0
    ensures h == HeaderOf(p, length, protect)
  {
    ParagraphBytes(p);
    assert [h[2], h[3]] == Word(p % 0x1_0000) && [h[6], h[7]] == Word(p / 0x1_0000);
    assert [h[4], h[5]] == Word(length);
    assert h[9..] == Zeros(7);
    assert h == [h[0], h[1]] + [h[2], h[3]] + [h[4], h[5]] + [h[6], h[7]] + [h[8]] + h[9..];
  }

  lemma {:induction false} ParagraphBytes(p: nat)
    ensures p % 0x1_0000 % 256 == p % 256 && p % 0x1_0000 / 256 % 256 == p / 256 % 256
    ensures p / 0x1_0000 / 256 % 256 == p / 0x100_0000 % 256
  {
    var a, b, q := p % 256, p / 256 % 256, p / 256 / 256;
    Over64K(a + 256 * b, q);
    Over256(a, b);
    Over256(b, 0);
    Over16M(a + 256 * b + 0x1_0000 * (q % 256), q / 256);
    assert p == a + 256 * b + 0x1_0000 * q;
  }

  method WriteImageToAtrFile(image: MemoryImage, fileio: File) returns (ok: bool)
    requires image.Valid()
    modifies fileio
    ensures ok && fileio.data == WriteAtr(image.config, image.writeProtected, image.fData[..])
  {
    var hdr := new byte[HEADER_SIZE](_ => 0);
    ok := CreateATRHeaderFromFormat(image.config, image.writeProtected, hdr);
    fileio.OpenWrite();
    fileio.WriteBlock(hdr[..]);
    fileio.WriteBlock(image.fData[..]);
    assert ([] + hdr[..]) + image.fData[..] == hdr[..] + image.fData[..];
  }

  method SetFormatFromATRHeader(hdr: seq<byte>) returns (ok: bool, config: Config, protect: bool)
    requires |hdr| == HEADER_SIZE
    ensures ReadHeader(hdr) == if ok then Some(Format(config, protect)) else None
  {
    ok, config, protect := false, EMPTY_CONFIG, false;
    if hdr[0] != 0x96 || hdr[1] != 0x02 {
      return;
    }
    var sectSize := WordValue(hdr[4..]);
    if !IsSectorLength(sectSize) {
      return;
    }
    var numberOfSectors := CountOf(sectSize, SizeOf(hdr));
    if numberOfSectors.None? {
      return;
    }
    var c := ConfigOfCount(sectSize, numberOfSectors.value);
    if c.Some? {
      var flags: nat := hdr[8];
      ok, config, protect := true, c.value, flags / 32 % 2 == 1;
    }
  }

  method ReadImageFromAtrFile(image: MemoryImage, fileio: File) returns (ok: bool)
    modifies fileio`pos, image
    ensures ok ==> image.Valid() && fresh(image.fData)
    ensures ReadAtr(fileio.data)
      == if ok then Some(AtrDisk(Format(image.config, image.writeProtected), image.fData[..])) else None
  {
    fileio.OpenRead();
    var hdr := fileio.ReadBlock(HEADER_SIZE);
    if |hdr| != HEADER_SIZE {
      return false;
    }
    var config, protect;
    ok, config, protect := SetFormatFromATRHeader(hdr);
    if !ok {
      return;
    }
    NeverTwo(hdr);
    ReadAtrData(image, fileio, config, protect);
  }

  /** The data, as far as the file goes. */
  method ReadAtrData(image: MemoryImage, fileio: File, config: Config, protect: bool)
    requires fileio.Valid() && config.Legal() && !(config.sectorLength == 256 && config.numberOfSectors == 2)
    modifies fileio`pos, image
    ensures image.Valid() && fresh(image.fData) && image.config == config && image.writeProtected == protect
    ensures image.fData[..] == Fitted(old(fileio.Rest()), config.ImageSize())
  {
    FitsIff(config);
    image.AllocateBlank(config);
    image.writeProtected := protect;
    var block := fileio.ReadBlock(config.ImageSize());
    ZeroSlice(image.fData[..], |block|, image.fData.Length);
    image.Fill(block);
  }

  /** Saving an image as ATR and loading it again. */
  method WriteThenRead(image: MemoryImage, fileio: File, image2: MemoryImage) returns (ok: bool)
    requires image.Valid() && image2 != image && Guessed(image.config)
    requires !(image.config.sectorLength == 256 && image.config.numberOfSectors == 3)
    modifies fileio, image2
    ensures ok && image2.Valid() && image2.config == image.config
    ensures image2.writeProtected == image.writeProtected && image2.Contents() == image.Contents()
  {
    ok := WriteImageToAtrFile(image, fileio);
    RoundTripIff(image.config, image.writeProtected, image.fData[..]);
    ok := ReadImageFromAtrFile(image2, fileio);
    image.ContentsAreSlices();
    image2.ContentsAreSlices();
  }
}
