/**
 Disk geometry (`AtrImageConfig`, `AtrImage`) and the image held in memory
 (`AtrMemoryImage`): where a sector lies, and that reading and writing sectors
 touches nothing else.
 */
module AtrImage {
  import opened Bytes

  datatype DiskFormat = NoDisk | Disk90k | Disk130k | Disk180k | Disk360k | UserDefDisk

  type Sectors = seq<seq<byte>>

  predicate IsSectorLength(n: nat) {
    n in {128, 256, 512, 1024, 2048, 4096, 8192}
  }

  /** `AtrImageConfig`: the layout of an image. */
  datatype Config = Config(
    format: DiskFormat,
    sectorLength: nat,
    sectorsPerTrack: nat,
    tracksPerSide: nat,
    sides: nat,
    numberOfSectors: nat)
  {
    /** `AtrImageConfig::GetSectorLength(sector)`; 0 for a sector that does not exist. */
    function SectorLength(sector: nat): nat {
      if sector == 0 || sector > numberOfSectors then 0
      else if sectorLength == 256 && sector <= 3 then 128
      else sectorLength
    }

    /** `AtrImage::CalculateOffset`; -1 for a sector that does not exist. */
    function CalculateOffset(sector: nat): int {
      if sector == 0 || sector > numberOfSectors then -1
      else Start(sector)
    }

    function Start(sector: nat): nat
      requires sector > 0
    {
      if sectorLength == 256 then
        if sector <= 3 then (sector - 1) * 128 else 384 + (sector - 4) * 256
      else sectorLength * (sector - 1)
    }

    /** `AtrImageConfig::CalculateImageSize`; the subtraction is on a 32-bit unsigned number. */
    function ImageSize(): nat {
      if sectorLength == 256 then (numberOfSectors * 256 - 384) % 0x1_0000_0000
      else numberOfSectors * SectorLength(1)
    }

    /** The layouts a `SetFormat` can produce. */
    predicate Legal() {
      && IsSectorLength(sectorLength)
      && 0 < numberOfSectors < 65536
      && numberOfSectors == sectorsPerTrack * tracksPerSide * sides
      && format == FormatOfLayout(sectorLength, sectorsPerTrack, tracksPerSide, sides)
    }

    /** Every sector lies inside the image. */
    predicate Fits() {
      forall s :: 1 <= s <= numberOfSectors ==> Start(s) + SectorLength(s) <= ImageSize()
    }

    /** Sectors follow each other without gap or overlap up to the end of the image. */
    predicate Tiles() {
      && (forall s :: 1 <= s < numberOfSectors ==> Start(s) + SectorLength(s) == Start(s + 1))
      && Start(numberOfSectors + 1) == ImageSize()
    }
  }

  const EMPTY_CONFIG := Config(NoDisk, 128, 0, 0, 0, 0)

  /** `AtrImageConfig::DetermineDiskFormatFromLayout`. */
  function FormatOfLayout(length: nat, sectors: nat, tracks: nat, sides: nat): DiskFormat {
    if length == 128 then
      if sectors == 18 && tracks == 40 && sides == 1 then Disk90k
      else if sectors == 26 && tracks == 40 && sides == 1 then Disk130k
      else UserDefDisk
    else
      if sectors == 18 && tracks == 40 && sides == 1 then Disk180k
      else if sectors == 18 && tracks == 40 && sides == 2 then Disk360k
      else UserDefDisk
  }

  /** `SetFormat(EDiskFormat)` for the four standard formats. */
  function StandardConfig(format: DiskFormat): Config {
    match format
    case Disk90k => Config(format, 128, 18, 40, 1, 720)
    case Disk130k => Config(format, 128, 26, 40, 1, 1040)
    case Disk180k => Config(format, 256, 18, 40, 1, 720)
    case Disk360k => Config(format, 256, 18, 40, 2, 1440)
    case _ => EMPTY_CONFIG
  }

  lemma {:induction false} StandardConfigLegal(format: DiskFormat)
    requires !format.NoDisk? && !format.UserDefDisk?
    ensures var c := StandardConfig(format);
      c.Legal() && c.Tiles() && c.Fits() && format == FormatOfLayout(c.sectorLength, c.sectorsPerTrack, c.tracksPerSide, c.sides)
  {
    TilesIff(StandardConfig(format));
    FitsIff(StandardConfig(format));
  }

  /** `SetFormat(density, numberOfSectors)`: the layout is guessed from the sector count. */
  function ConfigOfCount(length: nat, n: nat): (c: Option<Config>)
    requires IsSectorLength(length)
    ensures c.Some? <==> 0 < n < 65536
    ensures c.Some? ==> c.value.Legal() && c.value.sectorLength == length && c.value.numberOfSectors == n
  {
    if n == 0 || n >= 65536 then None
    else
      var (sectors, tracks, sides) := GuessLayout(length, n);
      Some(Config(FormatOfLayout(length, sectors, tracks, sides), length, sectors, tracks, sides, n))
  }

  function GuessLayout(length: nat, n: nat): (l: (nat, nat, nat))
    ensures l.0 * l.1 * l.2 == n
  {
    if length <= 256 then
      if n == 720 then (18, 40, 1)
      else if n == 1040 then (26, 40, 1)
      else if n == 1440 then (18, 40, 2)
      else if n == 2880 then (18, 80, 2)
      else if n == 5760 then (36, 80, 2)
      else (n, 1, 1)
    else if length == 512 then
      if n == 720 then (9, 80, 1)
      else if n == 1440 then (9, 80, 2)
      else if n == 2880 then (18, 80, 2)
      else (n, 1, 1)
    else (n, 1, 1)
  }

  /** Each standard format is what its own number of sectors is taken for. */
  lemma {:induction false} StandardCounts(format: DiskFormat)
    requires !format.NoDisk? && !format.UserDefDisk?
    ensures var c := StandardConfig(format); ConfigOfCount(c.sectorLength, c.numberOfSectors) == Some(c)
  {
  }

  /** The layouts of the larger drives, and of MS-DOS disks with 512 bytes per sector. */
  lemma {:induction false} DriveLayouts()
    ensures forall length :: length == 128 || length == 256 ==>
      && ConfigOfCount(length, 2880) == Some(Config(UserDefDisk, length, 18, 80, 2, 2880))
      && ConfigOfCount(length, 5760) == Some(Config(UserDefDisk, length, 36, 80, 2, 5760))
    ensures ConfigOfCount(512, 720) == Some(Config(UserDefDisk, 512, 9, 80, 1, 720))
    ensures ConfigOfCount(512, 1440) == Some(Config(UserDefDisk, 512, 9, 80, 2, 1440))
    ensures ConfigOfCount(512, 2880) == Some(Config(UserDefDisk, 512, 18, 80, 2, 2880))
    ensures ConfigOfCount(128, 1440) == Some(Config(UserDefDisk, 128, 18, 40, 2, 1440))
    ensures ConfigOfCount(256, 1040) == Some(Config(UserDefDisk, 256, 26, 40, 1, 1040))
  {
  }

  /** Any other number of sectors is taken for one track. */
  lemma {:induction false} OneTrack(length: nat, n: nat)
    requires IsSectorLength(length) && 0 < n < 65536
    requires n !in (if length <= 256 then {720, 1040, 1440, 2880, 5760} else if length == 512 then {720, 1440, 2880} else {})
    ensures ConfigOfCount(length, n) == Some(Config(UserDefDisk, length, n, 1, 1, n))
  {
  }

  /**
   `SetFormat(density, sectors, tracks, sides)`.  The product is a 32-bit unsigned
   number, so that a layout with far too many sectors can pass for a small one.
   */
  function ConfigOfLayout(length: nat, sectors: nat, tracks: nat, sides: nat): (c: Option<Config>)
    requires IsSectorLength(length)
    ensures c.Some? <==> 0 < sectors * tracks * sides % 0x1_0000_0000 < 65536
    ensures c.Some? ==> c.value.numberOfSectors == sectors * tracks * sides % 0x1_0000_0000
    ensures c.Some? ==> c.value.sectorLength == length
    ensures c.Some? ==> c.value.sectorsPerTrack == sectors && c.value.tracksPerSide == tracks && c.value.sides == sides
  {
    ConfigOfTotal(length, sectors, tracks, sides, sectors * tracks * sides % 0x1_0000_0000)
  }

  function ConfigOfTotal(length: nat, sectors: nat, tracks: nat, sides: nat, n: nat): (c: Option<Config>)
    ensures c.Some? <==> 0 < n < 65536
  {
    if n == 0 || n >= 65536 then None
    else Some(Config(FormatOfLayout(length, sectors, tracks, sides), length, sectors, tracks, sides, n))
  }

  lemma {:induction false} SmallRemainder(p: nat)
    ensures p % 0x1_0000_0000 == p <==> p < 0x1_0000_0000
  {
  }

  /** A layout that is accepted has as many sectors as it says, unless its product wraps around. */
  lemma {:induction false} LayoutLegalIff(length: nat, sectors: nat, tracks: nat, sides: nat)
    requires IsSectorLength(length) && ConfigOfLayout(length, sectors, tracks, sides).Some?
    ensures ConfigOfLayout(length, sectors, tracks, sides).value.Legal() <==> sectors * tracks * sides < 0x1_0000_0000
  {
    SmallRemainder(sectors * tracks * sides);
  }

  /** What a DI header can say does not wrap around. */
  lemma {:induction false} SmallLayout(sectors: nat, tracks: nat, sides: nat)
    requires sectors < 0x1_0000 && tracks < 0x100 && sides <= 0x100
    ensures sectors * tracks * sides < 0x1_0000_0000
  {
    assert sectors * tracks <= 0xffff * 0xff;
    assert sectors * tracks * sides <= 0xffff * 0xff * 0x100;
  }

  lemma {:induction false} SmallLayoutLegal(length: nat, sectors: nat, tracks: nat, sides: nat)
    requires IsSectorLength(length) && sectors < 0x1_0000 && tracks < 0x100 && sides <= 0x100
    ensures var c := ConfigOfLayout(length, sectors, tracks, sides); c.Some? ==> c.value.Legal()
  {
    SmallLayout(sectors, tracks, sides);
    if ConfigOfLayout(length, sectors, tracks, sides).Some? {
      LayoutLegalIff(length, sectors, tracks, sides);
    }
  }

  lemma {:induction false} StartStep(c: Config, s: nat)
    requires 1 <= s <= c.numberOfSectors
    ensures c.Start(s) + c.SectorLength(s) == c.Start(s + 1)
  {
    if c.sectorLength != 256 {
      calc {
        c.sectorLength * (s - 1) + c.sectorLength;
        c.sectorLength * s;
      }
    }
  }

  /**
   The sectors tile the image exactly when a double density image has at least
   its three short boot sectors: with one or two the size formula is off.
   */
  lemma {:induction false} TilesIff(c: Config)
    requires c.Legal()
    ensures c.Tiles() <==> c.sectorLength != 256 || c.numberOfSectors >= 3
  {
    forall s | 1 <= s < c.numberOfSectors
      ensures c.Start(s) + c.SectorLength(s) == c.Start(s + 1)
    {
      StartStep(c, s);
    }
    LastEndsIff(c);
  }

  lemma {:induction false} LastEndsIff(c: Config)
    requires c.Legal()
    ensures c.Start(c.numberOfSectors + 1) == c.ImageSize() <==> c.sectorLength != 256 || c.numberOfSectors >= 3
  {
  }

  lemma {:induction false} StartMonotone(c: Config, s: nat, t: nat)
    requires 1 <= s < t <= c.numberOfSectors + 1
    ensures c.Start(s) + c.SectorLength(s) <= c.Start(t)
    decreases t
  {
    StartStep(c, t - 1);
    if s + 1 < t {
      StartMonotone(c, s, t - 1);
    }
  }

  lemma {:induction false} SectorFits(c: Config, s: nat)
    requires c.Legal() && c.Fits()
    requires 1 <= s <= c.numberOfSectors
    ensures c.Start(s) + c.SectorLength(s) <= c.ImageSize()
    ensures c.SectorLength(s) > 0
  {
  }

  /**
   The sectors lie inside the image except in double density with two sectors:
   the size of an image with one wraps around to nearly 4 gigabytes, that of an
   image with two is 128 bytes.
   */
  lemma {:induction false} FitsIff(c: Config)
    requires c.Legal()
    ensures c.Fits() <==> !(c.sectorLength == 256 && c.numberOfSectors == 2)
  {
    TilesIff(c);
    if c.sectorLength == 256 && c.numberOfSectors < 3 {
      assert c.Start(c.numberOfSectors) + c.SectorLength(c.numberOfSectors) == c.numberOfSectors * 128;
    } else {
      forall s | 1 <= s <= c.numberOfSectors
        ensures c.Start(s) + c.SectorLength(s) <= c.ImageSize()
      {
        StartMonotone(c, s, c.numberOfSectors + 1);
      }
    }
  }

  /** Every sector has the length the layout says. */
  predicate WellSized(c: Config, img: Sectors) {
    |img| == c.numberOfSectors && forall i :: 0 <= i < |img| ==> |img[i]| == c.SectorLength(i + 1)
  }

  /** The bytes of one sector in a flat image. */
  function SectorAt(c: Config, data: seq<byte>, s: nat): (content: seq<byte>)
    requires c.Legal() && c.Fits() && |data| == c.ImageSize()
    requires 1 <= s <= c.numberOfSectors
    ensures |content| == c.SectorLength(s)
  {
    SectorFits(c, s);
    data[c.Start(s)..c.Start(s) + c.SectorLength(s)]
  }

  /** All sectors of a flat image. */
  function SectorsOf(c: Config, data: seq<byte>): (s: Sectors)
    requires c.Legal() && c.Fits() && |data| == c.ImageSize()
    ensures |s| == c.numberOfSectors
    ensures forall k :: 0 <= k < |s| ==> s[k] == SectorAt(c, data, k + 1)
  {
    seq(c.numberOfSectors, k requires 0 <= k < c.numberOfSectors => SectorAt(c, data, k + 1))
  }

  predicate Overwrites(data: seq<byte>, data2: seq<byte>, start: nat, content: seq<byte>) {
    && |data| == |data2| && start + |content| <= |data|
    && forall i :: 0 <= i < |data| ==> data2[i] == if start <= i < start + |content| then content[i - start] else data[i]
  }

  lemma {:induction false} SliceKept(data: seq<byte>, data2: seq<byte>, start: nat, content: seq<byte>, a: nat, b: nat)
    requires Overwrites(data, data2, start, content)
    requires a <= b <= start || start + |content| <= a <= b <= |data|
    ensures data[a..b] == data2[a..b]
  {
    var x, y := data[a..b], data2[a..b];
    forall k | 0 <= k < b - a
      ensures x[k] == y[k]
    {
      assert x[k] == data[a + k] && y[k] == data2[a + k];
    }
  }

  lemma {:induction false} SlicePut(data: seq<byte>, data2: seq<byte>, start: nat, content: seq<byte>)
    requires Overwrites(data, data2, start, content)
    ensures data2[start..start + |content|] == content
  {
    var x := data2[start..start + |content|];
    forall k | 0 <= k < |content|
      ensures x[k] == content[k]
    {
      assert x[k] == data2[start + k];
    }
  }

  /** Overwriting the bytes of one sector changes that sector and no other. */
  lemma {:induction false} WriteChangesOneSector(c: Config, data: seq<byte>, data2: seq<byte>, sector: nat, content: seq<byte>)
    requires c.Legal() && c.Fits() && |data| == |data2| == c.ImageSize()
    requires 1 <= sector <= c.numberOfSectors && |content| == c.SectorLength(sector)
    requires Overwrites(data, data2, c.Start(sector), content)
    ensures SectorsOf(c, data2) == SectorsOf(c, data)[sector - 1 := content]
  {
    SlicePut(data, data2, c.Start(sector), content);
    forall s | 1 <= s <= c.numberOfSectors && s != sector
      ensures SectorAt(c, data2, s) == SectorAt(c, data, s)
    {
      SectorFits(c, s);
      if s < sector {
        StartMonotone(c, s, sector);
      } else {
        StartMonotone(c, sector, s);
      }
      SliceKept(data, data2, c.Start(sector), content, c.Start(s), c.Start(s) + c.SectorLength(s));
    }
  }

  /** `AtrMemoryImage`. */
  class MemoryImage {
    var config: Config
    var fData: array<byte>
    var writeProtected: bool
    ghost var sectors: Sectors

    ghost predicate Valid()
      reads this, fData
    {
      && config.Legal() && config.Fits() && fData.Length == config.ImageSize()
      && |sectors| == config.numberOfSectors
      && (forall k :: 0 <= k < |sectors| ==> |sectors[k]| == config.SectorLength(k + 1))
      && (forall s: nat {:trigger SectorAt(config, fData[..], s)} :: 1 <= s <= |sectors| ==> sectors[s - 1] == SectorAt(config, fData[..], s))
    }

    /** The sectors of the image. */
    ghost function Contents(): Sectors
      reads this`sectors
    {
      sectors
    }

    /** The sectors are the slices of the data. */
    lemma {:induction false} ContentsAreSlices()
      requires Valid()
      ensures Contents() == SectorsOf(config, fData[..])
    {
      var slices := SectorsOf(config, fData[..]);
      forall k: nat | k < |sectors|
        ensures sectors[k] == slices[k]
      {
        assert slices[k] == SectorAt(config, fData[..], k + 1);
      }
    }

    /** An image object without data. */
    constructor ()
      ensures config == EMPTY_CONFIG && !writeProtected && fresh(fData)
    {
      config := EMPTY_CONFIG;
      writeProtected := false;
      fData := new byte[0];
      sectors := [];
    }

    /** `CreateImage(EDiskFormat)`. */
    method CreateImage(format: DiskFormat) returns (ok: bool)
      modifies this
      ensures ok <==> !format.NoDisk? && !format.UserDefDisk?
      ensures ok ==> Valid() && config == StandardConfig(format) && !writeProtected && fresh(fData)
      ensures ok ==> Contents() == BlankSectors(config)
    {
      var c := StandardConfig(format);
      ok := c.numberOfSectors > 0;
      if ok {
        StandardConfigLegal(format);
        AllocateBlank(c);
      }
    }

    /**
     `CreateImage(density, sectorsPerTrack, tracks, sides)`.  What is created can be
     used unless the product of the layout has wrapped around or the image is too
     small for its two sectors of double density.
     */
    method CreateImageOfLayout(length: nat, sectors: nat, tracks: nat, sides: nat) returns (ok: bool)
      requires IsSectorLength(length)
      modifies this
      ensures var c := ConfigOfLayout(length, sectors, tracks, sides); ok == c.Some? && (ok ==> config == c.value)
      ensures ok ==> !writeProtected && fresh(fData) && fData.Length == config.ImageSize() && AllZero(fData[..])
      ensures ok && config.Legal() && config.Fits() ==> Valid() && Contents() == BlankSectors(config)
    {
      var c := ConfigOfLayout(length, sectors, tracks, sides);
      ok := c.Some?;
      if ok {
        AllocateBlank(c.value);
      }
    }

    /** The common part of all `CreateImage`s: every sector zero, not write protected. */
    method AllocateBlank(c: Config)
      modifies this
      ensures config == c && !writeProtected && fresh(fData) && fData.Length == c.ImageSize() && AllZero(fData[..])
      ensures c.Legal() && c.Fits() ==> Valid() && Contents() == BlankSectors(c)
    {
      config := c;
      writeProtected := false;
      fData := new byte[c.ImageSize()](_ => 0);
      sectors := BlankSectors(c);
      if c.Legal() && c.Fits() {
        BlankIsZero(c, fData[..]);
      }
    }

    method ReadSector(sector: nat, bufferLength: nat) returns (ok: bool, data: seq<byte>)
      requires Valid()
      ensures ok <==> 1 <= sector <= config.numberOfSectors && bufferLength == config.SectorLength(sector)
      ensures ok ==> data == Contents()[sector - 1]
    {
      var offset := config.CalculateOffset(sector);
      if offset < 0 {
        return false, [];
      }
      SectorFits(config, sector);
      if bufferLength == 0 {
        return false, [];
      }
      var len := config.SectorLength(sector);
      ok := bufferLength == len;
      if bufferLength < len {
        len := bufferLength;
      }
      data := fData[offset..offset + len];
      assert ok ==> data == SectorAt(config, fData[..], sector);
    }

    method WriteSector(sector: nat, data: seq<byte>) returns (ok: bool)
      requires Valid()
      modifies fData, this`sectors
      ensures Valid()
      ensures ok <==> !writeProtected && 1 <= sector <= config.numberOfSectors
                      && |data| == config.SectorLength(sector)
      ensures Contents() == if ok then old(Contents())[sector - 1 := data] else old(Contents())
    {
      if writeProtected {
        return false;
      }
      var offset := config.CalculateOffset(sector);
      if offset < 0 || |data| != config.SectorLength(sector) {
        return false;
      }
      Overwrite(sector, offset, data);
      ok := true;
    }

    /** The front of the data is read from a file; the rest stays as it is. */
    method Fill(block: seq<byte>)
      requires Valid() && |block| <= fData.Length
      modifies fData, this`sectors
      ensures Valid() && fData[..] == block + old(fData[|block|..])
    {
      ghost var was := fData[..];
      forall i | 0 <= i < |block| {
        fData[i] := block[i];
      }
      assert forall i :: |block| <= i < |was| ==> fData[i] == was[i] == was[|block|..][i - |block|];
      sectors := SectorsOf(config, fData[..]);
    }

    method Overwrite(sector: nat, offset: nat, data: seq<byte>)
      requires Valid() && 1 <= sector <= config.numberOfSectors && offset == config.Start(sector)
      requires |data| == config.SectorLength(sector)
      modifies fData, this`sectors
      ensures Valid() && Contents() == old(Contents())[sector - 1 := data]
    {
      SectorFits(config, sector);
      ContentsAreSlices();
      ghost var was := fData[..];
      forall i | 0 <= i < |data| {
        fData[offset + i] := data[i];
      }
      assert Overwrites(was, fData[..], offset, data);
      WriteChangesOneSector(config, was, fData[..], sector, data);
      sectors := SectorsOf(config, fData[..]);
    }
  }

  function BlankSectors(c: Config): Sectors {
    seq(c.numberOfSectors, k requires 0 <= k < c.numberOfSectors => Zeros(c.SectorLength(k + 1)))
  }

  lemma {:induction false} ZeroSlice(data: seq<byte>, a: nat, b: nat)
    requires a <= b <= |data| && AllZero(data)
    ensures data[a..b] == Zeros(b - a)
  {
  }

  lemma {:induction false} BlankSector(c: Config, data: seq<byte>, s: nat)
    requires c.Legal() && c.Fits() && |data| == c.ImageSize() && AllZero(data)
    requires 1 <= s <= c.numberOfSectors
    ensures SectorAt(c, data, s) == Zeros(c.SectorLength(s))
  {
    SectorFits(c, s);
    ZeroSlice(data, c.Start(s), c.Start(s) + c.SectorLength(s));
  }

  lemma {:induction false} BlankIsZero(c: Config, data: seq<byte>)
    requires c.Legal() && c.Fits() && |data| == c.ImageSize() && AllZero(data)
    ensures SectorsOf(c, data) == BlankSectors(c)
  {
    forall s | 1 <= s <= c.numberOfSectors
      ensures SectorAt(c, data, s) == Zeros(c.SectorLength(s))
    {
      BlankSector(c, data, s);
    }
  }
}
