/** `Dos2xUtils`: builds a DOS file system inside an image. */
module Dos2xBuilder {
  import opened Bytes
  import opened AtrImage
  import opened Dos2xVolume
  import opened Dos2xInit
  import opened Dos2xAlloc
  import opened Dos2xSearch
  import opened Dos2xChain
  import opened Dos2xNames
  import opened Dos2xFiles
  import Dos2xDirectory

  // ------------------------------------------------------------------
  // Steps of MarkSectorsFree on its buffers
  // ------------------------------------------------------------------

  lemma {:induction false} MarkStep(v: Volume, n: nat, e: Sectors, buf: seq<byte>)
    requires v.Legal() && !v.Dos25() && n < v.Capacity() && IsBuffer(v, e, MainPlace(v, n).sector, buf)
    ensures var p := MainPlace(v, n);
      && Shaped(v, Overlay(e, p.sector, buf))
      && SetMark(v, Overlay(e, p.sector, buf), n, true) == Overlay(e, p.sector, buf[p.at := PutByteBit(buf[p.at], p.bit, true)])
  {
  }

  /** The disk after each sector that has been marked. */
  ghost function Marks(v: Volume, d: Sectors, first: nat): (t: seq<Sectors>)
    requires v.Legal() && Shaped(v, d)
    ensures |t| == v.Capacity() + 1
  {
    seq(v.Capacity() + 1, n requires 0 <= n <= v.Capacity() => MarkRange(v, d, first, n))
  }

  ghost predicate MarkOk(v: Volume, t: seq<Sectors>, n: nat) {
    && v.Legal() && n < v.Capacity() && n + 1 < |t| && Shaped(v, t[n])
    && t[n + 1] == SetMark(v, t[n], n, true)
  }

  ghost predicate MarkTrace(v: Volume, t: seq<Sectors>, first: nat) {
    v.Legal() && |t| == v.Capacity() + 1 && forall n: nat :: first <= n < v.Capacity() ==> MarkOk(v, t, n)
  }

  lemma {:induction false} MarksTrace(v: Volume, d: Sectors, first: nat, last: nat)
    requires v.Legal() && Shaped(v, d) && first <= last + 1 <= v.Capacity()
    ensures var t := Marks(v, d, first);
      MarkTrace(v, t, first) && t[first] == d && t[last + 1] == MarkRange(v, d, first, last + 1)
  {
    var t := Marks(v, d, first);
    forall n: nat | first <= n < v.Capacity()
      ensures MarkOk(v, t, n)
    {
      assert t[n] == MarkRange(v, d, first, n) && t[n + 1] == MarkRange(v, d, first, n + 1);
    }
  }

  /** Setting a bit below 720 in the copy. */
  function SetLow(buf2: seq<byte>, n: nat): (r: seq<byte>)
    requires |buf2| == 128 && n < 720
    ensures |r| == 128
  {
    if n < 48 then buf2 else buf2[n / 8 - 6 := PutByteBit(buf2[n / 8 - 6], n % 8, true)]
  }

  lemma {:induction false} MarkStepLow(v: Volume, d: Sectors, first: nat, n: nat, e: Sectors, buf: seq<byte>, buf2: seq<byte>)
    requires Shaped(v, d) && first <= n < 720 && AreBuffers(v, e, buf, buf2) && MarkRange(v, d, first, n) == Overlay2(e, buf, buf2)
    ensures var b := n / 8 + 10;
      MarkRange(v, d, first, n + 1) == Overlay2(e, buf[b := PutByteBit(buf[b], n % 8, true)], SetLow(buf2, n))
  {
    var b := n / 8 + 10;
    assert MainPlace(v, n) == Place(VTOC_SECTOR, b, n % 8);
    assert SetMark(v, Overlay2(e, buf, buf2), n, true) == Overlay2(e, buf[b := PutByteBit(buf[b], n % 8, true)], SetLow(buf2, n));
  }

  lemma {:induction false} MarkStepHigh(v: Volume, d: Sectors, first: nat, n: nat, e: Sectors, buf: seq<byte>, buf2: seq<byte>)
    requires Shaped(v, d) && first <= n && 720 <= n < 1024
    requires AreBuffers(v, e, buf, buf2) && MarkRange(v, d, first, n) == Overlay2(e, buf, buf2)
    ensures var b := n / 8 - 6;
      MarkRange(v, d, first, n + 1) == Overlay2(e, buf, buf2[b := PutByteBit(buf2[b], n % 8, true)])
  {
    var b := n / 8 - 6;
    assert SetMark(v, Overlay2(e, buf, buf2), n, true) == Overlay2(e, buf, buf2[b := PutByteBit(buf2[b], n % 8, true)]);
  }

  // ------------------------------------------------------------------
  // Steps of AllocSectors
  // ------------------------------------------------------------------

  lemma {:induction false} DeductWraps(x: nat, taken: nat)
    ensures (x - taken) % 0x1_0000_0000 % 256 == (x - taken) % 0x1_0000 % 256
    ensures (x - taken) % 0x1_0000_0000 / 256 % 256 == (x - taken) % 0x1_0000 / 256
  {
    var k, r := (x - taken) / 0x1_0000 % 0x1_0000, (x - taken) % 0x1_0000;
    LowHalves(x - taken);
    Over256(r % 256, r / 256 + 256 * k);
    Over256(r / 256, k);
  }

  lemma {:induction false} LowHalves(y: int)
    ensures y % 0x1_0000_0000 == y % 0x1_0000 + 0x1_0000 * (y / 0x1_0000 % 0x1_0000)
  {
  }

  /** The first sector number with its bit in the VTOC sector `vtoc` below 360. */
  function BeforeSector(v: Volume, vtoc: nat): nat {
    if vtoc == 0 then 0 else if v.seclen == 128 then vtoc * 1024 - 80 else vtoc * 2048 - 80
  }

  lemma {:induction false} SectorBounds(v: Volume, vtoc: nat)
    requires v.Legal() && !v.Dos25() && vtoc < v.NumVtoc()
    ensures 4 <= VTOC_SECTOR - vtoc <= v.numsec
    ensures SectorNumber(v, vtoc, if vtoc == 0 then 10 else 0, 0) == BeforeSector(v, vtoc)
    ensures SectorNumber(v, vtoc, v.seclen, 0) == BeforeSector(v, vtoc + 1) <= v.Capacity()
  {
    VtocBounds(v);
  }

  lemma {:induction false} BeforeLast(v: Volume)
    requires v.Legal() && !v.Dos25()
    ensures BeforeSector(v, v.NumVtoc()) == v.Capacity()
  {
  }

  /** The byte at which the search for an octet begins in a VTOC sector. */
  function FirstByte(v: Volume, vtoc: nat): nat {
    BytePosition(v, vtoc, if vtoc == 0 then 56 else 0)
  }

  lemma {:induction false} FirstDirectoryByte(v: Volume)
    requires v.Legal() && !v.Dos25()
    ensures FirstByte(v, 0) == DIR_OCTETS <= VtocBytes(v) == FirstByte(v, v.NumVtoc())
  {
  }

  /** The search for a free octet, up to a VTOC sector: what it will find is still ahead. */
  ghost predicate Ahead(v: Volume, d: Sectors, vtoc: nat, x: Option<nat>) {
    && v.Legal() && Shaped(v, d) && !v.Dos25() && DIR_OCTETS <= FirstByte(v, vtoc) <= VtocBytes(v)
    && FirstWhole(v, d, FirstByte(v, vtoc), x)
  }

  lemma {:induction false} SearchedSector(v: Volume, d: Sectors, vtoc: nat, buf: seq<byte>, from: nat, b: nat, x: Option<nat>)
    requires Ahead(v, d, vtoc, x) && vtoc < v.NumVtoc() && from == if vtoc == 0 then 56 else 0
    requires from <= b <= v.seclen && buf == d[VTOC_SECTOR - vtoc - 1]
    requires (forall i :: from <= i < b ==> buf[i] != 255) && (b < v.seclen ==> buf[b] == 255)
    ensures if b < v.seclen then x == Some(BytePosition(v, vtoc, b)) else Ahead(v, d, vtoc + 1, x)
  {
    LastPosition(v, vtoc);
    PassSector(v, d, vtoc, buf, from, b);
    if b < v.seclen {
      BytePositionByte(v, d, vtoc, b);
      FirstWholeIsUnique(v, d, FirstByte(v, vtoc), x, Some(BytePosition(v, vtoc, b)));
    } else {
      FirstWholeLater(v, d, FirstByte(v, vtoc), FirstByte(v, vtoc + 1), x);
    }
  }

  lemma {:induction false} SearchStarts(v: Volume, d: Sectors)
    requires v.Legal() && Shaped(v, d) && !v.Dos25()
    ensures DIR_OCTETS <= VtocBytes(v) && Ahead(v, d, 0, FindOctet(v, d, DIR_OCTETS))
  {
    FirstDirectoryByte(v);
  }

  lemma {:induction false} SearchEnds(v: Volume, d: Sectors, x: Option<nat>)
    requires v.Legal() && Shaped(v, d) && !v.Dos25() && Ahead(v, d, v.NumVtoc(), x)
    ensures x == None
  {
    FirstDirectoryByte(v);
  }

  lemma {:induction false} OctetNumber(v: Volume, vtoc: nat, b: nat)
    requires v.Legal() && !v.Dos25() && vtoc < v.NumVtoc() && b < v.seclen && (vtoc == 0 ==> b >= 10)
    ensures BytePosition(v, vtoc, b) >= 10
    ensures BeforeSector(v, vtoc) + 8 * (b - if vtoc == 0 then 10 else 0) == 8 * (BytePosition(v, vtoc, b) - 10)
  {
  }

  lemma {:induction false} TakeOctetIs(v: Volume, d: Sectors, vtoc: nat, b: nat)
    requires v.Legal() && Shaped(v, d) && !v.Dos25() && vtoc < v.NumVtoc() && b < v.seclen && (vtoc == 0 ==> b >= 10)
    ensures 10 <= BytePosition(v, vtoc, b) < VtocBytes(v)
    ensures TakeOctet(v, d, BytePosition(v, vtoc, b)) == Overlay(d, VTOC_SECTOR - vtoc, d[VTOC_SECTOR - vtoc - 1][b := 0])
  {
    BytePositionByte(v, d, vtoc, b);
  }

  /** On a disk with one bitmap the empty VTOC is a header and zeros. */
  lemma {:induction false} EmptyMainVtoc(v: Volume, d: Sectors, buf: seq<byte>)
    requires v.Legal() && Shaped(v, d) && !v.Dos25()
    requires buf == [VtocType(v)] + Word(FreeTotal(v)) + Word(FreeTotal(v)) + Zeros(v.seclen - 5)
    ensures |buf| == v.seclen && v.NumVtoc() <= 66
    ensures EmptyVtoc(v, d) == ClearSectors(v, d[VTOC_SECTOR - 1 := buf], VTOC_SECTOR + 1 - v.NumVtoc(), v.NumVtoc() - 1)
  {
    VtocBounds(v);
  }

  // ------------------------------------------------------------------
  // Steps of WriteBufferToImage
  // ------------------------------------------------------------------

  lemma {:induction false} OneMoreSector(sectors: seq<nat>, i: nat)
    requires i < |sectors|
    ensures Above720(sectors[..i + 1]) <==> Above720(sectors[..i]) || sectors[i] >= 720
  {
    var s, t := sectors[..i + 1], sectors[..i];
    if Above720(t) {
      var j :| 0 <= j < |t| && t[j] >= 720;
      assert s[j] >= 720;
    }
    assert s[i] == sectors[i];
  }

  lemma {:induction false} ContentsStep(v: Volume, remain: seq<byte>, sectors: seq<nat>, i: nat, c: seq<seq<byte>>, entry: nat)
    requires v.Legal() && AllInRange(v, sectors) && i < |sectors| == |c| && entry < 64
    requires c[i..] == ChainContents(v, remain, sectors[i..], entry)
    ensures c[i] == ChainSector(v, Head(v, remain), if i + 1 < |sectors| then sectors[i + 1] else 0, entry)
    ensures c[i + 1..] == ChainContents(v, Tail(v, remain), sectors[i + 1..], entry)
  {
    var t := sectors[i..];
    assert c[i] == c[i..][0] && c[i + 1..] == c[i..][1..];
    assert t[1..] == sectors[i + 1..];
  }

  /** A reading after some bytes have already been written. */
  function After(written: seq<byte>, r: Reading): Reading {
    Reading(r.ok, written + r.bytes)
  }

  /** One step along a chain. */
  lemma {:induction false} FollowStep(v: Volume, d: Sectors, link16: bool, rest: seq<byte>, s: nat, unvisited: set<nat>, written: seq<byte>)
    requires v.Legal() && Shaped(v, d) && v.seclen + |rest| == 256 && InRange(v, s) && s in unvisited
    ensures var bytes, next := BytesOf(v, d[s - 1], rest), LinkOf(v, d[s - 1], link16);
      After(written, Follow(v, d, link16, rest, s, unvisited)) ==
        if next == 0 then Reading(true, written + bytes)
        else if !InRange(v, next) then Reading(false, written + bytes)
        else After(written + bytes, Follow(v, d, link16, rest, next, unvisited - {s}))
  {
    var bytes, next := BytesOf(v, d[s - 1], rest), LinkOf(v, d[s - 1], link16);
    if next != 0 && InRange(v, next) {
      var r := Follow(v, d, link16, rest, next, unvisited - {s});
      assert written + (bytes + r.bytes) == (written + bytes) + r.bytes;
    }
  }

  datatype View = View(v: Volume, d: Sectors)

  class Dos2xUtils {
    const fImage: MemoryImage
    var fDosFormat: DosFormat
    var fIsDos25EnhancedDensity: bool
    var fUse16BitSectorLinks: bool
    var fNumberOfVTOCs: nat
    var fDirSector: nat
    var fAtariName: seq<Name>

    /** The disk. */
    ghost function Disk(): Sectors
      requires fImage.Valid()
      reads fImage, fImage.fData
    {
      fImage.Contents()
    }

    function Vol(): Volume
      reads this`fDosFormat, fImage`config
    {
      Volume(fDosFormat, fImage.config.sectorLength, fImage.config.numberOfSectors)
    }

    /** The image can be written, and the format is one `SetDosFormat` has set. */
    ghost predicate Valid()
      reads this`fDosFormat, this`fIsDos25EnhancedDensity, fImage, fImage.fData
    {
      && fImage.Valid() && !fImage.writeProtected
      && fIsDos25EnhancedDensity == Vol().Dos25()
    }

    /** The volume and the sectors on it, while everything is in order. */
    ghost function Now(): Option<View>
      reads this`fDosFormat, this`fIsDos25EnhancedDensity, fImage, fImage.fData
    {
      if Valid() && Vol().Legal() && Shaped(Vol(), Disk()) then Some(View(Vol(), Disk())) else None
    }

    /** What the methods below do is told in terms of this: the volume, and what is on the disk. */
    ghost predicate Is(v: Volume, d: Sectors)
      reads this`fDosFormat, this`fIsDos25EnhancedDensity, fImage, fImage.fData
    {
      Now() == Some(View(v, d))
    }

    /** The flags `InitVTOC` sets agree with the volume. */
    ghost predicate Ready()
      reads this`fDosFormat, this`fIsDos25EnhancedDensity, this`fUse16BitSectorLinks, this`fNumberOfVTOCs, fImage, fImage.fData
    {
      && Valid() && Vol().Legal()
      && fUse16BitSectorLinks == Vol().Link16() && fNumberOfVTOCs == Vol().NumVtoc()
    }

    constructor (image: MemoryImage)
      requires image.Valid() && !image.writeProtected
      ensures Valid() && fImage == image && fDosFormat == UnknownDos && fDirSector == DIR_SECTOR && fAtariName == []
    {
      fImage := image;
      fDosFormat, fIsDos25EnhancedDensity, fUse16BitSectorLinks, fNumberOfVTOCs := UnknownDos, false, false, 0;
      fDirSector, fAtariName := DIR_SECTOR, [];
    }

    /** The object for a subdirectory; it shares the image and the format. */
    constructor ForSubdirectory(parent: Dos2xUtils, dirSector: nat)
      requires parent.Ready()
      ensures Ready() && fImage == parent.fImage && Vol() == parent.Vol() && fDirSector == dirSector && fAtariName == []
    {
      fImage := parent.fImage;
      fDosFormat, fIsDos25EnhancedDensity := parent.fDosFormat, parent.fIsDos25EnhancedDensity;
      fUse16BitSectorLinks, fNumberOfVTOCs := parent.fUse16BitSectorLinks, parent.fNumberOfVTOCs;
      fDirSector, fAtariName := dirSector, [];
    }

    /** The sectors of the image have the shape the volume expects. */
    lemma {:induction false} DiskShaped()
      requires fImage.Valid()
      ensures Shaped(Vol(), Disk())
    {
    }

    method SetDosFormat(format: DosFormat) returns (ok: bool)
      requires fImage.Valid() && !fImage.writeProtected
      modifies this`fDosFormat, this`fIsDos25EnhancedDensity, this`fUse16BitSectorLinks
      ensures ok <==> fImage.config.sectorLength in {128, 256} && fImage.config.numberOfSectors >= 720
      ensures ok ==> Valid() && fDosFormat == format
      ensures ok ==> (Vol().Legal() <==> !format.UnknownDos?)
      ensures !ok ==> fDosFormat == old(fDosFormat) && fIsDos25EnhancedDensity == old(fIsDos25EnhancedDensity)
    {
      var seclen := fImage.config.sectorLength;
      if seclen != 128 && seclen != 256 {
        return false;
      }
      if fImage.config.numberOfSectors < 720 {
        return false;
      }
      fDosFormat := format;
      fIsDos25EnhancedDensity := fImage.config.numberOfSectors == 1040 && seclen == 128 && format.Dos2x?;
      fUse16BitSectorLinks := fImage.config.numberOfSectors >= 1024 && format.MyDos?;
      ok := true;
    }

    // ----------------------------------------------------------------
    // The VTOC
    // ----------------------------------------------------------------

    method ReadSector(ghost v: Volume, ghost d: Sectors, sector: nat) returns (buf: seq<byte>)
      requires Is(v, d) && 4 <= sector <= v.numsec
      ensures buf == d[sector - 1]
    {
      var ok;
      ok, buf := fImage.ReadSector(sector, fImage.config.sectorLength);
    }

    method WriteSector(ghost v: Volume, ghost d: Sectors, sector: nat, buf: seq<byte>)
      requires Is(v, d) && 4 <= sector <= v.numsec && |buf| == v.seclen
      modifies fImage.fData, fImage`sectors
      ensures Is(v, d[sector - 1 := buf])
    {
      var ok := fImage.WriteSector(sector, buf);
    }

    method MarkSectorsFree(ghost v: Volume, ghost d: Sectors, first: nat, last: nat)
      requires Is(v, d) && first <= last + 1 <= v.Capacity()
      modifies fImage.fData, fImage`sectors
      ensures Is(v, MarkRange(v, d, first, last + 1))
    {
      if fIsDos25EnhancedDensity {
        MarkSectorsFreeDos25(v, d, first, last);
      } else {
        MarkSectorsFreeMain(v, d, first, last);
      }
    }

    method MarkSectorsFreeDos25(ghost v: Volume, ghost d: Sectors, first: nat, last: nat)
      requires Is(v, d) && v.Dos25() && first <= last + 1 <= 1024
      modifies fImage.fData, fImage`sectors
      ensures Is(v, MarkRange(v, d, first, last + 1))
    {
      var vtocBuf := ReadSector(v, d, VTOC_SECTOR);
      var vtoc2Buf := ReadSector(v, d, VTOC2_SECTOR);
      vtocBuf, vtoc2Buf := MarkBits(v, d, first, last, vtocBuf, vtoc2Buf);
      WriteSector(v, d, VTOC_SECTOR, vtocBuf);
      WriteSector(v, d[VTOC_SECTOR - 1 := vtocBuf], VTOC2_SECTOR, vtoc2Buf);
    }

    static method MarkBits(ghost v: Volume, ghost d: Sectors, first: nat, last: nat, buf: seq<byte>, buf2: seq<byte>)
      returns (bufR: seq<byte>, buf2R: seq<byte>)
      requires AreBuffers(v, d, buf, buf2) && buf == d[VTOC_SECTOR - 1] && buf2 == d[VTOC2_SECTOR - 1] && first <= last + 1 <= 1024
      ensures AreBuffers(v, d, bufR, buf2R) && MarkRange(v, d, first, last + 1) == Overlay2(d, bufR, buf2R)
    {
      bufR, buf2R := buf, buf2;
      assert Overlay2(d, buf, buf2) == d;
      var sector := first;
      while sector <= last
        invariant first <= sector <= last + 1
        invariant AreBuffers(v, d, bufR, buf2R)
        invariant MarkRange(v, d, first, sector) == Overlay2(d, bufR, buf2R)
      {
        bufR, buf2R := MarkBit(v, d, first, sector, bufR, buf2R);
        sector := sector + 1;
      }
    }

    static method MarkBit(ghost v: Volume, ghost d: Sectors, ghost first: nat, sector: nat, buf: seq<byte>, buf2: seq<byte>)
      returns (bufR: seq<byte>, buf2R: seq<byte>)
      requires AreBuffers(v, d, buf, buf2) && first <= sector < 1024
      requires MarkRange(v, d, first, sector) == Overlay2(d, buf, buf2)
      ensures AreBuffers(v, d, bufR, buf2R) && MarkRange(v, d, first, sector + 1) == Overlay2(d, bufR, buf2R)
    {
      bufR, buf2R := buf, buf2;
      var secBit, secByte := sector % 8, sector / 8;
      if secByte < 90 {
        MarkStepLow(v, d, first, sector, d, buf, buf2);
        bufR := buf[10 + secByte := PutByteBit(buf[10 + secByte], secBit, true)];
        if secByte >= 6 {
          buf2R := buf2[secByte - 6 := PutByteBit(buf2[secByte - 6], secBit, true)];
        }
      } else {
        MarkStepHigh(v, d, first, sector, d, buf, buf2);
        buf2R := buf2[secByte - 6 := PutByteBit(buf2[secByte - 6], secBit, true)];
      }
    }

    /** What the buffer of `MarkSectorsFree` stands for: the sector read last, with its new bits. */
    static ghost predicate Pending(d: Sectors, last: nat, changed: bool, buf: seq<byte>, v: Volume, m: Sectors) {
      if last == 0 then !changed && m == d
      else IsBuffer(v, d, last, buf) && m == Overlay(d, last, buf) && (!changed ==> m == d)
    }

    method MarkSectorsFreeMain(ghost v: Volume, ghost d: Sectors, first: nat, last: nat)
      requires Is(v, d) && !v.Dos25() && first <= last + 1 <= v.Capacity()
      modifies fImage.fData, fImage`sectors
      ensures Is(v, MarkRange(v, d, first, last + 1))
    {
      MarksTrace(v, d, first, last);
      MarkLoop(v, d, first, last, Marks(v, d, first));
    }

    method MarkLoop(ghost v: Volume, ghost d: Sectors, first: nat, last: nat, ghost t: seq<Sectors>)
      requires Is(v, d) && !v.Dos25() && first <= last + 1 < |t| && MarkTrace(v, t, first) && t[first] == d
      modifies fImage.fData, fImage`sectors
      ensures Is(v, t[last + 1])
    {
      var lastVtocSector: nat, vtocChanged, vtocBuf: seq<byte> := 0, false, [];
      ghost var e := d;
      var sector := first;
      while sector <= last
        invariant first <= sector <= last + 1
        invariant Is(v, e) && Pending(e, lastVtocSector, vtocChanged, vtocBuf, v, t[sector])
      {
        lastVtocSector, vtocBuf, e := MarkOne(v, e, first, sector, lastVtocSector, vtocChanged, vtocBuf, t);
        vtocChanged := true;
        sector := sector + 1;
      }
      if vtocChanged {
        WriteSector(v, e, lastVtocSector, vtocBuf);
      }
    }

    /** The body of the loop: the buffer is written back when the next bit is in another sector. */
    method MarkOne(
        ghost v: Volume, ghost e: Sectors, ghost first: nat,
        sector: nat, lastVtocSector: nat, vtocChanged: bool, vtocBuf: seq<byte>, ghost t: seq<Sectors>)
      returns (vtocSector: nat, buf: seq<byte>, ghost e2: Sectors)
      requires Is(v, e) && !v.Dos25() && first <= sector < |t| - 1 && MarkTrace(v, t, first)
      requires Pending(e, lastVtocSector, vtocChanged, vtocBuf, v, t[sector])
      modifies fImage.fData, fImage`sectors
      ensures Is(v, e2) && vtocSector > 0 && Pending(e2, vtocSector, true, buf, v, t[sector + 1])
    {
      assert MarkOk(v, t, sector);
      vtocSector := VtocSectorOf(Vol(), sector);
      buf, e2 := SwitchSector(v, e, vtocSector, lastVtocSector, vtocChanged, vtocBuf, t[sector]);
      buf := SetBit(Vol(), sector, e2, buf);
    }

    method SwitchSector(
        ghost v: Volume, ghost e: Sectors,
        vtocSector: nat, lastVtocSector: nat, vtocChanged: bool, vtocBuf: seq<byte>, ghost m: Sectors)
      returns (buf: seq<byte>, ghost e2: Sectors)
      requires Is(v, e) && 4 <= vtocSector <= v.numsec && Pending(e, lastVtocSector, vtocChanged, vtocBuf, v, m)
      modifies fImage.fData, fImage`sectors
      ensures Is(v, e2) && IsBuffer(v, e2, vtocSector, buf) && m == Overlay(e2, vtocSector, buf)
    {
      buf, e2 := vtocBuf, e;
      if vtocSector != lastVtocSector {
        if vtocChanged {
          WriteSector(v, e, lastVtocSector, vtocBuf);
          e2 := m;
        }
        buf := ReadSector(v, e2, vtocSector);
      }
    }

    static method VtocSectorOf(v: Volume, sector: nat) returns (vtocSector: nat)
      requires v.Legal() && !v.Dos25() && sector < v.Capacity()
      ensures vtocSector == MainPlace(v, sector).sector && 4 <= vtocSector <= v.numsec
    {
      var secByte := sector / 8;
      var vtocnum := if v.seclen == 128 then (secByte + 10) / 128 else (secByte + 10) / 256;
      assert MainPlace(v, sector).sector == VTOC_SECTOR - vtocnum;
      vtocSector := VTOC_SECTOR - vtocnum;
    }

    static method SetBit(v: Volume, sector: nat, ghost e: Sectors, buf: seq<byte>) returns (bufR: seq<byte>)
      requires v.Legal() && !v.Dos25() && sector < v.Capacity() && IsBuffer(v, e, MainPlace(v, sector).sector, buf)
      requires Shaped(v, Overlay(e, MainPlace(v, sector).sector, buf))
      ensures var s := MainPlace(v, sector).sector;
        |bufR| == |buf| && SetMark(v, Overlay(e, s, buf), sector, true) == Overlay(e, s, bufR)
    {
      var secBit, secByte := sector % 8, sector / 8;
      secByte := if v.seclen == 128 then (secByte + 10) % 128 else (secByte + 10) % 256;
      MarkStep(v, sector, e, buf);
      bufR := buf[secByte := PutByteBit(buf[secByte], secBit, true)];
    }

    // ----------------------------------------------------------------
    // InitVTOC
    // ----------------------------------------------------------------

    /** The first five bytes of the VTOC. */
    static method PutHeader(seclen: nat, kind: byte, total: nat, count: nat) returns (buf: seq<byte>)
      requires seclen in {128, 256}
      ensures buf == [kind] + Word(total) + Word(count) + Zeros(seclen - 5)
    {
      buf := Zeros(seclen);
      buf := buf[0 := kind][1 := total % 256][2 := total / 256 % 256];
      buf := buf[3 := count % 256][4 := count / 256 % 256];
    }

    /** The number of VTOC sectors, and with it the type byte and the kind of links. */
    static method Layout(v: Volume) returns (numVTOC: nat, kind: byte, lastsec: nat, link16: bool)
      requires v.Legal()
      ensures numVTOC == v.NumVtoc() && kind == VtocType(v) && lastsec == v.LastSector() && link16 == v.Link16()
    {
      VtocBounds(v);
      numVTOC, kind, lastsec, link16 := 1, 2, v.numsec, false;
      if v.dos.Dos2x? {
        lastsec := if v.Dos25() then 1023 else 719;
      } else {
        numVTOC := 1 + if v.seclen == 128 then (v.numsec + 80) / 1024 else (v.numsec + 80) / 2048;
        if v.seclen == 128 {
          if numVTOC > 1 {
            if numVTOC % 2 == 1 {
              numVTOC := numVTOC + 1;
            }
            kind, link16 := (numVTOC + 1) / 2 + 2, true;
          }
        } else if v.numsec >= 1024 {
          kind, link16 := 2 + numVTOC, true;
        }
      }
    }

    /** Writes zeros to a range of sectors. */
    method ClearRange(ghost v: Volume, ghost d: Sectors, first: nat, n: nat)
      requires Is(v, d) && 4 <= first && first + n <= v.numsec + 1
      modifies fImage.fData, fImage`sectors
      ensures Is(v, ClearSectors(v, d, first, n))
    {
      var buf := Zeros(fImage.config.sectorLength);
      var s := 0;
      while s < n
        invariant 0 <= s <= n && Is(v, ClearSectors(v, d, first, s))
      {
        WriteSector(v, ClearSectors(v, d, first, s), first + s, buf);
        s := s + 1;
      }
    }

    /** The additional VTOC sectors, cleared from sector 359 downwards. */
    method ClearVtocs(ghost v: Volume, ghost d: Sectors, numVTOC: nat)
      requires Is(v, d) && 1 <= numVTOC <= 66
      modifies fImage.fData, fImage`sectors
      ensures Is(v, ClearSectors(v, d, VTOC_SECTOR + 1 - numVTOC, numVTOC - 1))
    {
      var buf := Zeros(fImage.config.sectorLength);
      var s := 1;
      while s < numVTOC
        invariant 1 <= s <= numVTOC && Is(v, ClearSectors(v, d, VTOC_SECTOR + 1 - s, s - 1))
      {
        ghost var e := ClearSectors(v, d, VTOC_SECTOR + 1 - s, s - 1);
        WriteSector(v, e, VTOC_SECTOR - s, buf);
        assert e[VTOC_SECTOR - s - 1 := buf] == ClearSectors(v, d, VTOC_SECTOR - s, s);
        s := s + 1;
      }
    }

    /** The VTOC sectors before any sector is marked. */
    method WriteEmptyVtoc(ghost v: Volume, ghost d: Sectors, numVTOC: nat, kind: byte, lastsec: nat)
      requires Is(v, d) && numVTOC == v.NumVtoc() <= 66 && kind == VtocType(v) && lastsec == v.LastSector()
      modifies fImage.fData, fImage`sectors
      ensures Is(v, EmptyVtoc(v, d))
    {
      if fIsDos25EnhancedDensity {
        var buf := PutHeader(128, kind, 1010, 707);
        WriteSector(v, d, VTOC_SECTOR, buf);
        var buf2 := Zeros(122) + Word(303) + Zeros(4);
        WriteSector(v, d[VTOC_SECTOR - 1 := buf], VTOC2_SECTOR, buf2);
      } else {
        WriteMainVtoc(v, d, numVTOC, kind, lastsec);
      }
    }

    method WriteMainVtoc(ghost v: Volume, ghost d: Sectors, numVTOC: nat, kind: byte, lastsec: nat)
      requires Is(v, d) && !v.Dos25() && numVTOC == v.NumVtoc() <= 66 && kind == VtocType(v) && lastsec == v.LastSector()
      modifies fImage.fData, fImage`sectors
      ensures Is(v, EmptyVtoc(v, d))
    {
      var total := lastsec - 11 - numVTOC;
      var buf := PutHeader(fImage.config.sectorLength, kind, total, total);
      EmptyMainVtoc(v, d, buf);
      WriteSector(v, d, VTOC_SECTOR, buf);
      ClearVtocs(v, d[VTOC_SECTOR - 1 := buf], numVTOC);
    }

    method MarkAllFree(ghost v: Volume, ghost d: Sectors, numVTOC: nat, lastsec: nat)
      requires Is(v, d) && numVTOC == v.NumVtoc() <= 66 && lastsec == v.LastSector() < v.Capacity()
      modifies fImage.fData, fImage`sectors
      ensures Is(v, MarkAllocatable(v, d))
    {
      MarkSectorsFree(v, d, 4, VTOC_SECTOR - numVTOC);
      ghost var d1 := MarkRange(v, d, 4, VTOC_SECTOR - numVTOC + 1);
      if fIsDos25EnhancedDensity {
        MarkSectorsFree(v, d1, DIR_SECTOR + 8, 719);
        MarkSectorsFree(v, MarkRange(v, d1, DIR_SECTOR + 8, 720), 721, lastsec);
      } else {
        MarkSectorsFree(v, d1, DIR_SECTOR + 8, lastsec);
      }
    }

    /** `WriteBootSectors`, for three sectors of boot code. */
    method WriteBootSectors(ghost v: Volume, ghost d: Sectors, boot: Sectors)
      requires Is(v, d) && IsBoot(boot)
      modifies fImage.fData, fImage`sectors
      ensures Is(v, WriteBoot(v, d, boot))
    {
      var ok := fImage.WriteSector(1, boot[0]);
      ok := fImage.WriteSector(2, boot[1]);
      ok := fImage.WriteSector(3, boot[2]);
    }

    method InitVTOC(boot: Sectors) returns (ok: bool)
      requires Valid() && IsBoot(boot)
      modifies this`fUse16BitSectorLinks, this`fNumberOfVTOCs, fImage.fData, fImage`sectors
      ensures Valid() && (ok <==> Vol().Legal())
      ensures ok ==> Ready() && Shaped(Vol(), old(Disk())) && Disk() == InitVtoc(Vol(), old(Disk()), boot)
      ensures !ok ==> Disk() == old(Disk())
    {
      var seclen := fImage.config.sectorLength;
      if seclen != 128 && seclen != 256 {
        return false;
      }
      if fImage.config.numberOfSectors < 720 || fDosFormat.UnknownDos? {
        return false;
      }
      DiskShaped();
      var numVTOC, kind, lastsec, link16 := Layout(Vol());
      fUse16BitSectorLinks, fNumberOfVTOCs := link16, numVTOC;
      FillVtoc(Vol(), Disk(), numVTOC, kind, lastsec, boot);
      ok := true;
    }

    /** The writing part of `InitVTOC`. */
    method FillVtoc(ghost v: Volume, ghost d: Sectors, numVTOC: nat, kind: byte, lastsec: nat, boot: Sectors)
      requires Is(v, d) && IsBoot(boot)
      requires numVTOC == v.NumVtoc() && kind == VtocType(v) && lastsec == v.LastSector()
      modifies fImage.fData, fImage`sectors
      ensures Is(v, InitVtoc(v, d, boot))
    {
      VtocBounds(v);
      WriteEmptyVtoc(v, d, numVTOC, kind, lastsec);
      MarkAllFree(v, EmptyVtoc(v, d), numVTOC, lastsec);
      WriteBootSectors(v, MarkAllocatable(v, EmptyVtoc(v, d)), boot);
      ClearRange(v, WriteBoot(v, MarkAllocatable(v, EmptyVtoc(v, d)), boot), DIR_SECTOR, 7);
    }

    // ----------------------------------------------------------------
    // AllocSectors
    // ----------------------------------------------------------------

    /** `GetNumberOfFreeSectors`: nothing is free as long as no format is set. */
    method GetNumberOfFreeSectors() returns (freesec: nat)
      requires Valid() && (fDosFormat.UnknownDos? || Vol().Legal())
      ensures fDosFormat.UnknownDos? ==> freesec == 0
      ensures !fDosFormat.UnknownDos? ==> Shaped(Vol(), Disk()) && freesec == StoredFree(Vol(), Disk())
    {
      if fDosFormat.UnknownDos? {
        return 0;
      }
      DiskShaped();
      freesec := AddUpCounts(Vol(), Disk());
    }

    method AddUpCounts(ghost v: Volume, ghost d: Sectors) returns (freesec: nat)
      requires Is(v, d)
      ensures freesec == StoredFree(v, d)
    {
      var buf := ReadSector(v, d, VTOC_SECTOR);
      freesec := WordAt(buf, 3);
      if fIsDos25EnhancedDensity {
        buf := ReadSector(v, d, VTOC2_SECTOR);
        var more := WordAt(buf, 122);
        freesec := freesec + more;
      }
    }

    static method WordAt(buf: seq<byte>, at: nat) returns (w: nat)
      requires at + 2 <= |buf|
      ensures w == WordValue(buf[at..])
    {
      var lo: nat, hi: nat := buf[at], buf[at + 1];
      w := lo + 256 * hi;
    }

    /** Takes the allocated sectors off a stored count; the arithmetic is on 32-bit unsigned numbers. */
    static method DeductFrom(buf: seq<byte>, at: nat, taken: nat) returns (bufR: seq<byte>)
      requires at + 2 <= |buf|
      ensures bufR == Deduct(buf, at, taken)
    {
      var freesec := WordAt(buf, at);
      DeductWraps(freesec, taken);
      freesec := (freesec - taken) % 0x1_0000_0000;
      bufR := buf[at := freesec % 256][at + 1 := freesec / 256 % 256];
    }

    method AllocSectors(ghost v: Volume, ghost d: Sectors, num: nat, allocdir: bool) returns (ok: bool, secnums: seq<nat>)
      requires Is(v, d) && fNumberOfVTOCs == v.NumVtoc()
      modifies fImage.fData, fImage`sectors
      ensures var r := if !allocdir then AllocFile(v, d, num) else if num == 8 then AllocDirectory(v, d) else Allocation(false, d, []);
        Is(v, r.disk) && ok == r.ok && secnums == r.sectors
    {
      var freesec := GetNumberOfFreeSectors();
      if num > freesec {
        return false, [];
      }
      if allocdir && (num != 8 || !fDosFormat.MyDos?) {
        return false, [];
      }
      if fIsDos25EnhancedDensity {
        ok, secnums := AllocDos25(v, d, num);
      } else if allocdir {
        SearchStarts(v, d);
        ok, secnums := AllocDir(v, d, FindOctet(v, d, DIR_OCTETS));
      } else {
        ok, secnums := AllocMain(v, d, num);
      }
    }

    method AllocDos25(ghost v: Volume, ghost d: Sectors, num: nat) returns (ok: bool, secnums: seq<nat>)
      requires Is(v, d) && v.Dos25() && num <= StoredFree(v, d)
      modifies fImage.fData, fImage`sectors
      ensures var r := AllocFile(v, d, num); Is(v, r.disk) && ok == r.ok && secnums == r.sectors
    {
      ghost var t := States(v, Search(d, [], num));
      StatesTrace(v, Search(d, [], num));
      var vtocBuf := ReadSector(v, d, VTOC_SECTOR);
      var vtoc2Buf := ReadSector(v, d, VTOC2_SECTOR);
      NothingOverlaid(d);
      var left, below720;
      vtocBuf, vtoc2Buf, left, secnums, below720 := TakeFromBoth(v, t, d, vtocBuf, vtoc2Buf, num);
      ok := left == 0;
      WriteBoth(v, d, vtocBuf, vtoc2Buf, below720, |secnums| - below720);
    }

    /** The counts, and both buffers back to the disk. */
    method WriteBoth(ghost v: Volume, ghost d: Sectors, buf: seq<byte>, buf2: seq<byte>, low: nat, high: nat)
      requires Is(v, d) && AreBuffers(v, d, buf, buf2)
      modifies fImage.fData, fImage`sectors
      ensures Shaped(v, Overlay2(d, buf, buf2)) && Is(v, DeductCounts(v, Overlay2(d, buf, buf2), low, high))
    {
      var bufR := DeductFrom(buf, 3, low);
      var buf2R := DeductFrom(buf2, 122, high);
      WriteSector(v, d, VTOC_SECTOR, bufR);
      WriteSector(v, d[VTOC_SECTOR - 1 := bufR], VTOC2_SECTOR, buf2R);
      assert DeductCounts(v, Overlay2(d, buf, buf2), low, high) == Overlay2(d, bufR, buf2R);
    }

    method AllocMain(ghost v: Volume, ghost d: Sectors, num: nat) returns (ok: bool, secnums: seq<nat>)
      requires Is(v, d) && !v.Dos25() && num <= StoredFree(v, d) && fNumberOfVTOCs == v.NumVtoc()
      modifies fImage.fData, fImage`sectors
      ensures var r := AllocFile(v, d, num); Is(v, r.disk) && ok == r.ok && secnums == r.sectors
    {
      ghost var t := States(v, Search(d, [], num));
      StatesTrace(v, Search(d, [], num));
      var left;
      left, secnums := TakeFromAll(v, d, t, num);
      ok := left == 0;
      DeductMain(v, t[v.Capacity()].disk, |secnums|);
    }

    /** Takes the allocated sectors off the count in sector 360. */
    method DeductMain(ghost v: Volume, ghost d: Sectors, count: nat)
      requires Is(v, d) && !v.Dos25()
      modifies fImage.fData, fImage`sectors
      ensures Is(v, DeductCounts(v, d, count, 0))
    {
      var vtocBuf := ReadSector(v, d, VTOC_SECTOR);
      vtocBuf := DeductFrom(vtocBuf, 3, count);
      WriteSector(v, d, VTOC_SECTOR, vtocBuf);
    }

    /** The loop over the VTOC sectors. */
    method TakeFromAll(ghost v: Volume, ghost d: Sectors, ghost t: seq<Search>, num: nat) returns (left: nat, secnums: seq<nat>)
      requires Is(v, d) && !v.Dos25() && fNumberOfVTOCs == v.NumVtoc() && Trace(v, t) && t[0] == Search(d, [], num)
      modifies fImage.fData, fImage`sectors
      ensures Is(v, t[v.Capacity()].disk) && left == t[v.Capacity()].wanted && secnums == t[v.Capacity()].taken
    {
      left, secnums := num, [];
      var vtoc := 0;
      ghost var e := d;
      while left > 0 && vtoc < fNumberOfVTOCs
        invariant 0 <= vtoc <= v.NumVtoc() && Is(v, e) && BeforeSector(v, vtoc) <= v.Capacity()
        invariant t[BeforeSector(v, vtoc)] == Search(e, secnums, left)
        decreases v.NumVtoc() - vtoc
      {
        left, secnums, e := TakeFromOne(v, e, t, vtoc, left, secnums);
        vtoc := vtoc + 1;
      }
      BeforeLast(v);
      Idle2(v, t, BeforeSector(v, vtoc), v.Capacity());
    }

    /** One VTOC sector: read, searched, and written back if anything was taken from it. */
    method TakeFromOne(ghost v: Volume, ghost e: Sectors, ghost t: seq<Search>, vtoc: nat, num: nat, secnums: seq<nat>)
      returns (num2: nat, secnums2: seq<nat>, ghost e2: Sectors)
      requires Is(v, e) && !v.Dos25() && vtoc < v.NumVtoc() && Trace(v, t)
      requires BeforeSector(v, vtoc) <= v.Capacity() && t[BeforeSector(v, vtoc)] == Search(e, secnums, num)
      modifies fImage.fData, fImage`sectors
      ensures Is(v, e2) && BeforeSector(v, vtoc + 1) <= v.Capacity() && t[BeforeSector(v, vtoc + 1)] == Search(e2, secnums2, num2)
    {
      SectorBounds(v, vtoc);
      var vtocBuf := ReadSector(v, e, VTOC_SECTOR - vtoc);
      assert Overlay(e, VTOC_SECTOR - vtoc, vtocBuf) == e;
      var base := if vtoc == 0 then 10 else 0;
      var sectorBase := if vtoc == 0 then 0 else if fImage.config.sectorLength == 128 then vtoc * 1024 - 80 else vtoc * 2048 - 80;
      var changed;
      vtocBuf, num2, secnums2, changed := TakeFromSector(Vol(), t, e, vtoc, vtocBuf, base, sectorBase, num, secnums);
      if changed {
        WriteSector(v, e, VTOC_SECTOR - vtoc, vtocBuf);
      }
      e2 := Overlay(e, VTOC_SECTOR - vtoc, vtocBuf);
    }

    method AllocDir(ghost v: Volume, ghost d: Sectors, ghost x: Option<nat>) returns (ok: bool, secnums: seq<nat>)
      requires Is(v, d) && fNumberOfVTOCs == v.NumVtoc() && Ahead(v, d, 0, x)
      modifies fImage.fData, fImage`sectors
      ensures var r := HandOutOctet(v, d, x); Is(v, r.disk) && ok == r.ok && secnums == r.sectors
    {
      var vtoc, b;
      ok, vtoc, b := FindWhole(v, d, x);
      if ok {
        VtocBounds(v);
        TakeOctetIs(v, d, vtoc, b);
        secnums := OctetOf(Vol(), vtoc, b);
        assert HandOutOctet(v, d, x) == Allocation(true, DirectoryDisk(v, d, BytePosition(v, vtoc, b)), secnums);
        TakeFound(v, d, vtoc, b, BytePosition(v, vtoc, b));
      } else {
        secnums := [];
        DeductMain(v, d, 0);
      }
    }

    /** Clears the byte of the octet that was found, and counts the sectors off. */
    method TakeFound(ghost v: Volume, ghost d: Sectors, vtoc: nat, b: nat, ghost q: nat)
      requires Is(v, d) && !v.Dos25() && vtoc < v.NumVtoc() <= 66 && b < v.seclen && 10 <= q < VtocBytes(v)
      requires TakeOctet(v, d, q) == Overlay(d, VTOC_SECTOR - vtoc, d[VTOC_SECTOR - vtoc - 1][b := 0])
      modifies fImage.fData, fImage`sectors
      ensures Is(v, DirectoryDisk(v, d, q))
    {
      ClearByte(v, d, vtoc, b);
      DeductMain(v, TakeOctet(v, d, q), 8);
    }

    /** The loops that look for a free octet. */
    method FindWhole(ghost v: Volume, ghost d: Sectors, ghost x: Option<nat>) returns (found: bool, vtoc: nat, b: nat)
      requires Is(v, d) && fNumberOfVTOCs == v.NumVtoc() && Ahead(v, d, 0, x)
      ensures found ==> vtoc < v.NumVtoc() && b < v.seclen && (vtoc == 0 ==> b >= 10)
      ensures x == if found then Some(BytePosition(v, vtoc, b)) else None
    {
      found, vtoc, b := false, 0, 0;
      while vtoc < fNumberOfVTOCs
        invariant 0 <= vtoc <= v.NumVtoc() && Ahead(v, d, vtoc, x)
      {
        found, b := FindInOne(v, d, vtoc, x);
        if found {
          return;
        }
        vtoc := vtoc + 1;
      }
      SearchEnds(v, d, x);
    }

    method FindInOne(ghost v: Volume, ghost d: Sectors, vtoc: nat, ghost x: Option<nat>) returns (found: bool, b: nat)
      requires Is(v, d) && vtoc < v.NumVtoc() && Ahead(v, d, vtoc, x)
      ensures found ==> b < v.seclen && (vtoc == 0 ==> b >= 10) && x == Some(BytePosition(v, vtoc, b))
      ensures !found ==> Ahead(v, d, vtoc + 1, x)
    {
      SectorBounds(v, vtoc);
      var vtocBuf := ReadSector(v, d, VTOC_SECTOR - vtoc);
      var from := if vtoc == 0 then 56 else 0;
      b := FindInSector(Vol(), d, vtoc, vtocBuf, from);
      found := b < fImage.config.sectorLength;
      SearchedSector(v, d, vtoc, vtocBuf, from, b, x);
    }

    /** Clears a byte of the VTOC. */
    method ClearByte(ghost v: Volume, ghost d: Sectors, vtoc: nat, b: nat)
      requires Is(v, d) && vtoc < 66 && b < v.seclen
      modifies fImage.fData, fImage`sectors
      ensures Is(v, Overlay(d, VTOC_SECTOR - vtoc, d[VTOC_SECTOR - vtoc - 1][b := 0]))
    {
      var vtocBuf := ReadSector(v, d, VTOC_SECTOR - vtoc);
      vtocBuf := vtocBuf[b := 0];
      WriteSector(v, d, VTOC_SECTOR - vtoc, vtocBuf);
    }

    static method OctetOf(v: Volume, vtoc: nat, b: nat) returns (secnums: seq<nat>)
      requires v.Legal() && !v.Dos25() && vtoc < v.NumVtoc() && b < v.seclen && (vtoc == 0 ==> b >= 10)
      ensures BytePosition(v, vtoc, b) >= 10 && secnums == Octet(8 * (BytePosition(v, vtoc, b) - 10))
    {
      OctetNumber(v, vtoc, b);
      var sectorBase := if vtoc == 0 then 0 else if v.seclen == 128 then vtoc * 1024 - 80 else vtoc * 2048 - 80;
      var first := sectorBase + 8 * (b - if vtoc == 0 then 10 else 0);
      secnums := Octet(first);
    }

    // ----------------------------------------------------------------
    // Files
    // ----------------------------------------------------------------

    static method BuildSector(v: Volume, use16BitLinks: bool, piece: seq<byte>, next: nat, entryNum: nat) returns (buf: seq<byte>)
      requires v.Legal() && |piece| <= Payload(v) && next < 0x1_0000 && entryNum < 64 && use16BitLinks == v.Link16()
      ensures buf == ChainSector(v, piece, next, entryNum)
    {
      buf := piece + Zeros(v.seclen - |piece|);
      buf := buf[v.seclen - 1 := |piece|];
      var link := if use16BitLinks then next else next % 1024 + entryNum * 1024;
      LinkBytes(v, next, entryNum, link);
      buf := buf[v.seclen - 2 := link % 256][v.seclen - 3 := link / 256];
      LinkAtEnd(v.seclen, piece, link / 256, link % 256);
    }

    static lemma {:induction false} LinkBytes(v: Volume, next: nat, entryNum: nat, link: nat)
      requires v.Legal() && next < 0x1_0000 && entryNum < 64
      requires link == if v.Link16() then next else next % 1024 + entryNum * 1024
      ensures link / 256 < 256 && Link(v, next, entryNum) == [link / 256, link % 256]
    {
      var m := next % 1024;
      Over256(next % 256, m / 256 + 4 * entryNum);
      assert m % 256 == next % 256;
    }

    static lemma {:induction false} LinkAtEnd(n: nat, piece: seq<byte>, hi: byte, lo: byte)
      requires |piece| + 3 <= n <= 256
      ensures (piece + Zeros(n - |piece|))[n - 1 := |piece|][n - 2 := lo][n - 3 := hi]
           == piece + Zeros(n - 3 - |piece|) + [hi, lo] + [|piece|]
    {
    }

    /** The buffer pointer and the number of bytes that remain are together the rest of the data. */
    method WriteBufferToImage(ghost v: Volume, ghost d: Sectors, entryNum: nat, buffer: seq<byte>, sectors: seq<nat>)
      returns (sector720: bool)
      requires Is(v, d) && fUse16BitSectorLinks == v.Link16() && AllInRange(v, sectors) && entryNum < 64
      modifies fImage.fData, fImage`sectors
      ensures Is(v, WriteChain(v, d, buffer, sectors, entryNum)) && sector720 == Above720(sectors)
    {
      ghost var c := ChainContents(v, buffer, sectors, entryNum);
      var remain := buffer;
      var i := 0;
      sector720 := false;
      while i < |sectors|
        invariant 0 <= i <= |sectors| && Is(v, WriteSectors(v, d, sectors, c, i))
        invariant sector720 == Above720(sectors[..i])
        invariant c[i..] == ChainContents(v, remain, sectors[i..], entryNum)
      {
        ghost var e := WriteSectors(v, d, sectors, c, i);
        remain := WriteOne(v, e, entryNum, remain, sectors, i, c);
        sector720 := sector720 || sectors[i] >= 720;
        OneMoreSector(sectors, i);
        i := i + 1;
      }
      assert sectors[..i] == sectors;
    }

    /** The body of the loop. */
    method WriteOne(ghost v: Volume, ghost d: Sectors, entryNum: nat, remain: seq<byte>, sectors: seq<nat>, i: nat, ghost c: seq<seq<byte>>)
      returns (rest: seq<byte>)
      requires Is(v, d) && fUse16BitSectorLinks == v.Link16() && AllInRange(v, sectors) && entryNum < 64
      requires i < |sectors| == |c| && c[i..] == ChainContents(v, remain, sectors[i..], entryNum)
      modifies fImage.fData, fImage`sectors
      ensures |c[i]| == v.seclen && Is(v, d[sectors[i] - 1 := c[i]])
      ensures c[i + 1..] == ChainContents(v, rest, sectors[i + 1..], entryNum)
    {
      var bytes := fImage.config.sectorLength - 3;
      if |remain| <= bytes {
        bytes := |remain|;
      }
      var next := if i + 1 < |sectors| then sectors[i + 1] else 0;
      ContentsStep(v, remain, sectors, i, c, entryNum);
      var buf := BuildSector(Vol(), fUse16BitSectorLinks, remain[..bytes], next, entryNum);
      WriteSector(v, d, sectors[i], buf);
      rest := remain[bytes..];
    }

    method SetAtariDirectory(
        ghost v: Volume, ghost d: Sectors,
        entryNum: nat, atariname: Name, usedSectorAbove720: bool, isDirectory: bool, startSector: nat, sectorCount: nat)
      requires Is(v, d) && fUse16BitSectorLinks == v.Link16() && IsDirectory(v, fDirSector) && entryNum < MAX_ENTRIES
      modifies fImage.fData, fImage`sectors
      ensures Is(v, PutSlot(v, d, fDirSector, entryNum,
        SlotBytes(if isDirectory then DIRECTORY_STATUS else FileStatus(v, usedSectorAbove720), sectorCount, startSector, atariname)))
    {
      var status: byte := 0x10;
      if !isDirectory {
        status := StatusByte(Vol(), usedSectorAbove720, fIsDos25EnhancedDensity, fUse16BitSectorLinks);
      }
      var dirsec := fDirSector + entryNum / 8;
      var buf := ReadSector(v, d, dirsec);
      var offset := entryNum % 8 * 16;
      buf := FillSlot(buf, offset, status, sectorCount, startSector, atariname);
      WriteSector(v, d, dirsec, buf);
    }

    /** The status of a file; 16-bit links are marked by bit 2. */
    static method StatusByte(ghost v: Volume, usedSectorAbove720: bool, dos25: bool, use16BitLinks: bool) returns (status: byte)
      requires v.Legal() && dos25 == v.Dos25() && use16BitLinks == v.Link16()
      ensures status == FileStatus(v, usedSectorAbove720)
    {
      status := if usedSectorAbove720 && dos25 then 0x03 else 0x42;
      if use16BitLinks {
        status := status + 4;
      }
    }

    static method FillSlot(buf: seq<byte>, offset: nat, status: byte, sectorCount: nat, startSector: nat, atariname: Name)
      returns (bufR: seq<byte>)
      requires offset + 16 <= |buf|
      ensures bufR == buf[..offset] + SlotBytes(status, sectorCount, startSector, atariname) + buf[offset + 16..]
    {
      bufR := buf[offset := status];
      bufR := bufR[offset + 1 := sectorCount % 256][offset + 2 := sectorCount / 256 % 256];
      bufR := bufR[offset + 3 := startSector % 256][offset + 4 := startSector / 256 % 256];
      bufR := bufR[..offset + 5] + atariname + bufR[offset + 16..];
    }

    // ----------------------------------------------------------------
    // Names
    // ----------------------------------------------------------------

    static method CheckNameUnique(names: seq<Name>, name: Name) returns (unique: bool)
      ensures unique <==> name !in names
    {
      var i := 0;
      while i < |names|
        invariant 0 <= i <= |names| && name !in names[..i]
      {
        if names[i] == name {
          return false;
        }
        i := i + 1;
      }
      unique := true;
    }

    /** Where the suffix goes. */
    static method FindPosition(name: Name) returns (pos: nat)
      ensures pos == SuffixPosition(name, 0)
    {
      pos := 0;
      while pos < 6 && name[pos] != BLANK
        invariant 0 <= pos <= 6 && SuffixPosition(name, 0) == SuffixPosition(name, pos)
      {
        pos := pos + 1;
      }
    }

    /** The renaming loop; it stops because there are more suffixes than names. */
    static method MakeUnique(names: seq<Name>, name: Name) returns (r: Name)
      requires |names| < MAX_ENTRIES
      ensures r == FirstUnique(names, name, 0)
    {
      var pos := FindPosition(name);
      var i := 0;
      r := name;
      var unique := CheckNameUnique(names, r);
      while !unique
        invariant 0 <= i <= 100 && r == Try(name, i) && TriedInVain(names, name, i)
        invariant unique == (r !in names)
        invariant FirstUnique(names, name, 0) == FirstUnique(names, name, i)
        decreases 100 - i, !unique
      {
        VainTries(names, name, i);
        assert Try(name, i + 1) == Renamed(name, i);
        r := NextName(name, r, pos, i);
        i := i + 1;
        unique := CheckNameUnique(names, r);
      }
    }

    /** Writes the two digits over what is there from the try before. */
    static method NextName(ghost name: Name, current: Name, pos: nat, i: nat) returns (r: Name)
      requires pos == SuffixPosition(name, 0) && i < 100 && current == Try(name, i)
      ensures r == Renamed(name, i)
    {
      var bytes: seq<byte> := current[pos := 48 + i / 10][pos + 1 := 48 + i % 10];
      assert bytes == Renamed(name, i);
      r := bytes;
    }

    method EnterName(name: Name, allowNameChange: bool) returns (ok: bool)
      requires |fAtariName| <= MAX_ENTRIES
      modifies this`fAtariName
      ensures match AddEntry(old(fAtariName), name, allowNameChange)
        case None => !ok && fAtariName == old(fAtariName)
        case Some(names) => ok && fAtariName == names
    {
      if |fAtariName| >= MAX_ENTRIES {
        return false;
      }
      var current := name;
      if allowNameChange {
        current := MakeUnique(fAtariName, name);
      }
      ok := CheckNameUnique(fAtariName, current);
      if ok {
        fAtariName := fAtariName + [current];
      }
    }

    // ----------------------------------------------------------------
    // Adding
    // ----------------------------------------------------------------

    /** The sectors a file of this size needs. */
    static method SectorsFor(v: Volume, length: nat) returns (fileSeclen: nat)
      requires v.Legal()
      ensures fileSeclen == FileSectors(v, length)
    {
      fileSeclen := if v.seclen == 128 then (length + 124) / 125 else (length + 252) / 253;
      if fileSeclen == 0 {
        fileSeclen := 1;
      }
    }

    /** `AddDataBlock`; `AddFile` does the same with a file it has read. */
    method AddBlock(ghost v: Volume, ghost d: Sectors, name: Name, rename: bool, data: seq<byte>) returns (ok: bool)
      requires Is(v, d) && Ready() && CanAdd(v, d, fDirSector, fAtariName)
      modifies this`fAtariName, fImage.fData, fImage`sectors
      ensures var r := AddData(v, d, fDirSector, old(fAtariName), name, rename, data);
        ok == r.ok && Is(v, r.disk) && fAtariName == r.names
    {
      ghost var names := fAtariName;
      var fileSeclen := SectorsFor(Vol(), |data|);
      var freesec := GetNumberOfFreeSectors();
      if fileSeclen > freesec {
        return false;
      }
      var entryNum := |fAtariName|;
      ok := EnterName(name, rename);
      if !ok {
        return false;
      }
      ok := StoreBlock(v, d, entryNum, data, fileSeclen);
      assert AddEntry(names, name, rename) == Some(fAtariName);
    }

    /** Allocates the sectors, fills them, and writes the directory slot. */
    method StoreBlock(ghost v: Volume, ghost d: Sectors, entryNum: nat, data: seq<byte>, fileSeclen: nat) returns (ok: bool)
      requires Is(v, d) && Ready() && VtocOk(v, d) && IsDirectory(v, fDirSector)
      requires fileSeclen == FileSectors(v, |data|) && entryNum < |fAtariName| <= MAX_ENTRIES
      modifies fImage.fData, fImage`sectors
      ensures var a := AllocFile(v, d, fileSeclen);
        && ok == a.ok
        && (a.ok ==> AllInRange(v, a.sectors) && |a.sectors| > 0
                     && Is(v, StoreFile(v, a.disk, fDirSector, entryNum, fAtariName[entryNum], data, a.sectors)))
        && (!a.ok ==> Is(v, a.disk))
    {
      ghost var a := AllocFile(v, d, fileSeclen);
      FileAllocationUsable(v, d, fileSeclen);
      var sectors;
      ok, sectors := AllocSectors(v, d, fileSeclen, false);
      if !ok {
        return;
      }
      var sector720 := WriteBufferToImage(v, a.disk, entryNum, data, sectors);
      SetAtariDirectory(v, WriteChain(v, a.disk, data, sectors, entryNum), entryNum, fAtariName[entryNum], sector720, false, sectors[0], |sectors|);
    }

    method AddDataBlock(atariname: Name, data: seq<byte>) returns (ok: bool)
      requires Ready() && CanAdd(Vol(), Disk(), fDirSector, fAtariName)
      modifies this`fAtariName, fImage.fData, fImage`sectors
      ensures Ready()
      ensures var r := AddData(Vol(), old(Disk()), fDirSector, old(fAtariName), atariname, false, data);
        ok == r.ok && Disk() == r.disk && fAtariName == r.names
    {
      DiskShaped();
      ok := AddBlock(Vol(), Disk(), atariname, false, data);
    }

    /** `AddFile`, for a file with these contents and the Atari form of its name. */
    method AddFile(atariname: Name, data: seq<byte>) returns (ok: bool)
      requires Ready() && CanAdd(Vol(), Disk(), fDirSector, fAtariName)
      modifies this`fAtariName, fImage.fData, fImage`sectors
      ensures Ready()
      ensures var r := Dos2xFiles.AddFile(Vol(), old(Disk()), fDirSector, old(fAtariName), atariname, data);
        ok == r.ok && Disk() == r.disk && fAtariName == r.names
    {
      DiskShaped();
      var filelen := |data|;
      if filelen > MAX_FILE_LEN {
        filelen := MAX_FILE_LEN;
      }
      ok := AddBlock(Vol(), Disk(), atariname, true, data[..filelen]);
      assert |data| <= MAX_FILE_LEN ==> data[..filelen] == data;
    }

    /** `AddDirectory`: returns the first sector of the new directory, 0 if there is none. */
    method AddDirectory(atariname: Name) returns (dirsec: nat, entryNum: nat)
      requires Ready() && CanAdd(Vol(), Disk(), fDirSector, fAtariName)
      modifies this`fAtariName, fImage.fData, fImage`sectors
      ensures Ready()
      ensures var r := Dos2xFiles.AddDirectory(Vol(), old(Disk()), fDirSector, old(fAtariName), atariname);
        && Disk() == r.disk && fAtariName == r.names
        && (r.ok ==> |r.sectors| == 8 && dirsec == r.sectors[0] && entryNum == |old(fAtariName)|)
        && (!r.ok ==> dirsec == 0)
    {
      DiskShaped();
      dirsec, entryNum := MakeDirectory(Vol(), Disk(), atariname);
    }

    method MakeDirectory(ghost v: Volume, ghost d: Sectors, atariname: Name) returns (dirsec: nat, entryNum: nat)
      requires Is(v, d) && Ready() && CanAdd(v, d, fDirSector, fAtariName)
      modifies this`fAtariName, fImage.fData, fImage`sectors
      ensures var r := Dos2xFiles.AddDirectory(v, d, fDirSector, old(fAtariName), atariname);
        && Is(v, r.disk) && fAtariName == r.names
        && (r.ok ==> |r.sectors| == 8 && dirsec == r.sectors[0] && entryNum == |old(fAtariName)|)
        && (!r.ok ==> dirsec == 0)
    {
      dirsec, entryNum := 0, |fAtariName|;
      if |fAtariName| >= MAX_ENTRIES {
        return;
      }
      ghost var a := AllocDirectory(v, d);
      DirectoryAllocationUsable(v, d);
      var ok, sectors := AllocSectors(v, d, 8, true);
      if !ok {
        return;
      }
      ok := EnterName(atariname, true);
      if !ok {
        return;
      }
      dirsec := sectors[0];
      LayDirectory(v, a.disk, entryNum, fAtariName[entryNum], dirsec);
    }

    /** Clears the sectors of the new directory and writes its slot in this one. */
    method LayDirectory(ghost v: Volume, ghost d: Sectors, entryNum: nat, name: Name, first: nat)
      requires Is(v, d) && Ready() && IsDirectory(v, fDirSector) && IsDirectory(v, first) && entryNum < MAX_ENTRIES
      modifies fImage.fData, fImage`sectors
      ensures Is(v, StoreDirectory(v, d, fDirSector, entryNum, name, first))
    {
      ClearRange(v, d, first, 8);
      SetAtariDirectory(v, ClearSectors(v, d, first, 8), entryNum, name, false, true, first, 8);
    }

    // ----------------------------------------------------------------
    // Reading
    // ----------------------------------------------------------------

    /**
     `WriteAtariFileToDisk`; `written` is what the file on the host gets, and `rest`
     is what happens to be in the 256-byte buffer after a sector.
     */
    method WriteAtariFileToDisk(startingSector: nat, use16BitSectorLinks: bool, rest: seq<byte>) returns (ok: bool, written: seq<byte>)
      requires Ready() && Vol().seclen + |rest| == 256
      ensures Shaped(Vol(), Disk()) && Reading(ok, written) == ReadFile(Vol(), Disk(), use16BitSectorLinks, rest, startingSector)
    {
      DiskShaped();
      if startingSector < 4 || startingSector > fImage.config.numberOfSectors {
        return false, [];
      }
      ok, written := FollowChain(Vol(), Disk(), startingSector, use16BitSectorLinks, rest);
    }

    method FollowChain(ghost v: Volume, ghost d: Sectors, start: nat, link16: bool, rest: seq<byte>) returns (ok: bool, written: seq<byte>)
      requires Is(v, d) && v.seclen + |rest| == 256 && InRange(v, start)
      ensures Reading(ok, written) == Follow(v, d, link16, rest, start, AllSectors(v))
    {
      ok, written := false, [];
      var visited := new bool[fImage.config.numberOfSectors + 1](_ => false);
      var sector: nat := start;
      ghost var unvisited := AllSectors(v);
      ghost var goal := Follow(v, d, link16, rest, start, unvisited);
      while true
        invariant Is(v, d) && InRange(v, sector) && visited.Length == v.numsec + 1
        invariant forall n: nat :: InRange(v, n) ==> (n in unvisited <==> !visited[n])
        invariant !ok && goal == After(written, Follow(v, d, link16, rest, sector, unvisited))
        decreases |unvisited|
      {
        if visited[sector] {
          return;
        }
        visited[sector] := true;
        var bytes, next := ReadPiece(v, d, sector, link16, rest);
        FollowStep(v, d, link16, rest, sector, unvisited, written);
        written := written + bytes;
        if next == 0 {
          return true, written;
        }
        if next < 4 || next > fImage.config.numberOfSectors {
          return;
        }
        unvisited := unvisited - {sector};
        sector := next;
      }
    }

    /** The bytes of a file in one sector, and the sector behind it. */
    method ReadPiece(ghost v: Volume, ghost d: Sectors, sector: nat, link16: bool, rest: seq<byte>) returns (bytes: seq<byte>, next: nat)
      requires Is(v, d) && v.seclen + |rest| == 256 && InRange(v, sector)
      ensures bytes == BytesOf(v, d[sector - 1], rest) && next == LinkOf(v, d[sector - 1], link16)
    {
      var buf := ReadSector(v, d, sector);
      bytes := (buf + rest)[..buf[fImage.config.sectorLength - 1]];
      next := NextOf(Vol(), buf, link16);
    }

    /** `GetDos2Directory`. */
    method GetDos2Directory(dirSector: nat) returns (dir: Option<Dos2xDirectory.Listing>)
      requires fImage.Valid()
      ensures dir == Dos2xDirectory.GetDos2Directory(fImage.config.sectorLength, Disk(), dirSector)
    {
      dir := Dos2xDirectory.ReadDirectory(fImage, dirSector);
    }

    static method NextOf(v: Volume, buf: seq<byte>, use16BitSectorLinks: bool) returns (next: nat)
      requires v.Legal() && |buf| == v.seclen
      ensures next == LinkOf(v, buf, use16BitSectorLinks)
    {
      var lo: nat, hi: nat := buf[v.seclen - 2], buf[v.seclen - 3];
      if use16BitSectorLinks {
        next := lo + hi * 256;
      } else {
        next := lo + hi % 4 * 256;
      }
    }
  }
}
