/** The directory of a DOS disk as `GetDos2Directory` lists it. */
module Dos2xDirectory {
  import opened Bytes
  import opened AtrImage

  /** An entry that is shown; the number is the position of its slot, unless there are 16 to a sector. */
  datatype Listed = Listed(status: byte, start: nat, count: nat, name: seq<byte>, number: nat)

  /** `Dos2Dir`, without the text to be displayed. */
  datatype Listing = Listing(free: nat, entries: seq<Listed>)

  /** Whether a sector of the usual length can be read. */
  predicate Readable(seclen: nat, d: Sectors, sector: nat) {
    1 <= sector <= |d| && |d[sector - 1]| == seclen
  }

  /** Files in use, files of DOS 2.5 beyond sector 719, and subdirectories; bit 5 says that an entry is locked. */
  predicate IsShown(status: byte) {
    var b: nat := status;
    (b / 64 == 1 && b % 4 == 2) || (b / 64 == 0 && b % 4 == 3) || b == 0x10 || b == 0x30
  }

  function ListedSlot(slot: seq<byte>, number: nat): Listed
    requires |slot| == 16
  {
    Listed(slot[0], WordValue(slot[3..]), WordValue(slot[1..]), slot[5..], number)
  }

  /** The sector of a slot, counted from the first of the directory, and its place there. */
  function SectorOf(per: nat, i: nat): nat {
    if per == 8 then i / 8 else i / 16
  }

  function PlaceOf(per: nat, i: nat): (at: nat)
    requires per == 8 || per == 16
    ensures at < per
  {
    if per == 8 then i % 8 else i % 16
  }

  function RawSlot(seclen: nat, d: Sectors, base: nat, per: nat, i: nat): (s: seq<byte>)
    requires (per == 8 && seclen >= 128) || (per == 16 && seclen >= 256)
    requires Readable(seclen, d, base + SectorOf(per, i))
    ensures |s| == 16
  {
    var at := PlaceOf(per, i) * 16;
    d[base + SectorOf(per, i) - 1][at..at + 16]
  }

  /** The slots from the `i`-th on, up to the first that was never used. */
  function ListFrom(seclen: nat, d: Sectors, base: nat, per: nat, i: nat): seq<Listed>
    requires (per == 8 && seclen >= 128) || (per == 16 && seclen >= 256)
    decreases 8 * per - i
  {
    if i >= 8 * per || !Readable(seclen, d, base + SectorOf(per, i)) then []
    else
      var slot := RawSlot(seclen, d, base, per, i);
      if slot[0] == 0 then []
      else (if IsShown(slot[0]) then [ListedSlot(slot, if per == 8 then i else 0)] else []) + ListFrom(seclen, d, base, per, i + 1)
  }

  /** The free sectors: on what is probably a DOS 2.5 disk there is a second count. */
  function CountedFree(seclen: nat, d: Sectors): nat
    requires seclen >= 128 && Readable(seclen, d, 360)
  {
    WordValue(d[359][3..])
    + if |d| == 1040 && seclen == 128 && d[359][0] == 2 && Readable(seclen, d, 1024) then WordValue(d[1023][122..]) else 0
  }

  /** Large disks with a directory of 16 slots to a sector. */
  predicate IsWide(seclen: nat, d: Sectors, base: nat)
    requires Readable(seclen, d, 360)
  {
    seclen == 256 && d[359][0] >= 3 && Readable(seclen, d, base) && d[base - 1][128] != 0
  }

  /** `GetDos2Directory`. */
  function GetDos2Directory(seclen: nat, d: Sectors, base: nat): Option<Listing> {
    if (seclen != 128 && seclen != 256) || |d| < base + 7 || !Readable(seclen, d, 360) then None
    else Some(Listing(CountedFree(seclen, d), ListFrom(seclen, d, base, if IsWide(seclen, d, base) then 16 else 8, 0)))
  }

  // ------------------------------------------------------------------
  // The loops
  // ------------------------------------------------------------------

  lemma {:induction false} SectorReadable(image: MemoryImage, sector: nat)
    requires image.Valid()
    ensures var c, d := image.config, image.Contents();
      Readable(c.sectorLength, d, sector) <==> 1 <= sector <= c.numberOfSectors && c.SectorLength(sector) == c.sectorLength
  {
  }

  /** Reads a sector of the usual length. */
  method ReadWhole(image: MemoryImage, sector: nat) returns (ok: bool, secbuf: seq<byte>)
    requires image.Valid()
    ensures ok <==> Readable(image.config.sectorLength, image.Contents(), sector)
    ensures ok ==> secbuf == image.Contents()[sector - 1]
  {
    SectorReadable(image, sector);
    ok, secbuf := image.ReadSector(sector, image.config.sectorLength);
  }

  /** The slots in front of the `k`-th sector. */
  function SlotsBefore(per: nat, k: nat): (n: nat)
    requires per == 8 || per == 16
    ensures SectorOf(per, n) == k && PlaceOf(per, n) == 0
  {
    if per == 8 then 8 * k else 16 * k
  }

  lemma {:induction false} SlotPosition(base: nat, per: nat, sector: nat, fileno: nat)
    requires (per == 8 || per == 16) && base <= sector && fileno < per
    ensures var i := SlotsBefore(per, sector - base) + fileno; base + SectorOf(per, i) == sector && PlaceOf(per, i) == fileno
    ensures sector < base + 8 <==> SlotsBefore(per, sector - base) + fileno < 8 * per
  {
    if per == 8 {
      assert (8 * (sector - base) + fileno) / 8 == sector - base;
    } else {
      assert (16 * (sector - base) + fileno) / 16 == sector - base;
    }
  }

  /** What a slot adds to the list. */
  function Shown(slot: seq<byte>, number: nat): seq<Listed>
    requires |slot| == 16
  {
    if IsShown(slot[0]) then [ListedSlot(slot, number)] else []
  }

  /** The lists from each slot on. */
  ghost function Tails(seclen: nat, d: Sectors, base: nat, per: nat): (t: seq<seq<Listed>>)
    requires (per == 8 && seclen >= 128) || (per == 16 && seclen >= 256)
    ensures |t| == 8 * per + 1
  {
    seq(8 * per + 1, i requires 0 <= i <= 8 * per => ListFrom(seclen, d, base, per, i))
  }

  /** How the lists from one slot of a sector and the next are related. */
  ghost predicate TailOk(t: seq<seq<Listed>>, s: seq<byte>, per: nat, k: nat, fileno: nat) {
    && (per == 8 || per == 16) && k < 8 && fileno < per && 16 * per <= |s| && |t| == 8 * per + 1
    && var i, slot := SlotsBefore(per, k) + fileno, s[fileno * 16..fileno * 16 + 16];
       i + 1 < |t| && t[i] == if slot[0] == 0 then [] else Shown(slot, if per == 8 then i else 0) + t[i + 1]
  }

  lemma {:induction false} TailAt(seclen: nat, d: Sectors, base: nat, per: nat, i: nat)
    requires ((per == 8 && seclen >= 128) || (per == 16 && seclen >= 256)) && i <= 8 * per
    ensures Tails(seclen, d, base, per)[i] == ListFrom(seclen, d, base, per, i)
  {
  }

  lemma {:induction false} ListHere(seclen: nat, d: Sectors, base: nat, per: nat, i: nat)
    requires ((per == 8 && seclen >= 128) || (per == 16 && seclen >= 256)) && i < 8 * per && Readable(seclen, d, base + SectorOf(per, i))
    ensures var slot := RawSlot(seclen, d, base, per, i);
      ListFrom(seclen, d, base, per, i)
      == if slot[0] == 0 then [] else Shown(slot, if per == 8 then i else 0) + ListFrom(seclen, d, base, per, i + 1)
  {
  }

  lemma {:induction false} TailsOk(seclen: nat, d: Sectors, base: nat, per: nat, k: nat, fileno: nat, s: seq<byte>, t: seq<seq<Listed>>)
    requires ((per == 8 && seclen >= 128) || (per == 16 && seclen >= 256)) && k < 8 && fileno < per && t == Tails(seclen, d, base, per)
    requires Readable(seclen, d, base + k) && s == d[base + k - 1]
    ensures TailOk(t, s, per, k, fileno)
  {
    var i := SlotsBefore(per, k) + fileno;
    RawSlotAt(seclen, d, base, per, k, fileno, s);
    TailAt(seclen, d, base, per, i);
    TailAt(seclen, d, base, per, i + 1);
    ListHere(seclen, d, base, per, i);
    TailOkWhen(t, s, per, k, fileno, t[i], t[i + 1]);
  }

  lemma {:induction false} TailOkWhen(t: seq<seq<Listed>>, s: seq<byte>, per: nat, k: nat, fileno: nat, here: seq<Listed>, more: seq<Listed>)
    requires (per == 8 || per == 16) && k < 8 && fileno < per && 16 * per <= |s| && |t| == 8 * per + 1
    requires var i := SlotsBefore(per, k) + fileno; i + 1 < |t| && here == t[i] && more == t[i + 1]
    requires var slot := s[fileno * 16..fileno * 16 + 16];
      here == if slot[0] == 0 then [] else Shown(slot, if per == 8 then SlotsBefore(per, k) + fileno else 0) + more
    ensures TailOk(t, s, per, k, fileno)
  {
  }

  lemma {:induction false} RawSlotAt(seclen: nat, d: Sectors, base: nat, per: nat, k: nat, fileno: nat, s: seq<byte>)
    requires ((per == 8 && seclen >= 128) || (per == 16 && seclen >= 256)) && k < 8 && fileno < per
    requires Readable(seclen, d, base + k) && s == d[base + k - 1]
    ensures var i := SlotsBefore(per, k) + fileno;
      && i < 8 * per && SectorOf(per, i) == k && 16 * per <= |s|
      && RawSlot(seclen, d, base, per, i) == s[fileno * 16..fileno * 16 + 16]
  {
    SlotPosition(base, per, base + k, fileno);
  }

  ghost predicate SlotTails(t: seq<seq<Listed>>, s: seq<byte>, per: nat, k: nat) {
    forall fileno: nat :: fileno < per ==> TailOk(t, s, per, k, fileno)
  }

  /** All that the loops need to know about the lists. */
  ghost predicate AreTails(t: seq<seq<Listed>>, seclen: nat, d: Sectors, base: nat, per: nat) {
    && (per == 8 || per == 16) && |t| == 8 * per + 1 && t[8 * per] == []
    && forall k: nat :: k < 8 ==> SectorTails(t, seclen, d, base, per, k)
  }

  ghost predicate SectorTails(t: seq<seq<Listed>>, seclen: nat, d: Sectors, base: nat, per: nat, k: nat)
    requires (per == 8 || per == 16) && |t| == 8 * per + 1 && k < 8
  {
    if Readable(seclen, d, base + k) then SlotTails(t, d[base + k - 1], per, k)
    else t[SlotsBefore(per, k)] == []
  }

  lemma {:induction false} SlotTailsOk(seclen: nat, d: Sectors, base: nat, per: nat, k: nat, s: seq<byte>, t: seq<seq<Listed>>)
    requires ((per == 8 && seclen >= 128) || (per == 16 && seclen >= 256)) && k < 8 && t == Tails(seclen, d, base, per)
    requires Readable(seclen, d, base + k) && s == d[base + k - 1]
    ensures SlotTails(t, s, per, k)
  {
    forall fileno: nat | fileno < per
      ensures TailOk(t, s, per, k, fileno)
    {
      TailsOk(seclen, d, base, per, k, fileno, s, t);
    }
  }

  lemma {:induction false} SectorTailsOk(seclen: nat, d: Sectors, base: nat, per: nat, k: nat)
    requires ((per == 8 && seclen >= 128) || (per == 16 && seclen >= 256)) && k < 8
    ensures SectorTails(Tails(seclen, d, base, per), seclen, d, base, per, k)
  {
    if Readable(seclen, d, base + k) {
      SlotTailsOk(seclen, d, base, per, k, d[base + k - 1], Tails(seclen, d, base, per));
    } else {
      NothingToList(seclen, d, base, per, base + k);
    }
  }

  lemma {:induction false} MakeTails(seclen: nat, d: Sectors, base: nat, per: nat) returns (t: seq<seq<Listed>>)
    requires (per == 8 && seclen >= 128) || (per == 16 && seclen >= 256)
    ensures AreTails(t, seclen, d, base, per) && t[0] == ListFrom(seclen, d, base, per, 0)
  {
    t := Tails(seclen, d, base, per);
    PastTheEnd(seclen, d, base, per);
    forall k: nat | k < 8
      ensures SectorTails(t, seclen, d, base, per, k)
    {
      SectorTailsOk(seclen, d, base, per, k);
    }
  }

  /** The inner loop: the slots of one sector, up to the first that was never used. */
  method ListSector(secbuf: seq<byte>, k: nat, per: nat, before: seq<Listed>, ghost t: seq<seq<Listed>>)
    returns (entries: seq<Listed>, done: bool)
    requires (per == 8 || per == 16) && k < 8 && |t| == 8 * per + 1 && 16 * per <= |secbuf|
    requires SlotTails(t, secbuf, per, k)
    ensures before + t[SlotsBefore(per, k)] == entries + if done then [] else t[SlotsBefore(per, k + 1)]
  {
    entries, done := before, false;
    ghost var goal := before + t[SlotsBefore(per, k)];
    var fileno := 0;
    while fileno < per
      invariant 0 <= fileno <= per && !done
      invariant goal == entries + t[SlotsBefore(per, k) + fileno]
    {
      entries, done := ListSlot(secbuf, k, per, fileno, entries, t);
      if done {
        return;
      }
      fileno := fileno + 1;
    }
  }

  /** One turn of the inner loop. */
  method ListSlot(secbuf: seq<byte>, k: nat, per: nat, fileno: nat, before: seq<Listed>, ghost t: seq<seq<Listed>>)
    returns (entries: seq<Listed>, done: bool)
    requires (per == 8 || per == 16) && k < 8 && fileno < per && |t| == 8 * per + 1 && 16 * per <= |secbuf|
    requires SlotTails(t, secbuf, per, k)
    ensures var i := SlotsBefore(per, k) + fileno; before + t[i] == entries + if done then [] else t[i + 1]
  {
    assert TailOk(t, secbuf, per, k, fileno);
    var slot := secbuf[fileno * 16..fileno * 16 + 16];
    entries, done := before, slot[0] == 0;
    if !done {
      entries := Append(slot, if per == 8 then k * 8 + fileno else 0, entries, t[SlotsBefore(per, k) + fileno + 1]);
    }
  }

  /** A slot that was used at some time. */
  method Append(slot: seq<byte>, number: nat, before: seq<Listed>, ghost more: seq<Listed>) returns (entries: seq<Listed>)
    requires |slot| == 16
    ensures before + (Shown(slot, number) + more) == entries + more
  {
    entries := before;
    if IsShown(slot[0]) {
      entries := entries + [ListedSlot(slot, number)];
    }
    Reassociate(before, Shown(slot, number), more);
    assert before + [] == before;
  }

  /** How many slots there are to a sector, decided at the first. */
  method SlotsPerSector(secbuf: seq<byte>, ghost d: Sectors, ghost dirSector: nat, isBigImage: bool, k: nat, before: nat) returns (per: nat)
    requires Readable(|secbuf|, d, 360) && (|secbuf| == 128 || |secbuf| == 256) && isBigImage == (|secbuf| == 256 && d[359][0] >= 3)
    requires Readable(|secbuf|, d, dirSector + k) && secbuf == d[dirSector + k - 1]
    requires before == if k > 0 && IsWide(|secbuf|, d, dirSector) then 16 else 8
    ensures per == if IsWide(|secbuf|, d, dirSector) then 16 else 8
  {
    per := before;
    if isBigImage && k == 0 && secbuf[128] != 0 {
      per := 16;
    }
  }

  /** The loop over the sectors. */
  method ListEntries(image: MemoryImage, dirSector: nat, isBigImage: bool) returns (entries: seq<Listed>)
    requires image.Valid() && Readable(image.config.sectorLength, image.Contents(), 360) && image.config.sectorLength in {128, 256}
    requires isBigImage == (image.config.sectorLength == 256 && image.Contents()[359][0] >= 3)
    ensures var n, d := image.config.sectorLength, image.Contents();
      entries == ListFrom(n, d, dirSector, if IsWide(n, d, dirSector) then 16 else 8, 0)
  {
    ghost var n, d := image.config.sectorLength, image.Contents();
    ghost var wide := if IsWide(n, d, dirSector) then 16 else 8;
    ghost var t := MakeTails(n, d, dirSector, wide);
    entries := ListSectors(image, dirSector, isBigImage, t, wide);
  }

  method ListSectors(image: MemoryImage, dirSector: nat, isBigImage: bool, ghost t: seq<seq<Listed>>, ghost wide: nat)
    returns (entries: seq<Listed>)
    requires image.Valid() && Readable(image.config.sectorLength, image.Contents(), 360) && image.config.sectorLength in {128, 256}
    requires isBigImage == (image.config.sectorLength == 256 && image.Contents()[359][0] >= 3)
    requires wide == if IsWide(image.config.sectorLength, image.Contents(), dirSector) then 16 else 8
    requires AreTails(t, image.config.sectorLength, image.Contents(), dirSector, wide)
    ensures entries == t[0]
  {
    entries := [];
    var k, per, done := 0, 8, false;
    while !done
      invariant 0 <= k <= 8 && (k > 0 ==> per == wide) && (k == 0 ==> per == 8)
      invariant if done then entries == t[0] else k < 8 && entries + t[SlotsBefore(wide, k)] == t[0]
      decreases 8 - k, !done
    {
      var ok, secbuf := ReadWhole(image, dirSector + k);
      if !ok {
        assert SectorTails(t, image.config.sectorLength, image.Contents(), dirSector, wide, k) && entries + [] == entries;
        return;
      }
      per := SlotsPerSector(secbuf, image.Contents(), dirSector, isBigImage, k, per);
      entries, done := ListWhole(image, secbuf, dirSector, k, per, entries, t);
      k := k + 1;
      if !done && k == 8 {
        assert SlotsBefore(wide, 8) == 8 * wide && entries + [] == entries;
        done := true;
      }
    }
  }

  method ListWhole(image: MemoryImage, secbuf: seq<byte>, dirSector: nat, k: nat, per: nat, before: seq<Listed>, ghost t: seq<seq<Listed>>)
    returns (entries: seq<Listed>, done: bool)
    requires image.Valid() && k < 8 && Readable(image.config.sectorLength, image.Contents(), dirSector + k)
    requires AreTails(t, image.config.sectorLength, image.Contents(), dirSector, per)
    requires secbuf == image.Contents()[dirSector + k - 1]
    ensures if done then entries == before + t[SlotsBefore(per, k)] else entries + t[SlotsBefore(per, k + 1)] == before + t[SlotsBefore(per, k)]
  {
    assert SectorTails(t, image.config.sectorLength, image.Contents(), dirSector, per, k);
    assert TailOk(t, secbuf, per, k, 0);
    entries, done := ListSector(secbuf, k, per, before, t);
    assert entries + [] == entries;
  }

  lemma {:induction false} PastTheEnd(seclen: nat, d: Sectors, base: nat, per: nat)
    requires (per == 8 && seclen >= 128) || (per == 16 && seclen >= 256)
    ensures Tails(seclen, d, base, per)[8 * per] == []
    ensures Tails(seclen, d, base, per)[0] == ListFrom(seclen, d, base, per, 0)
  {
  }

  lemma {:induction false} NothingToList(seclen: nat, d: Sectors, base: nat, per: nat, sector: nat)
    requires ((per == 8 && seclen >= 128) || (per == 16 && seclen >= 256)) && base <= sector < base + 8 && !Readable(seclen, d, sector)
    ensures Tails(seclen, d, base, per)[SlotsBefore(per, sector - base)] == []
  {
    SlotPosition(base, per, sector, 0);
  }

  /** `GetDos2Directory`, on the image. */
  method ReadDirectory(image: MemoryImage, dirSector: nat) returns (dir: Option<Listing>)
    requires image.Valid()
    ensures dir == GetDos2Directory(image.config.sectorLength, image.Contents(), dirSector)
  {
    var seclen := image.config.sectorLength;
    if seclen != 128 && seclen != 256 {
      return None;
    }
    if image.config.numberOfSectors < dirSector + 7 {
      return None;
    }
    var ok, secbuf := ReadWhole(image, 360);
    if !ok {
      return None;
    }
    var isBigImage := seclen == 256 && secbuf[0] >= 3;
    var free := CountFree(image, secbuf);
    var entries := ListEntries(image, dirSector, isBigImage);
    dir := Some(Listing(free, entries));
  }

  method CountFree(image: MemoryImage, vtoc: seq<byte>) returns (free: nat)
    requires image.Valid() && image.config.sectorLength >= 128 && Readable(image.config.sectorLength, image.Contents(), 360)
    requires vtoc == image.Contents()[359]
    ensures free == CountedFree(image.config.sectorLength, image.Contents())
  {
    free := WordValue(vtoc[3..]);
    if image.config.numberOfSectors == 1040 && image.config.sectorLength == 128 && vtoc[0] == 2 {
      var ok, secbuf := ReadWhole(image, 1024);
      if ok {
        free := free + WordValue(secbuf[122..]);
      }
    }
  }

  // ------------------------------------------------------------------
  // Directories without deleted entries
  // ------------------------------------------------------------------

  /** The first `n` slots are all shown. */
  predicate AllShown(seclen: nat, d: Sectors, base: nat, n: nat)
    requires seclen >= 128 && n <= 64 && forall s :: base <= s < base + 8 ==> Readable(seclen, d, s)
  {
    forall e: nat :: e < n ==> IsShown(RawSlot(seclen, d, base, 8, e)[0])
  }

  lemma {:induction false} ListStep(seclen: nat, d: Sectors, base: nat, i: nat, n: nat)
    requires seclen >= 128 && i < n <= 64 && forall s :: base <= s < base + 8 ==> Readable(seclen, d, s)
    requires AllShown(seclen, d, base, n)
    ensures ListFrom(seclen, d, base, 8, i)
      == [ListedSlot(RawSlot(seclen, d, base, 8, i), i)] + ListFrom(seclen, d, base, 8, i + 1)
  {
    assert IsShown(RawSlot(seclen, d, base, 8, i)[0]);
  }

  /** While all slots are shown, they are listed one by one. */
  lemma {:induction false} ListedBefore(seclen: nat, d: Sectors, base: nat, i: nat, n: nat)
    requires seclen >= 128 && i <= n <= 64 && forall s :: base <= s < base + 8 ==> Readable(seclen, d, s)
    requires AllShown(seclen, d, base, n)
    ensures var l := ListFrom(seclen, d, base, 8, i); |l| >= n - i && l[n - i..] == ListFrom(seclen, d, base, 8, n)
    decreases n - i
  {
    if i < n {
      ListStep(seclen, d, base, i, n);
      ListedBefore(seclen, d, base, i + 1, n);
    }
  }

  lemma {:induction false} ListedAt(seclen: nat, d: Sectors, base: nat, i: nat, n: nat, e: nat)
    requires seclen >= 128 && i <= e < n <= 64 && forall s :: base <= s < base + 8 ==> Readable(seclen, d, s)
    requires AllShown(seclen, d, base, n)
    ensures var l := ListFrom(seclen, d, base, 8, i); |l| > e - i && l[e - i] == ListedSlot(RawSlot(seclen, d, base, 8, e), e)
    decreases e - i
  {
    ListStep(seclen, d, base, i, n);
    if i < e {
      ListedAt(seclen, d, base, i + 1, n, e);
    }
  }

  /** The rest of the list depends on the rest of the slots only. */
  lemma {:induction false} SameTail(seclen: nat, d: Sectors, r: Sectors, base: nat, i: nat)
    requires seclen >= 128 && i <= 64
    requires forall s :: base <= s < base + 8 ==> Readable(seclen, d, s) && Readable(seclen, r, s)
    requires forall e: nat :: i <= e < 64 ==> RawSlot(seclen, r, base, 8, e) == RawSlot(seclen, d, base, 8, e)
    ensures ListFrom(seclen, r, base, 8, i) == ListFrom(seclen, d, base, 8, i)
    decreases 64 - i
  {
    if i < 64 {
      assert RawSlot(seclen, r, base, 8, i) == RawSlot(seclen, d, base, 8, i);
      SameTail(seclen, d, r, base, i + 1);
    }
  }

  /** The list ends at the first slot with status 0. */
  lemma {:induction false} ListEnds(seclen: nat, d: Sectors, base: nat, i: nat)
    requires seclen >= 128 && (i < 64 && Readable(seclen, d, base + i / 8) ==> RawSlot(seclen, d, base, 8, i)[0] == 0)
    ensures ListFrom(seclen, d, base, 8, i) == []
  {
  }
}
