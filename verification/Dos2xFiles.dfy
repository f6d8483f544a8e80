/** Adding files and directories to a DOS disk: `AddFile`, `AddDataBlock`, `AddDirectory`. */
module Dos2xFiles {
  import opened Bytes
  import opened AtrImage
  import opened Dos2xVolume
  import opened Dos2xInit
  import opened Dos2xAlloc
  import opened Dos2xChain
  import opened Dos2xNames

  // ------------------------------------------------------------------
  // Directory slots
  // ------------------------------------------------------------------

  type Slot = s: seq<byte> | |s| == 16 witness Zeros(16)

  /** The eight sectors of a directory lie on the disk. */
  predicate IsDirectory(v: Volume, base: nat) {
    4 <= base && base + 7 <= v.numsec
  }

  /** The sector that holds a slot; there are eight slots of 16 bytes in a sector. */
  function SlotSector(base: nat, entry: nat): nat {
    base + entry / 8
  }

  function SlotAt(v: Volume, d: Sectors, base: nat, entry: nat): Slot
    requires v.Legal() && Shaped(v, d) && IsDirectory(v, base) && entry < MAX_ENTRIES
  {
    d[SlotSector(base, entry) - 1][entry % 8 * 16..entry % 8 * 16 + 16]
  }

  function PutSlot(v: Volume, d: Sectors, base: nat, entry: nat, slot: Slot): (r: Sectors)
    requires v.Legal() && Shaped(v, d) && IsDirectory(v, base) && entry < MAX_ENTRIES
    ensures Shaped(v, r)
  {
    var s, at := d[SlotSector(base, entry) - 1], entry % 8 * 16;
    d[SlotSector(base, entry) - 1 := s[..at] + slot + s[at + 16..]]
  }

  /** A slot that was put is there, and all others are as before. */
  lemma {:induction false} PutSlotPuts(v: Volume, d: Sectors, base: nat, entry: nat, slot: Slot)
    requires v.Legal() && Shaped(v, d) && IsDirectory(v, base) && entry < MAX_ENTRIES
    ensures SlotAt(v, PutSlot(v, d, base, entry, slot), base, entry) == slot
  {
  }

  lemma {:induction false} PutSlotKeeps(v: Volume, d: Sectors, base: nat, entry: nat, slot: Slot, other: nat)
    requires v.Legal() && Shaped(v, d) && IsDirectory(v, base) && entry < MAX_ENTRIES && other < MAX_ENTRIES
    requires entry != other
    ensures SlotAt(v, PutSlot(v, d, base, entry, slot), base, other) == SlotAt(v, d, base, other)
  {
    if SlotSector(base, entry) == SlotSector(base, other) {
      SpliceKeeps(d[SlotSector(base, entry) - 1], entry % 8 * 16, slot, other % 8 * 16);
    }
  }

  lemma {:induction false} SpliceKeeps(s: seq<byte>, at: nat, slot: Slot, other: nat)
    requires at + 16 <= |s| && other + 16 <= |s| && (other + 16 <= at || at + 16 <= other)
    ensures (s[..at] + slot + s[at + 16..])[other..other + 16] == s[other..other + 16]
  {
  }

  /** The status byte of a slot after `InitVTOC`: cleared, or in the eighth sector what it was. */
  lemma {:induction false} FreshStatus(v: Volume, d: Sectors, boot: Sectors, e: nat)
    requires v.Legal() && Shaped(v, d) && IsBoot(boot) && e < MAX_ENTRIES
    ensures SlotAt(v, InitVtoc(v, d, boot), DIR_SECTOR, e)[0] == if e < 56 then 0 else d[DIR_SECTOR + 6][16 * (e - 56)]
  {
    var r := InitVtoc(v, d, boot);
    SlotPlace(e);
    FreshDirSector(v, d, boot, SlotSector(DIR_SECTOR, e));
    StatusOfSlot(v, r, e);
  }

  lemma {:induction false} SlotPlace(e: nat)
    requires e < MAX_ENTRIES
    ensures DIR_SECTOR <= SlotSector(DIR_SECTOR, e) < DIR_SECTOR + 8
    ensures SlotSector(DIR_SECTOR, e) < DIR_SECTOR + 7 <==> e < 56
    ensures e >= 56 ==> e % 8 * 16 == 16 * (e - 56)
  {
  }

  lemma {:induction false} StatusOfSlot(v: Volume, r: Sectors, e: nat)
    requires v.Legal() && Shaped(v, r) && e < MAX_ENTRIES
    ensures SlotAt(v, r, DIR_SECTOR, e)[0] == r[SlotSector(DIR_SECTOR, e) - 1][e % 8 * 16]
  {
  }

  lemma {:induction false} FreshDirSector(v: Volume, d: Sectors, boot: Sectors, s: nat)
    requires v.Legal() && Shaped(v, d) && IsBoot(boot) && DIR_SECTOR <= s < DIR_SECTOR + 8
    ensures InitVtoc(v, d, boot)[s - 1] == if s < DIR_SECTOR + 7 then Zeros(v.seclen) else d[s - 1]
  {
    InitVtocCorrect(v, d, boot);
    assert IsClearedDirSector(s) <==> s < DIR_SECTOR + 7;
  }

  /** The root directory is empty after `InitVTOC` exactly if its eighth sector had no entries before. */
  lemma {:induction false} RootEmptyIff(v: Volume, d: Sectors, boot: Sectors)
    requires v.Legal() && Shaped(v, d) && IsBoot(boot)
    ensures (forall e: nat :: e < MAX_ENTRIES ==> SlotAt(v, InitVtoc(v, d, boot), DIR_SECTOR, e)[0] == 0)
      <==> (forall i :: 0 <= i < 8 ==> d[DIR_SECTOR + 6][16 * i] == 0)
  {
    forall e: nat | e < MAX_ENTRIES
      ensures SlotAt(v, InitVtoc(v, d, boot), DIR_SECTOR, e)[0] == if e < 56 then 0 else d[DIR_SECTOR + 6][16 * (e - 56)]
    {
      FreshStatus(v, d, boot, e);
    }
    if forall e: nat :: e < MAX_ENTRIES ==> SlotAt(v, InitVtoc(v, d, boot), DIR_SECTOR, e)[0] == 0 {
      forall i | 0 <= i < 8
        ensures d[DIR_SECTOR + 6][16 * i] == 0
      {
        assert SlotAt(v, InitVtoc(v, d, boot), DIR_SECTOR, 56 + i)[0] == 0;
      }
    }
  }

  /** The status byte of a file. */
  function FileStatus(v: Volume, above720: bool): byte
    requires v.Legal()
  {
    if above720 && v.Dos25() then 0x03 else if v.Link16() then 0x46 else 0x42
  }

  const DIRECTORY_STATUS: byte := 0x10

  /** The 16 bytes `SetAtariDirectory` writes. */
  function SlotBytes(status: byte, count: nat, start: nat, name: Name): Slot {
    [status] + Word(count) + Word(start) + name
  }

  function SlotStart(slot: Slot): nat {
    WordValue(slot[3..])
  }

  function SlotCount(slot: Slot): nat {
    WordValue(slot[1..])
  }

  function SlotName(slot: Slot): seq<byte> {
    slot[5..]
  }

  /** The status of a file: in use, with 10 or 16 bit links; DOS 2.5 has another one for files beyond sector 719. */
  predicate FileStatusTells(v: Volume, status: byte, sectors: seq<nat>)
    requires v.Legal()
  {
    var b: nat := status;
    && b / 8 % 8 == 0 && (b / 4 % 2 == 1 <==> v.Link16())
    && if v.Dos25() && exists i :: 0 <= i < |sectors| && sectors[i] >= 720 then b / 64 == 0 && b % 4 == 3 else b / 64 == 1 && b % 4 == 2
  }

  /** The number of sectors, the first sector and the name in a slot. */
  predicate SlotTells(slot: Slot, count: nat, start: nat, name: Name) {
    var a: nat, b: nat, c: nat, e: nat := slot[1], slot[2], slot[3], slot[4];
    a + 256 * b == count && c + 256 * e == start && slot[5..] == name
  }

  lemma {:induction false} SlotBytesTell(status: byte, count: nat, start: nat, name: Name)
    requires count < 0x1_0000 && start < 0x1_0000
    ensures SlotBytes(status, count, start, name)[0] == status && SlotTells(SlotBytes(status, count, start, name), count, start, name)
  {
    SlotReads(status, count, start, name);
  }

  lemma {:induction false} FileStatusIsRight(v: Volume, sectors: seq<nat>)
    requires v.Legal()
    ensures FileStatusTells(v, FileStatus(v, Above720(sectors)), sectors)
  {
  }

  lemma {:induction false} SlotReads(status: byte, count: nat, start: nat, name: Name)
    requires count < 0x1_0000 && start < 0x1_0000
    ensures var s := SlotBytes(status, count, start, name);
      s[0] == status && SlotCount(s) == count && SlotStart(s) == start && SlotName(s) == name
  {
    var s := SlotBytes(status, count, start, name);
    assert s[1..] == Word(count) + (Word(start) + name);
    assert s[3..] == Word(start) + name;
    assert s[5..] == name;
    WordRoundTrip(count, Word(start) + name);
    WordRoundTrip(start, name);
  }

  // ------------------------------------------------------------------
  // The operations
  // ------------------------------------------------------------------

  /** What an operation leaves: the disk, the names in the directory, and the sectors it handed out. */
  datatype Outcome = Outcome(ok: bool, disk: Sectors, names: seq<Name>, sectors: seq<nat>)

  ghost predicate CanAdd(v: Volume, d: Sectors, base: nat, names: seq<Name>) {
    VtocOk(v, d) && IsDirectory(v, base) && |names| <= MAX_ENTRIES
  }

  const MAX_FILE_LEN := 0x100_0000

  predicate Above720(sectors: seq<nat>) {
    exists i :: 0 <= i < |sectors| && sectors[i] >= 720
  }

  /** Writes a file to the sectors allocated for it, and its directory slot. */
  function StoreFile(v: Volume, d: Sectors, base: nat, entry: nat, name: Name, data: seq<byte>, sectors: seq<nat>): (r: Sectors)
    requires v.Legal() && Shaped(v, d) && IsDirectory(v, base) && entry < MAX_ENTRIES
    requires AllInRange(v, sectors) && |sectors| > 0
    ensures Shaped(v, r)
  {
    PutSlot(v, WriteChain(v, d, data, sectors, entry), base, entry,
            SlotBytes(FileStatus(v, Above720(sectors)), |sectors|, sectors[0], name))
  }

  lemma {:induction false} TookUsable(v: Volume, d: Sectors, a: Allocation)
    requires Took(v, d, a)
    ensures AllInRange(v, a.sectors) && Distinct(a.sectors)
    ensures forall i :: 0 <= i < |a.sectors| ==> !IsVtocSector(v, a.sectors[i])
    ensures Linkable(v, a.sectors)
  {
    VtocBounds(v);
    forall i: nat | i < |a.sectors|
      ensures InRange(v, a.sectors[i]) && !IsVtocSector(v, a.sectors[i]) && a.sectors[i] <= v.LastSector()
    {
      TookAllocatable(v, d, a, i);
    }
  }

  lemma {:induction false} FileAllocationUsable(v: Volume, d: Sectors, num: nat)
    requires VtocOk(v, d)
    ensures var a := AllocFile(v, d, num); a.ok ==> AllInRange(v, a.sectors) && |a.sectors| == num && VtocOk(v, a.disk)
  {
    AllocFileCorrect(v, d, num);
    if AllocFile(v, d, num).ok {
      TookUsable(v, d, AllocFile(v, d, num));
    }
  }

  lemma {:induction false} DirectoryAllocationUsable(v: Volume, d: Sectors)
    requires VtocOk(v, d)
    ensures var a := AllocDirectory(v, d);
      a.ok ==> |a.sectors| == 8 && IsDirectory(v, a.sectors[0]) && VtocOk(v, a.disk) && a.sectors == Octet(a.sectors[0])
  {
    if AllocDirectory(v, d).ok {
      AllocDirectoryCorrect(v, d);
      TookUsable(v, d, AllocDirectory(v, d));
      assert InRange(v, AllocDirectory(v, d).sectors[0]) && InRange(v, AllocDirectory(v, d).sectors[7]);
    }
  }

  /** `AddDataBlock`, and with `rename` the part of `AddFile` after the file has been read. */
  function AddData(v: Volume, d: Sectors, base: nat, names: seq<Name>, name: Name, rename: bool, data: seq<byte>): (r: Outcome)
    requires CanAdd(v, d, base, names)
    ensures Shaped(v, r.disk) && |r.names| <= MAX_ENTRIES
  {
    var n := FileSectors(v, |data|);
    if n > StoredFree(v, d) then Outcome(false, d, names, [])
    else
      match AddEntry(names, name, rename)
      case None => Outcome(false, d, names, [])
      case Some(names2) =>
        var a := AllocFile(v, d, n);
        FileAllocationUsable(v, d, n);
        if !a.ok then Outcome(false, a.disk, names2, [])
        else
          Outcome(true, StoreFile(v, a.disk, base, |names|, names2[|names|], data, a.sectors), names2, a.sectors)
  }

  /** `AddFile`: the name is made unique, and the file is cut off at 16 megabytes. */
  function AddFile(v: Volume, d: Sectors, base: nat, names: seq<Name>, name: Name, data: seq<byte>): (r: Outcome)
    requires CanAdd(v, d, base, names)
    ensures Shaped(v, r.disk) && |r.names| <= MAX_ENTRIES
  {
    AddData(v, d, base, names, name, true, if |data| > MAX_FILE_LEN then data[..MAX_FILE_LEN] else data)
  }

  /** Clears the sectors of a new directory and writes its slot in the parent. */
  function StoreDirectory(v: Volume, d: Sectors, base: nat, entry: nat, name: Name, first: nat): (r: Sectors)
    requires v.Legal() && Shaped(v, d) && IsDirectory(v, base) && IsDirectory(v, first) && entry < MAX_ENTRIES
    ensures Shaped(v, r)
  {
    PutSlot(v, ClearSectors(v, d, first, 8), base, entry, SlotBytes(DIRECTORY_STATUS, 8, first, name))
  }

  /** `AddDirectory`. */
  function AddDirectory(v: Volume, d: Sectors, base: nat, names: seq<Name>, name: Name): (r: Outcome)
    requires CanAdd(v, d, base, names)
    ensures Shaped(v, r.disk) && |r.names| <= MAX_ENTRIES
  {
    if |names| == MAX_ENTRIES then Outcome(false, d, names, [])
    else
      var a := AllocDirectory(v, d);
      DirectoryAllocationUsable(v, d);
      if !a.ok then Outcome(false, a.disk, names, [])
      else
        match AddEntry(names, name, true)
        case None => Outcome(false, a.disk, names, [])
        case Some(names2) =>
          Outcome(true, StoreDirectory(v, a.disk, base, |names|, names2[|names|], a.sectors[0]), names2, a.sectors)
  }

  // ------------------------------------------------------------------
  // What the operations do
  // ------------------------------------------------------------------

  /** Sectors in use by a file or directory, as far as the VTOC is concerned. */
  ghost predicate Occupied(v: Volume, d: Sectors, sectors: seq<nat>)
    requires v.Legal() && Shaped(v, d)
  {
    forall i :: 0 <= i < |sectors| ==> OccupiedSector(v, d, sectors[i])
  }

  ghost predicate OccupiedSector(v: Volume, d: Sectors, s: nat)
    requires v.Legal() && Shaped(v, d)
  {
    InRange(v, s) && s < v.Capacity() && !IsVtocSector(v, s) && !IsFree(v, d, s)
  }

  predicate Apart(a: seq<nat>, b: seq<nat>) {
    forall i, j :: 0 <= i < |a| && 0 <= j < |b| ==> a[i] != b[j]
  }

  /** Two directory sectors differ in one slot at most; in 256-byte sectors the second half is the same, too. */
  predicate SameButSlot(s: seq<byte>, t: seq<byte>, entry: nat) {
    |s| == |t| && forall j :: 0 <= j < |s| && !(entry % 8 * 16 <= j < entry % 8 * 16 + 16) ==> t[j] == s[j]
  }

  /** All an operation changes: bits and counts of the VTOC, the sectors it was given, and one directory slot. */
  ghost predicate ChangesOnly(v: Volume, d: Sectors, r: Sectors, sectors: seq<nat>, base: nat, entry: nat) {
    && v.Legal() && Shaped(v, d) && Shaped(v, r) && IsDirectory(v, base) && entry < MAX_ENTRIES && LabelKept(v, d, r)
    && SameButSlot(d[SlotSector(base, entry) - 1], r[SlotSector(base, entry) - 1], entry)
    && (forall s :: 1 <= s <= v.numsec && !IsVtocSector(v, s) && s !in sectors && s != SlotSector(base, entry)
          ==> r[s - 1] == d[s - 1])
    && (forall e: nat :: e < MAX_ENTRIES && e != entry ==> SlotAt(v, r, base, e) == SlotAt(v, d, base, e))
  }

  /** A VTOC stays good as long as its own sectors are left alone. */
  lemma {:induction false} VtocOkFrame(v: Volume, d: Sectors, r: Sectors)
    requires VtocOk(v, d) && Shaped(v, r)
    requires forall s :: 1 <= s <= v.numsec && IsVtocSector(v, s) ==> r[s - 1] == d[s - 1]
    ensures VtocOk(v, r) && FreeSet(v, r) == FreeSet(v, d)
  {
    VtocSectorsDecide(v, d, r);
    SameBitsSameFree(v, d, r, 0, LowEnd(v));
    SameBitsSameFree(v, d, r, 0, v.Capacity());
    if v.Dos25() {
      SameBitsSameFree(v, d, r, 720, 1024);
    }
  }

  lemma {:induction false} TookApart(v: Volume, d: Sectors, a: Allocation, used: seq<nat>)
    requires Took(v, d, a) && Occupied(v, d, used)
    ensures Apart(a.sectors, used) && Occupied(v, a.disk, used)
  {
    forall i, j | 0 <= i < |a.sectors| && 0 <= j < |used|
      ensures a.sectors[i] != used[j]
    {
      assert OccupiedSector(v, d, used[j]);
    }
    forall j | 0 <= j < |used|
      ensures OccupiedSector(v, a.disk, used[j])
    {
      assert OccupiedSector(v, d, used[j]);
    }
  }

  lemma {:induction false} TookOccupied(v: Volume, d: Sectors, a: Allocation)
    requires Took(v, d, a)
    ensures Occupied(v, a.disk, a.sectors)
  {
    TookUsable(v, d, a);
  }

  /** Writing a file's sectors and slot, seen from a sector that is neither. */
  lemma {:induction false} StoreFileElsewhere(v: Volume, d: Sectors, base: nat, entry: nat, name: Name, data: seq<byte>, sectors: seq<nat>, s: nat)
    requires v.Legal() && Shaped(v, d) && IsDirectory(v, base) && entry < MAX_ENTRIES
    requires AllInRange(v, sectors) && |sectors| > 0
    requires 1 <= s <= v.numsec && s !in sectors && s != SlotSector(base, entry)
    ensures StoreFile(v, d, base, entry, name, data, sectors)[s - 1] == d[s - 1]
  {
    WriteSectorsElsewhere(v, d, sectors, ChainContents(v, data, sectors, entry), |sectors|, s);
  }

  /** Putting a slot keeps every sector but one. */
  lemma {:induction false} PutSlotElsewhere(v: Volume, d: Sectors, base: nat, entry: nat, slot: Slot, s: nat)
    requires v.Legal() && Shaped(v, d) && IsDirectory(v, base) && entry < MAX_ENTRIES
    requires 1 <= s <= v.numsec && s != SlotSector(base, entry)
    ensures PutSlot(v, d, base, entry, slot)[s - 1] == d[s - 1]
  {
  }

  lemma {:induction false} DirectorySectors(v: Volume, base: nat, entry: nat)
    requires IsDirectory(v, base) && entry < MAX_ENTRIES
    ensures exists i :: 0 <= i < 8 && SlotSector(base, entry) == Octet(base)[i]
  {
    assert SlotSector(base, entry) == Octet(base)[entry / 8];
  }

  /** Any directory slot depends on the sectors of its directory only. */
  lemma {:induction false} SlotFrame(v: Volume, d: Sectors, r: Sectors, base: nat, e: nat)
    requires v.Legal() && Shaped(v, d) && Shaped(v, r) && IsDirectory(v, base) && e < MAX_ENTRIES
    requires r[SlotSector(base, e) - 1] == d[SlotSector(base, e) - 1]
    ensures SlotAt(v, r, base, e) == SlotAt(v, d, base, e)
  {
  }

  lemma {:induction false} ChainKeepsDirectory(v: Volume, d: Sectors, base: nat, data: seq<byte>, sectors: seq<nat>, entry: nat, e: nat)
    requires v.Legal() && Shaped(v, d) && IsDirectory(v, base) && entry < MAX_ENTRIES && e < MAX_ENTRIES
    requires AllInRange(v, sectors) && Apart(sectors, Octet(base))
    ensures WriteChain(v, d, data, sectors, entry)[SlotSector(base, e) - 1] == d[SlotSector(base, e) - 1]
  {
    DirectorySectors(v, base, e);
    WriteSectorsElsewhere(v, d, sectors, ChainContents(v, data, sectors, entry), |sectors|, SlotSector(base, e));
  }

  lemma {:induction false} StoreFileSlots(v: Volume, d: Sectors, base: nat, entry: nat, name: Name, data: seq<byte>, sectors: seq<nat>, e: nat)
    requires v.Legal() && Shaped(v, d) && IsDirectory(v, base) && entry < MAX_ENTRIES && e < MAX_ENTRIES
    requires AllInRange(v, sectors) && |sectors| > 0 && Apart(sectors, Octet(base)) && e != entry
    ensures SlotAt(v, StoreFile(v, d, base, entry, name, data, sectors), base, e) == SlotAt(v, d, base, e)
  {
    var w := WriteChain(v, d, data, sectors, entry);
    ChainKeepsDirectory(v, d, base, data, sectors, entry, e);
    SlotFrame(v, d, w, base, e);
    PutSlotKeeps(v, w, base, entry, SlotBytes(FileStatus(v, Above720(sectors)), |sectors|, sectors[0], name), e);
  }

  lemma {:induction false} StoreFileHolds(v: Volume, d: Sectors, base: nat, entry: nat, name: Name, data: seq<byte>, sectors: seq<nat>)
    requires v.Legal() && Shaped(v, d) && IsDirectory(v, base) && entry < MAX_ENTRIES
    requires AllInRange(v, sectors) && Distinct(sectors) && |sectors| == FileSectors(v, |data|) && Apart(sectors, Octet(base))
    ensures HoldsChain(v, StoreFile(v, d, base, entry, name, data, sectors), data, sectors, entry)
  {
    var w := WriteChain(v, d, data, sectors, entry);
    var slot := SlotBytes(FileStatus(v, Above720(sectors)), |sectors|, sectors[0], name);
    WriteChainHolds(v, d, data, sectors, entry);
    DirectorySectors(v, base, entry);
    forall i | 0 <= i < |sectors|
      ensures PutSlot(v, w, base, entry, slot)[sectors[i] - 1] == w[sectors[i] - 1]
    {
      PutSlotElsewhere(v, w, base, entry, slot, sectors[i]);
    }
    HoldsChainFrame(v, w, PutSlot(v, w, base, entry, slot), data, sectors, entry);
  }

  /** The directory slot of a stored file. */
  function FileSlot(v: Volume, sectors: seq<nat>, name: Name): Slot
    requires v.Legal() && |sectors| > 0
  {
    SlotBytes(FileStatus(v, Above720(sectors)), |sectors|, sectors[0], name)
  }

  /** A stored file: its sectors hold the data as a chain, and its slot names the first of them. */
  ghost predicate Stored(v: Volume, r: Sectors, base: nat, entry: nat, name: Name, data: seq<byte>, sectors: seq<nat>) {
    && v.Legal() && Shaped(v, r) && IsDirectory(v, base) && entry < MAX_ENTRIES && AllInRange(v, sectors) && |sectors| > 0
    && HoldsChain(v, r, data, sectors, entry)
    && SlotAt(v, r, base, entry) == FileSlot(v, sectors, name)
  }

  /** Storing a file in sectors just allocated. */
  lemma {:induction false} StoreFileStores(v: Volume, d: Sectors, a: Allocation, base: nat, entry: nat, name: Name, data: seq<byte>)
    requires Took(v, d, a) && |a.sectors| == FileSectors(v, |data|) && AllInRange(v, a.sectors)
    requires IsDirectory(v, base) && entry < MAX_ENTRIES && Occupied(v, d, Octet(base))
    ensures var r := StoreFile(v, a.disk, base, entry, name, data, a.sectors);
      Stored(v, r, base, entry, name, data, a.sectors) && ChangesOnly(v, d, r, a.sectors, base, entry)
  {
    var r := StoreFile(v, a.disk, base, entry, name, data, a.sectors);
    TookUsable(v, d, a);
    TookApart(v, d, a, Octet(base));
    StoreFileHolds(v, a.disk, base, entry, name, data, a.sectors);
    PutSlotPuts(v, WriteChain(v, a.disk, data, a.sectors, entry), base, entry, FileSlot(v, a.sectors, name));
    StoreFileChanges(v, d, a, base, entry, name, data);
  }

  lemma {:induction false} StoreFileChanges(v: Volume, d: Sectors, a: Allocation, base: nat, entry: nat, name: Name, data: seq<byte>)
    requires Took(v, d, a) && AllInRange(v, a.sectors) && |a.sectors| > 0
    requires IsDirectory(v, base) && entry < MAX_ENTRIES && Occupied(v, d, Octet(base)) && Apart(a.sectors, Octet(base))
    ensures ChangesOnly(v, d, StoreFile(v, a.disk, base, entry, name, data, a.sectors), a.sectors, base, entry)
  {
    var r := StoreFile(v, a.disk, base, entry, name, data, a.sectors);
    StoreFileSlotSector(v, d, a, base, entry, name, data);
    StoreFileLabel(v, d, a, base, entry, name, data);
    forall s: nat | 1 <= s <= v.numsec && !IsVtocSector(v, s) && s !in a.sectors && s != SlotSector(base, entry)
      ensures r[s - 1] == d[s - 1]
    {
      StoreFileElsewhere(v, a.disk, base, entry, name, data, a.sectors, s);
    }
    forall e: nat | e < MAX_ENTRIES && e != entry
      ensures SlotAt(v, r, base, e) == SlotAt(v, d, base, e)
    {
      StoreFileSlots(v, a.disk, base, entry, name, data, a.sectors, e);
      DirectoryKept(v, d, a, base, e);
    }
  }

  lemma {:induction false} SplicedSlot(s: seq<byte>, entry: nat, slot: Slot)
    requires |s| >= 128
    ensures SameButSlot(s, s[..entry % 8 * 16] + slot + s[entry % 8 * 16 + 16..], entry)
  {
  }

  lemma {:induction false} StoreFileSlotSector(v: Volume, d: Sectors, a: Allocation, base: nat, entry: nat, name: Name, data: seq<byte>)
    requires Took(v, d, a) && AllInRange(v, a.sectors) && |a.sectors| > 0
    requires IsDirectory(v, base) && entry < MAX_ENTRIES && Occupied(v, d, Octet(base)) && Apart(a.sectors, Octet(base))
    ensures var s := SlotSector(base, entry) - 1; SameButSlot(d[s], StoreFile(v, a.disk, base, entry, name, data, a.sectors)[s], entry)
  {
    DirectorySectorKept(v, d, a, base, entry);
    ChainKeepsDirectory(v, a.disk, base, data, a.sectors, entry, entry);
    SplicedSlot(d[SlotSector(base, entry) - 1], entry, FileSlot(v, a.sectors, name));
  }

  lemma {:induction false} StoreFileLabel(v: Volume, d: Sectors, a: Allocation, base: nat, entry: nat, name: Name, data: seq<byte>)
    requires Took(v, d, a) && AllInRange(v, a.sectors) && |a.sectors| > 0
    requires IsDirectory(v, base) && entry < MAX_ENTRIES && Occupied(v, d, Octet(base))
    ensures LabelKept(v, d, StoreFile(v, a.disk, base, entry, name, data, a.sectors))
  {
    var r := StoreFile(v, a.disk, base, entry, name, data, a.sectors);
    TookUsable(v, d, a);
    SlotOccupied(v, d, base, entry);
    forall s: nat | 1 <= s <= v.numsec && IsVtocSector(v, s)
      ensures r[s - 1] == a.disk[s - 1]
    {
      StoreFileElsewhere(v, a.disk, base, entry, name, data, a.sectors, s);
    }
    SameVtocSectors(v, a.disk, r);
    LabelTransitive(v, d, a.disk, r);
  }

  lemma {:induction false} DirectoryKept(v: Volume, d: Sectors, a: Allocation, base: nat, e: nat)
    requires Took(v, d, a) && IsDirectory(v, base) && e < MAX_ENTRIES && Occupied(v, d, Octet(base))
    ensures SlotAt(v, a.disk, base, e) == SlotAt(v, d, base, e)
  {
    DirectorySectorKept(v, d, a, base, e);
    SlotFrame(v, d, a.disk, base, e);
  }

  lemma {:induction false} DirectorySectorKept(v: Volume, d: Sectors, a: Allocation, base: nat, e: nat)
    requires Took(v, d, a) && IsDirectory(v, base) && e < MAX_ENTRIES && Occupied(v, d, Octet(base))
    ensures 1 <= SlotSector(base, e) <= |a.disk| && a.disk[SlotSector(base, e) - 1] == d[SlotSector(base, e) - 1]
  {
    SlotOccupied(v, d, base, e);
    NonFreeKept(v, d, a, SlotSector(base, e));
  }

  lemma {:induction false} SlotOccupied(v: Volume, d: Sectors, base: nat, e: nat)
    requires v.Legal() && Shaped(v, d) && IsDirectory(v, base) && e < MAX_ENTRIES && Occupied(v, d, Octet(base))
    ensures OccupiedSector(v, d, SlotSector(base, e))
  {
    DirectorySectors(v, base, e);
    var i :| 0 <= i < 8 && SlotSector(base, e) == Octet(base)[i];
    assert OccupiedSector(v, d, Octet(base)[i]);
  }

  lemma {:induction false} NonFreeKept(v: Volume, d: Sectors, a: Allocation, s: nat)
    requires Took(v, d, a) && OccupiedSector(v, d, s)
    ensures a.disk[s - 1] == d[s - 1]
  {
  }

  lemma {:induction false} StoreFileVtoc(v: Volume, d: Sectors, base: nat, entry: nat, name: Name, data: seq<byte>, sectors: seq<nat>)
    requires VtocOk(v, d) && IsDirectory(v, base) && entry < MAX_ENTRIES && AllInRange(v, sectors) && |sectors| > 0
    requires Occupied(v, d, sectors) && Occupied(v, d, Octet(base))
    ensures var r := StoreFile(v, d, base, entry, name, data, sectors); VtocOk(v, r) && FreeSet(v, r) == FreeSet(v, d)
  {
    var r := StoreFile(v, d, base, entry, name, data, sectors);
    DirectorySectors(v, base, entry);
    forall s: nat | 1 <= s <= v.numsec && IsVtocSector(v, s)
      ensures r[s - 1] == d[s - 1]
    {
      StoreFileElsewhere(v, d, base, entry, name, data, sectors, s);
    }
    VtocOkFrame(v, d, r);
  }

  /** An addition that went well, whatever was added. */
  ghost predicate Added(v: Volume, d: Sectors, base: nat, names: seq<Name>, r: Outcome) {
    && CanAdd(v, d, base, names) && VtocOk(v, r.disk)
    && |r.names| == |names| + 1 && r.names[..|names|] == names && Unique(r.names)
    && Elements(r.sectors) <= FreeSet(v, d) && FreeSet(v, r.disk) == FreeSet(v, d) - Elements(r.sectors)
    && |r.sectors| > 0 && AllInRange(v, r.sectors) && Distinct(r.sectors) && Linkable(v, r.sectors)
    && Occupied(v, r.disk, r.sectors)
    && |names| < MAX_ENTRIES && ChangesOnly(v, d, r.disk, r.sectors, base, |names|)
  }

  /** When a file can be added. */
  ghost predicate RoomForFile(v: Volume, d: Sectors, names: seq<Name>, name: Name, rename: bool, length: nat)
    requires v.Legal() && Shaped(v, d)
  {
    && FileSectors(v, length) <= |FreeSet(v, d)|
    && |names| < MAX_ENTRIES && (rename || name !in names)
  }

  lemma {:induction false} TookAdded(v: Volume, d: Sectors, a: Allocation, base: nat, names: seq<Name>, r: Outcome)
    requires Took(v, d, a) && CanAdd(v, d, base, names) && |a.sectors| > 0 && r.sectors == a.sectors
    requires |r.names| == |names| + 1 && r.names[..|names|] == names && Unique(r.names) && |names| < MAX_ENTRIES
    requires VtocOk(v, r.disk) && FreeSet(v, r.disk) == FreeSet(v, a.disk)
    requires ChangesOnly(v, d, r.disk, r.sectors, base, |names|)
    ensures Added(v, d, base, names, r)
  {
    TookUsable(v, d, a);
    forall i | 0 <= i < |r.sectors|
      ensures OccupiedSector(v, r.disk, r.sectors[i])
    {
      assert r.sectors[i] !in FreeSet(v, r.disk);
    }
  }

  /**
   `AddData` succeeds exactly when there is room for the data and the name.
   Then the file is stored in sectors that were free, under a name no other
   entry has; and nothing but the VTOC, these sectors and the new slot has changed.
   Otherwise neither the disk nor the directory has.
   */
  lemma {:induction false} AddDataCorrect(v: Volume, d: Sectors, base: nat, names: seq<Name>, name: Name, rename: bool, data: seq<byte>)
    requires CanAdd(v, d, base, names) && Unique(names) && Occupied(v, d, Octet(base))
    ensures var r := AddData(v, d, base, names, name, rename, data);
      && (r.ok <==> RoomForFile(v, d, names, name, rename, |data|))
      && (r.ok ==> Added(v, d, base, names, r) && Stored(v, r.disk, base, |names|, r.names[|names|], data, r.sectors))
      && (!r.ok ==> r.disk == d && r.names == names)
  {
    AddEntryCorrect(names, name, rename);
    StoredIsFree(v, d);
    if RoomForFile(v, d, names, name, rename, |data|) {
      AddDataAdds(v, d, base, names, name, rename, data);
    }
  }

  lemma {:induction false} AddDataAdds(v: Volume, d: Sectors, base: nat, names: seq<Name>, name: Name, rename: bool, data: seq<byte>)
    requires CanAdd(v, d, base, names) && Unique(names) && Occupied(v, d, Octet(base))
    requires RoomForFile(v, d, names, name, rename, |data|)
    ensures var r := AddData(v, d, base, names, name, rename, data);
      && r.ok && Added(v, d, base, names, r)
      && Stored(v, r.disk, base, |names|, r.names[|names|], data, r.sectors)
  {
    var n := FileSectors(v, |data|);
    var a := AllocFile(v, d, n);
    var names2 := AddEntry(names, name, rename).value;
    AddEntryCorrect(names, name, rename);
    StoredIsFree(v, d);
    AllocFileHandsOut(v, d, n);
    FileAllocationUsable(v, d, n);
    StoreFileStores(v, d, a, base, |names|, names2[|names|], data);
    TookApart(v, d, a, Octet(base));
    TookOccupied(v, d, a);
    StoreFileVtoc(v, a.disk, base, |names|, names2[|names|], data, a.sectors);
    TookAdded(v, d, a, base, names, AddData(v, d, base, names, name, rename, data));
  }

  lemma {:induction false} DataNamed(v: Volume, d: Sectors, base: nat, names: seq<Name>, name: Name, rename: bool, data: seq<byte>)
    requires CanAdd(v, d, base, names) && Unique(names)
    ensures var r := AddData(v, d, base, names, name, rename, data); r.ok ==> Named(names, name, r.names)
  {
    if AddEntry(names, name, rename).Some? {
      EntryNamed(names, name, rename);
    }
  }

  /** A file too long for `AddFile` does not fit on any disk, so what is stored is never cut off. */
  lemma {:induction false} NeverCutOff(v: Volume, d: Sectors, base: nat, names: seq<Name>, name: Name, data: seq<byte>)
    requires CanAdd(v, d, base, names) && Unique(names) && Occupied(v, d, Octet(base))
    ensures AddFile(v, d, base, names, name, data).ok ==> |data| <= 0x100_0000
    ensures AddFile(v, d, base, names, name, data).ok
       <==> |data| <= 0x100_0000 && RoomForFile(v, d, names, name, true, |data|)
  {
    var cut := if |data| > MAX_FILE_LEN then data[..MAX_FILE_LEN] else data;
    AddDataCorrect(v, d, base, names, name, true, cut);
    FreeSetSize(v, d);
    if |data| > MAX_FILE_LEN {
      assert FileSectors(v, |cut|) > 65536;
    }
  }

  lemma {:induction false} FreeSetSize(v: Volume, d: Sectors)
    requires VtocOk(v, d)
    ensures |FreeSet(v, d)| <= 65536
  {
    VtocBounds(v);
    var all := set n: nat | n < 65536 && InRange(v, n);
    assert FreeSet(v, d) <= all by {
      forall n | n in FreeSet(v, d)
        ensures n in all
      {
        assert v.Allocatable(n);
      }
    }
    SubsetSize(FreeSet(v, d), all);
    RangeSize(v, all);
  }

  lemma {:induction false} RangeSize(v: Volume, all: set<nat>)
    requires v.Legal() && forall n :: n in all <==> InRange(v, n)
    ensures |all| <= 65536
  {
    IntervalSize(all, 4, v.numsec + 1);
  }

  // ------------------------------------------------------------------
  // Directories
  // ------------------------------------------------------------------

  /** The directory slot of a subdirectory. */
  function FolderSlot(first: nat, name: Name): Slot {
    SlotBytes(DIRECTORY_STATUS, 8, first, name)
  }

  lemma {:induction false} StoreDirectoryElsewhere(v: Volume, d: Sectors, base: nat, entry: nat, name: Name, first: nat, s: nat)
    requires v.Legal() && Shaped(v, d) && IsDirectory(v, base) && IsDirectory(v, first) && entry < MAX_ENTRIES
    requires 1 <= s <= v.numsec && s !in Octet(first) && s != SlotSector(base, entry)
    ensures StoreDirectory(v, d, base, entry, name, first)[s - 1] == d[s - 1]
  {
  }

  lemma {:induction false} ClearKeepsDirectory(v: Volume, d: Sectors, base: nat, first: nat, e: nat)
    requires v.Legal() && Shaped(v, d) && IsDirectory(v, base) && IsDirectory(v, first) && e < MAX_ENTRIES
    requires Apart(Octet(first), Octet(base))
    ensures ClearSectors(v, d, first, 8)[SlotSector(base, e) - 1] == d[SlotSector(base, e) - 1]
  {
    DirectorySectors(v, base, e);
    assert SlotSector(base, e) !in Octet(first);
  }

  lemma {:induction false} StoreDirectorySlots(v: Volume, d: Sectors, base: nat, entry: nat, name: Name, first: nat, e: nat)
    requires v.Legal() && Shaped(v, d) && IsDirectory(v, base) && IsDirectory(v, first) && entry < MAX_ENTRIES
    requires Apart(Octet(first), Octet(base)) && e < MAX_ENTRIES && e != entry
    ensures SlotAt(v, StoreDirectory(v, d, base, entry, name, first), base, e) == SlotAt(v, d, base, e)
  {
    var w := ClearSectors(v, d, first, 8);
    ClearKeepsDirectory(v, d, base, first, e);
    SlotFrame(v, d, w, base, e);
    PutSlotKeeps(v, w, base, entry, FolderSlot(first, name), e);
  }

  /** Directories begin at a multiple of 8, behind most of the root directory. */
  predicate IsAligned(first: nat) {
    first % 8 == 0 && first >= 368
  }

  /** A new directory: eight sectors of empty slots, named by its own slot in the parent. */
  ghost predicate Made(v: Volume, r: Sectors, base: nat, entry: nat, name: Name, first: nat) {
    && v.Legal() && Shaped(v, r) && IsDirectory(v, base) && IsDirectory(v, first) && entry < MAX_ENTRIES
    && SlotAt(v, r, base, entry) == FolderSlot(first, name)
    && forall i :: 0 <= i < 8 ==> r[Octet(first)[i] - 1] == Zeros(v.seclen)
  }

  lemma {:induction false} StoreDirectoryMakes(v: Volume, d: Sectors, base: nat, entry: nat, name: Name, first: nat)
    requires v.Legal() && Shaped(v, d) && IsDirectory(v, base) && IsDirectory(v, first) && entry < MAX_ENTRIES
    requires Apart(Octet(first), Octet(base))
    ensures Made(v, StoreDirectory(v, d, base, entry, name, first), base, entry, name, first)
  {
    var w := ClearSectors(v, d, first, 8);
    PutSlotPuts(v, w, base, entry, FolderSlot(first, name));
    DirectorySectors(v, base, entry);
    forall i | 0 <= i < 8
      ensures StoreDirectory(v, d, base, entry, name, first)[Octet(first)[i] - 1] == Zeros(v.seclen)
    {
      PutSlotElsewhere(v, w, base, entry, FolderSlot(first, name), Octet(first)[i]);
    }
  }

  lemma {:induction false} StoreDirectoryChanges(v: Volume, d: Sectors, a: Allocation, base: nat, entry: nat, name: Name, first: nat)
    requires Took(v, d, a) && a.sectors == Octet(first) && IsDirectory(v, first)
    requires IsDirectory(v, base) && entry < MAX_ENTRIES && Occupied(v, d, Octet(base)) && Apart(a.sectors, Octet(base))
    ensures ChangesOnly(v, d, StoreDirectory(v, a.disk, base, entry, name, first), a.sectors, base, entry)
  {
    var r := StoreDirectory(v, a.disk, base, entry, name, first);
    StoreDirectorySlotSector(v, d, a, base, entry, name, first);
    StoreDirectoryLabel(v, d, a, base, entry, name, first);
    forall s: nat | 1 <= s <= v.numsec && !IsVtocSector(v, s) && s !in a.sectors && s != SlotSector(base, entry)
      ensures r[s - 1] == d[s - 1]
    {
      StoreDirectoryElsewhere(v, a.disk, base, entry, name, first, s);
    }
    forall e: nat | e < MAX_ENTRIES && e != entry
      ensures SlotAt(v, r, base, e) == SlotAt(v, d, base, e)
    {
      StoreDirectorySlots(v, a.disk, base, entry, name, first, e);
      DirectoryKept(v, d, a, base, e);
    }
  }

  lemma {:induction false} StoreDirectorySlotSector(v: Volume, d: Sectors, a: Allocation, base: nat, entry: nat, name: Name, first: nat)
    requires Took(v, d, a) && a.sectors == Octet(first) && IsDirectory(v, first)
    requires IsDirectory(v, base) && entry < MAX_ENTRIES && Occupied(v, d, Octet(base)) && Apart(a.sectors, Octet(base))
    ensures var s := SlotSector(base, entry) - 1; SameButSlot(d[s], StoreDirectory(v, a.disk, base, entry, name, first)[s], entry)
  {
    DirectorySectorKept(v, d, a, base, entry);
    ClearKeepsDirectory(v, a.disk, base, first, entry);
    SplicedSlot(d[SlotSector(base, entry) - 1], entry, FolderSlot(first, name));
  }

  lemma {:induction false} StoreDirectoryLabel(v: Volume, d: Sectors, a: Allocation, base: nat, entry: nat, name: Name, first: nat)
    requires Took(v, d, a) && a.sectors == Octet(first) && IsDirectory(v, first)
    requires IsDirectory(v, base) && entry < MAX_ENTRIES && Occupied(v, d, Octet(base))
    ensures LabelKept(v, d, StoreDirectory(v, a.disk, base, entry, name, first))
  {
    var r := StoreDirectory(v, a.disk, base, entry, name, first);
    TookOccupied(v, d, a);
    SlotOccupied(v, d, base, entry);
    forall s: nat | 1 <= s <= v.numsec && IsVtocSector(v, s)
      ensures r[s - 1] == a.disk[s - 1]
    {
      NotInOccupied(v, a.disk, a.sectors, s);
      StoreDirectoryElsewhere(v, a.disk, base, entry, name, first, s);
    }
    SameVtocSectors(v, a.disk, r);
    LabelTransitive(v, d, a.disk, r);
  }

  lemma {:induction false} StoreDirectoryVtoc(v: Volume, d: Sectors, base: nat, entry: nat, name: Name, first: nat)
    requires VtocOk(v, d) && IsDirectory(v, base) && IsDirectory(v, first) && entry < MAX_ENTRIES
    requires Occupied(v, d, Octet(first)) && Occupied(v, d, Octet(base))
    ensures var r := StoreDirectory(v, d, base, entry, name, first); VtocOk(v, r) && FreeSet(v, r) == FreeSet(v, d)
  {
    var r := StoreDirectory(v, d, base, entry, name, first);
    DirectorySectors(v, base, entry);
    forall s: nat | 1 <= s <= v.numsec && IsVtocSector(v, s)
      ensures r[s - 1] == d[s - 1]
    {
      NotInOccupied(v, d, Octet(first), s);
      StoreDirectoryElsewhere(v, d, base, entry, name, first, s);
    }
    VtocOkFrame(v, d, r);
  }

  lemma {:induction false} NotInOccupied(v: Volume, d: Sectors, sectors: seq<nat>, s: nat)
    requires v.Legal() && Shaped(v, d) && Occupied(v, d, sectors) && IsVtocSector(v, s)
    ensures s !in sectors
  {
  }

  /** When a directory can be added. */
  ghost predicate RoomForDirectory(v: Volume, d: Sectors, names: seq<Name>)
    requires v.Legal() && Shaped(v, d)
  {
    && v.dos.MyDos? && |names| < MAX_ENTRIES
    && exists q :: DIR_OCTETS <= q < VtocBytes(v) && OctetFree(v, d, q)
  }

  /**
   `AddDirectory` succeeds exactly on a MyDOS disk with an unused slot and a free
   octet from sector 368 on; the name never stands in the way, so allocating
   before entering the name loses no sectors.
   */
  lemma {:induction false} AddDirectoryCorrect(v: Volume, d: Sectors, base: nat, names: seq<Name>, name: Name)
    requires CanAdd(v, d, base, names) && Unique(names) && Occupied(v, d, Octet(base))
    ensures var r := AddDirectory(v, d, base, names, name);
      && (r.ok <==> RoomForDirectory(v, d, names))
      && (r.ok ==> Added(v, d, base, names, r) && r.sectors == Octet(r.sectors[0]) && IsAligned(r.sectors[0])
                   && Made(v, r.disk, base, |names|, r.names[|names|], r.sectors[0]))
      && (!r.ok ==> r.disk == d && r.names == names)
  {
    if RoomForDirectory(v, d, names) {
      AllocDirectoryCorrect(v, d);
      AddDirectoryAdds(v, d, base, names, name);
      FirstOctetAligned(v, d, AllocDirectory(v, d).sectors);
    } else {
      AddDirectoryFails(v, d, base, names, name);
    }
  }

  lemma {:induction false} DirectoryNamed(v: Volume, d: Sectors, base: nat, names: seq<Name>, name: Name)
    requires CanAdd(v, d, base, names) && Unique(names)
    ensures var r := AddDirectory(v, d, base, names, name); r.ok ==> Named(names, name, r.names)
  {
    if AddEntry(names, name, true).Some? {
      EntryNamed(names, name, true);
    }
  }

  lemma {:induction false} AddDirectoryFails(v: Volume, d: Sectors, base: nat, names: seq<Name>, name: Name)
    requires CanAdd(v, d, base, names) && !RoomForDirectory(v, d, names)
    ensures AddDirectory(v, d, base, names, name) == Outcome(false, d, names, [])
  {
    if |names| < MAX_ENTRIES && v.dos.MyDos? {
      AllocDirectoryCorrect(v, d);
    }
  }

  lemma {:induction false} FirstOctetAligned(v: Volume, d: Sectors, s: seq<nat>)
    requires v.Legal() && Shaped(v, d) && !v.Dos25() && IsFirstOctet(v, d, s)
    ensures |s| == 8 && s[0] % 8 == 0 && s[0] >= 368
  {
    var q :| DIR_OCTETS <= q < VtocBytes(v) && s == Octet(8 * (q - 10));
    var first := 8 * (q - 10);
    assert Octet(first)[0] == first;
  }

  lemma {:induction false} AddDirectoryAdds(v: Volume, d: Sectors, base: nat, names: seq<Name>, name: Name)
    requires CanAdd(v, d, base, names) && Unique(names) && Occupied(v, d, Octet(base))
    requires RoomForDirectory(v, d, names) && Took(v, d, AllocDirectory(v, d)) && AllocDirectory(v, d).ok
    ensures var r := AddDirectory(v, d, base, names, name);
      && r.ok && Added(v, d, base, names, r) && r.sectors == Octet(r.sectors[0])
      && Made(v, r.disk, base, |names|, r.names[|names|], r.sectors[0])
  {
    var a := AllocDirectory(v, d);
    var names2 := AddEntry(names, name, true).value;
    AddEntryCorrect(names, name, true);
    DirectoryAllocationUsable(v, d);
    TookApart(v, d, a, Octet(base));
    TookOccupied(v, d, a);
    StoreDirectoryMakes(v, a.disk, base, |names|, names2[|names|], a.sectors[0]);
    StoreDirectoryChanges(v, d, a, base, |names|, names2[|names|], a.sectors[0]);
    StoreDirectoryVtoc(v, a.disk, base, |names|, names2[|names|], a.sectors[0]);
    TookAdded(v, d, a, base, names, AddDirectory(v, d, base, names, name));
  }
}
