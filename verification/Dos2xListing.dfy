/** What the directory listing shows after any run of additions. */
module Dos2xListing {
  import opened Bytes
  import opened AtrImage
  import opened Dos2xVolume
  import opened Dos2xInit
  import opened Dos2xAlloc
  import opened Dos2xChain
  import opened Dos2xNames
  import opened Dos2xFiles
  import opened Dos2xRuns
  import opened Dos2xDirectory

  // ------------------------------------------------------------------
  // Unused slots
  // ------------------------------------------------------------------

  /** Slots behind the names: in the root directory what they were at first, in others zeros; and byte 128 is not used. */
  ghost predicate TailKept(v: Volume, d: Sectors, fs: FileSystem, k: nat)
    requires v.Legal() && Shaped(v, d) && Open(v, fs, k)
  {
    && (forall e: nat :: |fs.dirs[k].names| <= e < MAX_ENTRIES ==>
          SlotAt(v, fs.disk, Base(fs, k), e) == if k == 0 then SlotAt(v, d, DIR_SECTOR, e) else Zeros(16))
    && (v.seclen == 256 ==> fs.disk[Base(fs, k) - 1][128] == 0)
  }

  ghost predicate TailsKept(v: Volume, d: Sectors, fs: FileSystem) {
    && v.Legal() && Shaped(v, d) && Inv(v, fs)
    && forall k: nat :: k < |fs.dirs| ==> Open(v, fs, k) && TailKept(v, d, fs, k)
  }

  lemma {:induction false} FirstSectorKept(v: Volume, d: Sectors, r: Sectors, sectors: seq<nat>, base: nat, entry: nat)
    requires ChangesOnly(v, d, r, sectors, base, entry) && v.seclen == 256
    requires 1 <= base <= v.numsec && !IsVtocSector(v, base) && base !in sectors
    ensures r[base - 1][128] == d[base - 1][128]
  {
    if SlotSector(base, entry) != base {
      KeptElsewhere(v, d, r, sectors, base, entry, base);
    }
  }

  lemma {:induction false} BaseNotTaken(v: Volume, fs: FileSystem, k: nat, r: Outcome)
    requires NewItem(v, fs, k, r)
    ensures 1 <= Base(fs, k) <= v.numsec && !IsVtocSector(v, Base(fs, k)) && Base(fs, k) !in r.sectors
  {
    var o := Octet(Base(fs, k));
    BaseOccupied(v, fs, k);
    StillOccupied(v, fs, k, r, o);
    assert o[0] == Base(fs, k) && OccupiedSector(v, fs.disk, o[0]);
  }

  lemma {:induction false} OwnTailKept(v: Volume, d: Sectors, fs: FileSystem, k: nat, r: Outcome, fs2: FileSystem, base: nat)
    requires NewItem(v, fs, k, r) && v.Legal() && Shaped(v, d) && TailKept(v, d, fs, k) && base == Base(fs, k)
    requires Open(v, fs2, k) && Base(fs2, k) == base && fs2.disk == r.disk && fs2.dirs[k].names == r.names
    ensures TailKept(v, d, fs2, k)
  {
    OwnSlotsKept(v, fs, k, r, base);
    if v.seclen == 256 {
      OwnFirstSectorKept(v, fs, k, r, base, |fs.dirs[k].names|);
    }
    TailMoves(v, d, fs, fs2, k, base);
  }

  lemma {:induction false} TailMoves(v: Volume, d: Sectors, fs: FileSystem, fs2: FileSystem, k: nat, base: nat)
    requires v.Legal() && Shaped(v, d) && Open(v, fs, k) && Open(v, fs2, k) && base == Base(fs, k) == Base(fs2, k) && TailKept(v, d, fs, k)
    requires Shaped(v, fs.disk) && Shaped(v, fs2.disk) && IsDirectory(v, base) && |fs.dirs[k].names| <= |fs2.dirs[k].names|
    requires forall e: nat :: |fs2.dirs[k].names| <= e < MAX_ENTRIES ==> SlotAt(v, fs2.disk, base, e) == SlotAt(v, fs.disk, base, e)
    requires v.seclen == 256 ==> fs2.disk[base - 1][128] == fs.disk[base - 1][128]
    ensures TailKept(v, d, fs2, k)
  {
  }

  lemma {:induction false} OwnSlotsKept(v: Volume, fs: FileSystem, k: nat, r: Outcome, base: nat)
    requires NewItem(v, fs, k, r) && base == Base(fs, k)
    ensures |r.names| == |fs.dirs[k].names| + 1
    ensures Shaped(v, fs.disk) && Shaped(v, r.disk) && IsDirectory(v, base)
    ensures forall e: nat :: |r.names| <= e < MAX_ENTRIES ==> SlotAt(v, r.disk, base, e) == SlotAt(v, fs.disk, base, e)
  {
    forall e: nat | |r.names| <= e < MAX_ENTRIES
      ensures SlotAt(v, r.disk, base, e) == SlotAt(v, fs.disk, base, e)
    {
      SameDirectoryKept(v, fs, k, r, e);
    }
  }

  lemma {:induction false} OwnFirstSectorKept(v: Volume, fs: FileSystem, k: nat, r: Outcome, base: nat, entry: nat)
    requires NewItem(v, fs, k, r) && v.seclen == 256 && base == Base(fs, k) && entry == |fs.dirs[k].names|
    ensures 1 <= base <= |fs.disk| && |fs.disk| == |r.disk| && |fs.disk[base - 1]| == |r.disk[base - 1]| == 256
    ensures r.disk[base - 1][128] == fs.disk[base - 1][128]
  {
    BaseNotTaken(v, fs, k, r);
    NewItemChanges(v, fs, k, r, base, entry);
    FirstSectorKept(v, fs.disk, r.disk, r.sectors, base, entry);
    BaseLong(v, fs.disk, r.disk, r.sectors, base, entry);
  }

  lemma {:induction false} BaseLong(v: Volume, d: Sectors, r: Sectors, sectors: seq<nat>, base: nat, entry: nat)
    requires ChangesOnly(v, d, r, sectors, base, entry) && v.seclen == 256
    ensures 1 <= base <= |d| && |d| == |r| && |d[base - 1]| == |r[base - 1]| == 256
  {
  }

  lemma {:induction false} NewItemChanges(v: Volume, fs: FileSystem, k: nat, r: Outcome, base: nat, entry: nat)
    requires NewItem(v, fs, k, r) && base == Base(fs, k) && entry == |fs.dirs[k].names|
    ensures ChangesOnly(v, fs.disk, r.disk, r.sectors, base, entry)
  {
  }

  lemma {:induction false} OtherTailKept(v: Volume, d: Sectors, fs: FileSystem, k: nat, r: Outcome, fs2: FileSystem, l: nat)
    requires NewItem(v, fs, k, r) && v.Legal() && Shaped(v, d) && l != k && Open(v, fs, l) && TailKept(v, d, fs, l)
    requires Open(v, fs2, l) && Base(fs2, l) == Base(fs, l) && fs2.disk == r.disk && fs2.dirs[l] == fs.dirs[l]
    ensures TailKept(v, d, fs2, l)
  {
    forall e: nat | |fs.dirs[l].names| <= e < MAX_ENTRIES
      ensures SlotAt(v, r.disk, Base(fs, l), e) == SlotAt(v, fs.disk, Base(fs, l), e)
    {
      OtherSlotKept(v, fs, k, r, l, e, Base(fs, l));
    }
    OtherFirstKept(v, fs, k, r, l, Base(fs, l));
  }

  lemma {:induction false} OtherSlotKept(v: Volume, fs: FileSystem, k: nat, r: Outcome, l: nat, e: nat, base: nat)
    requires NewItem(v, fs, k, r) && l != k && Open(v, fs, l) && e < MAX_ENTRIES && base == Base(fs, l)
    ensures VtocOk(v, fs.disk) && VtocOk(v, r.disk) && IsDirectory(v, base)
    ensures SlotAt(v, r.disk, base, e) == SlotAt(v, fs.disk, base, e)
  {
    OtherDirectoryKept(v, fs, k, r, l, e);
    SlotFrame(v, fs.disk, r.disk, base, e);
  }

  lemma {:induction false} OtherFirstKept(v: Volume, fs: FileSystem, k: nat, r: Outcome, l: nat, base: nat)
    requires NewItem(v, fs, k, r) && l != k && Open(v, fs, l) && base == Base(fs, l)
    ensures 1 <= base <= |fs.disk| && |fs.disk| == |r.disk| && r.disk[base - 1] == fs.disk[base - 1]
  {
    OtherDirectoryKept(v, fs, k, r, l, 0);
    FirstSlotSector(base);
    DirectoryInRange(v, fs.disk, r.disk, base);
  }

  lemma {:induction false} FirstSlotSector(base: nat)
    ensures SlotSector(base, 0) == base
  {
  }

  lemma {:induction false} DirectoryInRange(v: Volume, d: Sectors, r: Sectors, base: nat)
    requires VtocOk(v, d) && VtocOk(v, r) && IsDirectory(v, base)
    ensures 1 <= base <= |d| && |d| == |r|
  {
  }

  lemma {:induction false} ZeroDirectory(v: Volume, d: Sectors, base: nat, e: nat)
    requires v.Legal() && Shaped(v, d) && IsDirectory(v, base) && e < MAX_ENTRIES
    requires forall i :: 0 <= i < 8 ==> d[Octet(base)[i] - 1] == Zeros(v.seclen)
    ensures SlotAt(v, d, base, e) == Zeros(16) && (v.seclen == 256 ==> d[base - 1][128] == 0)
  {
    assert SlotSector(base, e) == Octet(base)[e / 8] && Octet(base)[0] == base;
    ZeroSlot(v.seclen, e % 8 * 16);
  }

  lemma {:induction false} NewTail(v: Volume, d: Sectors, fs: FileSystem, k: nat, base: nat)
    requires v.Legal() && Shaped(v, d) && Open(v, fs, k) && k > 0 && fs.dirs[k].names == [] && base == Base(fs, k)
    requires forall i :: 0 <= i < 8 ==> fs.disk[Octet(base)[i] - 1] == Zeros(v.seclen)
    ensures TailKept(v, d, fs, k)
  {
    forall e: nat | e < MAX_ENTRIES
      ensures SlotAt(v, fs.disk, base, e) == Zeros(16)
    {
      ZeroDirectory(v, fs.disk, base, e);
    }
    ZeroDirectory(v, fs.disk, base, 0);
  }

  lemma {:induction false} ZeroSlot(n: nat, at: nat)
    requires at + 16 <= n
    ensures Zeros(n)[at..at + 16] == Zeros(16)
  {
  }

  lemma {:induction false} ExtendKeepsTails(v: Volume, d: Sectors, fs: FileSystem, k: nat, r: Outcome, content: Content)
    requires TailsKept(v, d, fs) && NewOnDisk(v, fs, k, r, content)
    ensures TailsKept(v, d, Extend(fs, k, r, content))
  {
    var fs2 := Extend(fs, k, r, content);
    ExtendKeepsInv(v, fs, k, r, content);
    forall l: nat | l < |fs2.dirs|
      ensures Open(v, fs2, l) && TailKept(v, d, fs2, l)
    {
      EachTailKept(v, d, fs, k, r, content, fs2, l);
    }
  }

  lemma {:induction false} EachTailKept(v: Volume, d: Sectors, fs: FileSystem, k: nat, r: Outcome, content: Content, fs2: FileSystem, l: nat)
    requires TailsKept(v, d, fs) && NewOnDisk(v, fs, k, r, content)
    requires fs2 == Extend(fs, k, r, content) && Inv(v, fs2) && l < |fs2.dirs|
    ensures Open(v, fs2, l) && TailKept(v, d, fs2, l)
  {
    assert DirOk(v, fs2, l);
    if l < |fs.dirs| {
      assert Open(v, fs, l) && TailKept(v, d, fs, l);
      OldTailKept(v, d, fs, k, r, content, fs2, l);
    } else {
      FolderTail(v, d, fs, k, r, content, fs2, l);
    }
  }

  lemma {:induction false} FolderTail(v: Volume, d: Sectors, fs: FileSystem, k: nat, r: Outcome, content: Content, fs2: FileSystem, l: nat)
    requires v.Legal() && Shaped(v, d) && NewOnDisk(v, fs, k, r, content) && fs2 == Extend(fs, k, r, content)
    requires |fs.dirs| <= l < |fs2.dirs| && Open(v, fs2, l)
    ensures TailKept(v, d, fs2, l)
  {
    ExtendedByFolder(fs, k, r, content, fs2, l);
    FolderMade(v, fs, k, r, content);
    FolderIsZero(v, fs, k, r, content, r.sectors[0]);
    NewTail(v, d, fs2, l, r.sectors[0]);
  }

  lemma {:induction false} FolderIsZero(v: Volume, fs: FileSystem, k: nat, r: Outcome, content: Content, base: nat)
    requires NewOnDisk(v, fs, k, r, content) && content.Folder? && |r.sectors| == 8 && base == r.sectors[0]
    ensures Shaped(v, r.disk) && IsDirectory(v, base)
    ensures forall i :: 0 <= i < 8 ==> r.disk[Octet(base)[i] - 1] == Zeros(v.seclen)
  {
    FolderMade(v, fs, k, r, content);
    MadeIsZero(v, r.disk, Base(fs, k), |fs.dirs[k].names|, r.names[|fs.dirs[k].names|], base);
  }

  lemma {:induction false} FolderMade(v: Volume, fs: FileSystem, k: nat, r: Outcome, content: Content)
    requires NewOnDisk(v, fs, k, r, content) && content.Folder?
    ensures |r.sectors| == 8 && k < |fs.dirs| && |fs.dirs[k].names| < |r.names|
    ensures Made(v, r.disk, Base(fs, k), |fs.dirs[k].names|, r.names[|fs.dirs[k].names|], r.sectors[0])
  {
  }

  lemma {:induction false} MadeIsZero(v: Volume, r: Sectors, base: nat, entry: nat, name: Name, first: nat)
    requires Made(v, r, base, entry, name, first)
    ensures Shaped(v, r) && IsDirectory(v, first)
    ensures forall i :: 0 <= i < 8 ==> r[Octet(first)[i] - 1] == Zeros(v.seclen)
  {
  }

  lemma {:induction false} ExtendedByFolder(fs: FileSystem, k: nat, r: Outcome, content: Content, fs2: FileSystem, l: nat)
    requires k < |fs.dirs| <= l < |fs2.dirs| && fs2 == Extend(fs, k, r, content)
    ensures content.Folder? && fs2.disk == r.disk && fs2.dirs[l] == Dir(|fs.items|, [])
    ensures |r.sectors| > 0 ==> fs2.dirs[l].item < |fs2.items| && Base(fs2, l) == r.sectors[0]
  {
  }

  lemma {:induction false} OldTailKept(v: Volume, d: Sectors, fs: FileSystem, k: nat, r: Outcome, content: Content, fs2: FileSystem, l: nat)
    requires NewItem(v, fs, k, r) && v.Legal() && Shaped(v, d) && Open(v, fs, l) && TailKept(v, d, fs, l)
    requires fs2 == Extend(fs, k, r, content) && Open(v, fs2, l)
    ensures TailKept(v, d, fs2, l)
  {
    ExtendedDir(fs, k, r, content, l);
    if l == k {
      OwnTailKept(v, d, fs, k, r, fs2, Base(fs, k));
    } else {
      OtherTailKept(v, d, fs, k, r, fs2, l);
    }
  }

  lemma {:induction false} OpKeepsTails(v: Volume, d: Sectors, fs: FileSystem, op: Op)
    requires TailsKept(v, d, fs) && Open(v, fs, op.dir)
    ensures TailsKept(v, d, Extend(fs, op.dir, Result(v, fs, op), ContentOf(op)))
  {
    EveryOpDecided(v, fs, op);
    var r := Result(v, fs, op);
    if r.ok {
      ExtendKeepsTails(v, d, fs, op.dir, r, ContentOf(op));
    } else {
      FailedAddition(fs, op.dir, r, ContentOf(op));
    }
  }

  lemma {:induction false} RunKeepsTails(v: Volume, d: Sectors, fs: FileSystem, ops: seq<Op>)
    requires TailsKept(v, d, fs)
    ensures TailsKept(v, d, Run(v, fs, ops))
    decreases |ops|
  {
    if ops != [] {
      if ops[0].dir < |fs.dirs| {
        assert Open(v, fs, ops[0].dir);
        OpKeepsTails(v, d, fs, ops[0]);
      }
      RunKeepsTails(v, d, Apply(v, fs, ops[0]), ops[1..]);
    }
  }

  lemma {:induction false} StartTails(v: Volume, d: Sectors, boot: Sectors)
    requires v.Legal() && Shaped(v, d) && IsBoot(boot)
    ensures TailsKept(v, InitVtoc(v, d, boot), Start(v, d, boot))
  {
    var fs := Start(v, d, boot);
    FreshDirSector(v, d, boot, DIR_SECTOR);
    assert Octet(DIR_SECTOR)[0] == DIR_SECTOR && DirOk(v, fs, 0);
  }

  // ------------------------------------------------------------------
  // Used slots
  // ------------------------------------------------------------------

  /** Every name in a directory is that of an item. */
  ghost predicate AllEntered(fs: FileSystem) {
    forall k: nat, e: nat :: k < |fs.dirs| && e < |fs.dirs[k].names| ==> HasItem(fs, k, e)
  }

  ghost predicate HasItem(fs: FileSystem, k: nat, e: nat) {
    exists i :: 0 < i < |fs.items| && fs.items[i].dir == k && fs.items[i].entry == e
  }

  lemma {:induction false} ExtendKeepsEntered(fs: FileSystem, k: nat, r: Outcome, content: Content)
    requires AllEntered(fs) && |fs.items| > 0 && k < |fs.dirs| && r.ok && |r.names| == |fs.dirs[k].names| + 1
    ensures AllEntered(Extend(fs, k, r, content))
  {
    var fs2 := Extend(fs, k, r, content);
    forall l: nat, e: nat | l < |fs2.dirs| && e < |fs2.dirs[l].names|
      ensures HasItem(fs2, l, e)
    {
      if l == k && e == |r.names| - 1 {
        assert fs2.items[|fs.items|].dir == l && fs2.items[|fs.items|].entry == e;
      } else {
        assert HasItem(fs, l, e);
        var i :| 0 < i < |fs.items| && fs.items[i].dir == l && fs.items[i].entry == e;
        assert fs2.items[i] == fs.items[i];
      }
    }
  }

  lemma {:induction false} OpKeepsEntered(v: Volume, fs: FileSystem, op: Op)
    requires Open(v, fs, op.dir) && AllEntered(fs)
    ensures AllEntered(Extend(fs, op.dir, Result(v, fs, op), ContentOf(op)))
  {
    EveryOpDecided(v, fs, op);
    var r := Result(v, fs, op);
    if r.ok {
      ExtendKeepsEntered(fs, op.dir, r, ContentOf(op));
    } else {
      FailedAddition(fs, op.dir, r, ContentOf(op));
    }
  }

  lemma {:induction false} RunKeepsEntered(v: Volume, fs: FileSystem, ops: seq<Op>)
    requires Inv(v, fs) && AllEntered(fs)
    ensures AllEntered(Run(v, fs, ops))
    decreases |ops|
  {
    if ops != [] {
      if ops[0].dir < |fs.dirs| {
        assert DirOk(v, fs, ops[0].dir);
        OpKeepsEntered(v, fs, ops[0]);
      }
      ApplyKeepsInv(v, fs, ops[0]);
      RunKeepsEntered(v, Apply(v, fs, ops[0]), ops[1..]);
    }
  }

  // ------------------------------------------------------------------
  // The listing
  // ------------------------------------------------------------------

  /** How an item is listed. */
  predicate Shows(v: Volume, item: Item, l: Listed)
    requires v.Legal()
  {
    && |item.sectors| > 0 && l.start == item.sectors[0] && l.count == |item.sectors| && l.name == item.name && l.number == item.entry
    && (item.content.Folder? ==> l.status == 0x10)
    && (item.content.Data? ==> FileStatusTells(v, l.status, item.sectors))
  }

  lemma {:induction false} SameSlots(v: Volume, d: Sectors, base: nat, e: nat)
    requires v.Legal() && Shaped(v, d) && IsDirectory(v, base) && e < MAX_ENTRIES
    ensures Readable(v.seclen, d, base + e / 8) && RawSlot(v.seclen, d, base, 8, e) == SlotAt(v, d, base, e)
  {
  }

  lemma {:induction false} AllReadable(v: Volume, d: Sectors, base: nat)
    requires v.Legal() && Shaped(v, d) && IsDirectory(v, base)
    ensures forall s :: base <= s < base + 8 ==> Readable(v.seclen, d, s)
    ensures Readable(v.seclen, d, 360)
  {
  }

  lemma {:induction false} ItemShown(v: Volume, fs: FileSystem, i: nat)
    requires Inv(v, fs) && i < |fs.items| && !fs.items[i].content.Root?
    ensures var item := fs.items[i];
      && Entered(v, fs, item)
      && var slot := SlotAt(v, fs.disk, Base(fs, item.dir), item.entry);
         IsShown(slot[0]) && Shows(v, item, ListedSlot(slot, item.entry))
  {
    var item := fs.items[i];
    assert OnDisk(v, fs, item);
    if item.content.Folder? {
      FolderDescribed(v, fs, i);
    } else {
      FileDescribed(v, fs, item);
    }
    SlotWords(SlotAt(v, fs.disk, Base(fs, item.dir), item.entry));
  }

  lemma {:induction false} SlotWords(slot: Slot)
    ensures WordValue(slot[1..]) == slot[1] as nat + 256 * slot[2] as nat
    ensures WordValue(slot[3..]) == slot[3] as nat + 256 * slot[4] as nat
  {
  }

  /** The count in the listing is the number of free sectors, the second count being added on DOS 2.5 only. */
  lemma {:induction false} FreeIsCounted(v: Volume, d: Sectors)
    requires VtocOk(v, d) && Labelled(v, d)
    ensures Readable(v.seclen, d, 360) && CountedFree(v.seclen, d) == |FreeSet(v, d)|
  {
    StoredIsFree(v, d);
    assert v.dos.MyDos? && v.seclen == 128 && v.numsec == 1040 ==> v.NumVtoc() == 2;
  }

  lemma {:induction false} EntryShown(v: Volume, fs: FileSystem, k: nat, e: nat)
    requires Open(v, fs, k) && Rooted(fs) && HasItem(fs, k, e)
    ensures e < |fs.dirs[k].names| && Readable(v.seclen, fs.disk, Base(fs, k) + e / 8)
    ensures IsShown(RawSlot(v.seclen, fs.disk, Base(fs, k), 8, e)[0])
  {
    var i :| 0 < i < |fs.items| && fs.items[i].dir == k && fs.items[i].entry == e;
    ItemShown(v, fs, i);
    SameSlots(v, fs.disk, Base(fs, k), e);
  }

  /** All names are listed in order; then comes whatever is left in slots that were not used. */
  ghost predicate ListsDirectory(v: Volume, d: Sectors, fs: FileSystem, k: nat, l: Listing)
    requires v.Legal() && Shaped(v, d) && Open(v, fs, k)
  {
    var n := |fs.dirs[k].names|;
    && l.free == |FreeSet(v, fs.disk)| && |l.entries| >= n
    && (forall e: nat :: e < n ==> HasItem(fs, k, e))
    && (forall i :: 0 < i < |fs.items| && fs.items[i].dir == k ==>
          fs.items[i].entry < n && Shows(v, fs.items[i], l.entries[fs.items[i].entry]))
    && l.entries[n..] == if k == 0 then ListFrom(v.seclen, d, DIR_SECTOR, 8, n) else []
  }

  lemma {:induction false} NotWide(v: Volume, d: Sectors, fs: FileSystem, k: nat)
    requires v.Legal() && Shaped(v, d) && Open(v, fs, k) && TailKept(v, d, fs, k)
    ensures Readable(v.seclen, fs.disk, 360) && !IsWide(v.seclen, fs.disk, Base(fs, k))
    ensures var free := CountedFree(v.seclen, fs.disk);
      GetDos2Directory(v.seclen, fs.disk, Base(fs, k)) == Some(Listing(free, ListFrom(v.seclen, fs.disk, Base(fs, k), 8, 0)))
  {
  }

  lemma {:induction false} TailListed(v: Volume, d: Sectors, fs: FileSystem, k: nat)
    requires v.Legal() && Shaped(v, d) && Open(v, fs, k) && TailKept(v, d, fs, k) && (k == 0 ==> Base(fs, k) == DIR_SECTOR)
    ensures var n := |fs.dirs[k].names|;
      ListFrom(v.seclen, fs.disk, Base(fs, k), 8, n) == if k == 0 then ListFrom(v.seclen, d, DIR_SECTOR, 8, n) else []
  {
    var base, n := Base(fs, k), |fs.dirs[k].names|;
    AllReadable(v, fs.disk, base);
    if k == 0 {
      AllReadable(v, d, base);
      forall e: nat | n <= e < 64
        ensures RawSlot(v.seclen, fs.disk, base, 8, e) == RawSlot(v.seclen, d, base, 8, e)
      {
        SameSlots(v, fs.disk, base, e);
        SameSlots(v, d, base, e);
      }
      SameTail(v.seclen, d, fs.disk, base, n);
    } else {
      if n < 64 {
        SameSlots(v, fs.disk, base, n);
      }
      ListEnds(v.seclen, fs.disk, base, n);
    }
  }

  lemma {:induction false} NamesListed(v: Volume, fs: FileSystem, k: nat, all: seq<Listed>)
    requires Open(v, fs, k) && Rooted(fs) && AllEntered(fs) && all == ListFrom(v.seclen, fs.disk, Base(fs, k), 8, 0)
    ensures var n := |fs.dirs[k].names|;
      && |all| >= n && all[n..] == ListFrom(v.seclen, fs.disk, Base(fs, k), 8, n)
      && forall e: nat :: e < n ==> HasItem(fs, k, e) && all[e] == ListedSlot(SlotAt(v, fs.disk, Base(fs, k), e), e)
  {
    AllReadable(v, fs.disk, Base(fs, k));
    NamesShown(v, fs, k);
    ShownInTurn(v, fs.disk, Base(fs, k), |fs.dirs[k].names|, all);
  }

  lemma {:induction false} NamesShown(v: Volume, fs: FileSystem, k: nat)
    requires Open(v, fs, k) && Rooted(fs) && AllEntered(fs)
    ensures forall e: nat :: e < |fs.dirs[k].names| ==> HasItem(fs, k, e) && IsShown(SlotAt(v, fs.disk, Base(fs, k), e)[0])
  {
    forall e: nat | e < |fs.dirs[k].names|
      ensures HasItem(fs, k, e) && IsShown(SlotAt(v, fs.disk, Base(fs, k), e)[0])
    {
      EntryShown(v, fs, k, e);
      SameSlots(v, fs.disk, Base(fs, k), e);
    }
  }

  lemma {:induction false} ShownInTurn(v: Volume, d: Sectors, base: nat, n: nat, all: seq<Listed>)
    requires v.Legal() && Shaped(v, d) && IsDirectory(v, base) && n <= MAX_ENTRIES && all == ListFrom(v.seclen, d, base, 8, 0)
    requires forall e: nat :: e < n ==> IsShown(SlotAt(v, d, base, e)[0])
    ensures |all| >= n && all[n..] == ListFrom(v.seclen, d, base, 8, n)
    ensures forall e: nat :: e < n ==> all[e] == ListedSlot(SlotAt(v, d, base, e), e)
  {
    AllReadable(v, d, base);
    forall e: nat | e < n
      ensures IsShown(RawSlot(v.seclen, d, base, 8, e)[0])
    {
      SameSlots(v, d, base, e);
    }
    ListedBefore(v.seclen, d, base, 0, n);
    forall e: nat | e < n
      ensures all[e] == ListedSlot(SlotAt(v, d, base, e), e)
    {
      SameSlots(v, d, base, e);
      ListedAt(v.seclen, d, base, 0, n, e);
    }
  }

  lemma {:induction false} ItemListed(v: Volume, fs: FileSystem, k: nat, all: seq<Listed>, i: nat)
    requires Open(v, fs, k) && Rooted(fs) && 0 < i < |fs.items| && fs.items[i].dir == k && |all| >= |fs.dirs[k].names|
    requires forall e: nat :: e < |fs.dirs[k].names| ==> all[e] == ListedSlot(SlotAt(v, fs.disk, Base(fs, k), e), e)
    ensures fs.items[i].entry < |fs.dirs[k].names| && Shows(v, fs.items[i], all[fs.items[i].entry])
  {
    ItemShown(v, fs, i);
  }

  lemma {:induction false} DirectoryListed(v: Volume, d: Sectors, fs: FileSystem, k: nat)
    requires v.Legal() && Shaped(v, d) && Open(v, fs, k) && TailKept(v, d, fs, k) && Rooted(fs) && AllEntered(fs) && Labelled(v, fs.disk)
    ensures var l := GetDos2Directory(v.seclen, fs.disk, Base(fs, k)); l.Some? && ListsDirectory(v, d, fs, k, l.value)
  {
    var all := ListFrom(v.seclen, fs.disk, Base(fs, k), 8, 0);
    NotWide(v, d, fs, k);
    FreeIsCounted(v, fs.disk);
    TailListed(v, d, fs, k);
    NamesListed(v, fs, k, all);
    forall i: nat | 0 < i < |fs.items| && fs.items[i].dir == k
      ensures fs.items[i].entry < |fs.dirs[k].names| && Shows(v, fs.items[i], all[fs.items[i].entry])
    {
      ItemListed(v, fs, k, all, i);
    }
  }

  /**
   After any run of additions `GetDos2Directory` lists every directory as it is:
   the free sectors, and for each entry in order its status, its sectors and its
   name.  Behind the last entry the root directory may show what its eighth
   sector held before `InitVTOC`, but not as long as it has fewer than 56 entries;
   other directories show nothing more.
   */
  lemma {:induction false} EveryRunIsListed(v: Volume, d: Sectors, boot: Sectors, ops: seq<Op>, k: nat)
    requires v.Legal() && Shaped(v, d) && IsBoot(boot)
    requires k < |Run(v, Start(v, d, boot), ops).dirs|
    ensures var fs := Run(v, Start(v, d, boot), ops);
      && Open(v, fs, k)
      && var l := GetDos2Directory(v.seclen, fs.disk, Base(fs, k));
         && l.Some? && ListsDirectory(v, InitVtoc(v, d, boot), fs, k, l.value)
         && (k > 0 || |fs.dirs[0].names| < 56 ==> |l.value.entries| == |fs.dirs[k].names|)
  {
    var start := Start(v, d, boot);
    var fs := Run(v, start, ops);
    StartTails(v, d, boot);
    RunKeepsTails(v, InitVtoc(v, d, boot), start, ops);
    RunKeepsEntered(v, start, ops);
    RunRooted(v, start, ops);
    LabelAfterRun(v, d, boot, ops);
    assert Open(v, fs, k) && TailKept(v, InitVtoc(v, d, boot), fs, k);
    DirectoryListed(v, InitVtoc(v, d, boot), fs, k);
    FreshTailEnds(v, d, boot, |fs.dirs[0].names|);
  }

  lemma {:induction false} FreshTailEnds(v: Volume, d: Sectors, boot: Sectors, n: nat)
    requires v.Legal() && Shaped(v, d) && IsBoot(boot)
    ensures n < 56 ==> ListFrom(v.seclen, InitVtoc(v, d, boot), DIR_SECTOR, 8, n) == []
  {
    if n < 56 {
      FreshStatus(v, d, boot, n);
      SameSlots(v, InitVtoc(v, d, boot), DIR_SECTOR, n);
      ListEnds(v.seclen, InitVtoc(v, d, boot), DIR_SECTOR, n);
    }
  }
}
