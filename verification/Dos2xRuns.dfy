/** A disk being filled: every run of additions after `InitVTOC`, and what it keeps. */
module Dos2xRuns {
  import opened Bytes
  import opened AtrImage
  import opened Dos2xVolume
  import opened Dos2xInit
  import opened Dos2xAlloc
  import opened Dos2xChain
  import opened Dos2xNames
  import opened Dos2xFiles

  datatype Content = Root | Folder | Data(bytes: seq<byte>)

  /** A file or directory: its sectors, and the directory and entry that name it. */
  datatype Item = Item(sectors: seq<nat>, dir: nat, entry: nat, name: Name, content: Content)

  /** An open directory: the item that is its sectors, and the names entered so far. */
  datatype Dir = Dir(item: nat, names: seq<Name>)

  /** The disk, everything put on it in order, and the directories. */
  datatype FileSystem = FileSystem(disk: Sectors, items: seq<Item>, dirs: seq<Dir>)

  datatype Op =
    | PutFile(dir: nat, name: Name, data: seq<byte>)
    | PutBlock(dir: nat, name: Name, data: seq<byte>)
    | MakeDir(dir: nat, name: Name)

  const NO_NAME: Name := Repeat(BLANK, 11)

  const ROOT := Item(Octet(DIR_SECTOR), 0, 0, NO_NAME, Root)

  /** An empty disk. */
  function Empty(disk: Sectors): FileSystem {
    FileSystem(disk, [ROOT], [Dir(0, [])])
  }

  // ------------------------------------------------------------------
  // The invariant
  // ------------------------------------------------------------------

  /** The sectors of an item are in use, and no two items share one. */
  ghost predicate SectorsOk(v: Volume, fs: FileSystem)
    requires v.Legal() && Shaped(v, fs.disk)
  {
    && (forall i :: 0 <= i < |fs.items| ==> Occupied(v, fs.disk, fs.items[i].sectors))
    && (forall i, j :: 0 <= i < j < |fs.items| ==> Apart(fs.items[i].sectors, fs.items[j].sectors))
  }

  /** A directory is an item of eight adjacent sectors; its names are distinct. */
  ghost predicate DirOk(v: Volume, fs: FileSystem, k: nat)
    requires k < |fs.dirs|
  {
    && fs.dirs[k].item < |fs.items| && !fs.items[fs.dirs[k].item].content.Data?
    && |fs.items[fs.dirs[k].item].sectors| == 8 && IsDirectory(v, Base(fs, k))
    && fs.items[fs.dirs[k].item].sectors == Octet(Base(fs, k))
    && |fs.dirs[k].names| <= MAX_ENTRIES && Unique(fs.dirs[k].names)
  }

  /** The first sector of a directory. */
  function Base(fs: FileSystem, k: nat): nat
    requires k < |fs.dirs| && fs.dirs[k].item < |fs.items| && |fs.items[fs.dirs[k].item].sectors| > 0
  {
    fs.items[fs.dirs[k].item].sectors[0]
  }

  ghost predicate DirsOk(v: Volume, fs: FileSystem) {
    && (forall k: nat :: k < |fs.dirs| ==> DirOk(v, fs, k))
    && (forall k, l :: 0 <= k < l < |fs.dirs| ==> fs.dirs[k].item != fs.dirs[l].item)
  }

  /** Where an item is entered. */
  ghost predicate Entered(v: Volume, fs: FileSystem, item: Item) {
    && item.dir < |fs.dirs| && item.entry < |fs.dirs[item.dir].names| <= MAX_ENTRIES
    && fs.dirs[item.dir].names[item.entry] == item.name
    && fs.dirs[item.dir].item < |fs.items| && |fs.items[fs.dirs[item.dir].item].sectors| > 0
    && IsDirectory(v, Base(fs, item.dir))
  }

  /** An item is on the disk: its directory slot, and the chain with the bytes of a file. */
  ghost predicate OnDisk(v: Volume, fs: FileSystem, item: Item)
    requires v.Legal() && Shaped(v, fs.disk)
  {
    match item.content
    case Root => true
    case Folder =>
      && Entered(v, fs, item) && |item.sectors| == 8 && item.sectors == Octet(item.sectors[0])
      && IsAligned(item.sectors[0])
      && SlotAt(v, fs.disk, Base(fs, item.dir), item.entry) == FolderSlot(item.sectors[0], item.name)
    case Data(bytes) =>
      && Entered(v, fs, item)
      && Stored(v, fs.disk, Base(fs, item.dir), item.entry, item.name, bytes, item.sectors)
      && Distinct(item.sectors) && Linkable(v, item.sectors)
  }

  ghost predicate ItemsOk(v: Volume, fs: FileSystem)
    requires v.Legal() && Shaped(v, fs.disk)
  {
    forall i :: 0 <= i < |fs.items| ==> OnDisk(v, fs, fs.items[i])
  }

  ghost predicate Inv(v: Volume, fs: FileSystem) {
    VtocOk(v, fs.disk) && SectorsOk(v, fs) && DirsOk(v, fs) && ItemsOk(v, fs)
  }

  // ------------------------------------------------------------------
  // Steps
  // ------------------------------------------------------------------

  /** The file system after an addition to directory `k`. */
  function Extend(fs: FileSystem, k: nat, r: Outcome, content: Content): (fs2: FileSystem)
    requires k < |fs.dirs|
  {
    if !r.ok || |r.names| == 0 then fs.(disk := r.disk, dirs := fs.dirs[k := fs.dirs[k].(names := r.names)])
    else
      var dirs := fs.dirs[k := fs.dirs[k].(names := r.names)];
      FileSystem(
        r.disk,
        fs.items + [Item(r.sectors, k, |r.names| - 1, r.names[|r.names| - 1], content)],
        if content.Folder? then dirs + [Dir(|fs.items|, [])] else dirs)
  }

  /** What was there before an addition is there afterwards, but for the names in directory `k`. */
  lemma {:induction false} ExtendedDir(fs: FileSystem, k: nat, r: Outcome, content: Content, l: nat)
    requires k < |fs.dirs| && l < |fs.dirs|
    ensures var fs2 := Extend(fs, k, r, content);
      && l < |fs2.dirs| && fs2.dirs[l] == (if l == k then fs.dirs[k].(names := r.names) else fs.dirs[l])
      && |fs.items| <= |fs2.items| && forall i :: 0 <= i < |fs.items| ==> fs2.items[i] == fs.items[i]
  {
  }

  /** A directory that can be added to. */
  ghost predicate Open(v: Volume, fs: FileSystem, k: nat) {
    Inv(v, fs) && k < |fs.dirs| && DirOk(v, fs, k)
  }

  function ContentOf(op: Op): Content {
    match op
    case PutFile(_, _, data) => Data(data)
    case PutBlock(_, _, data) => Data(data)
    case MakeDir(_, _) => Folder
  }

  /** What adding to an open directory comes to. */
  function Result(v: Volume, fs: FileSystem, op: Op): Outcome
    requires Open(v, fs, op.dir)
  {
    var base, names := Base(fs, op.dir), fs.dirs[op.dir].names;
    match op
    case PutFile(_, name, data) => AddFile(v, fs.disk, base, names, name, data)
    case PutBlock(_, name, data) => AddData(v, fs.disk, base, names, name, false, data)
    case MakeDir(_, name) => AddDirectory(v, fs.disk, base, names, name)
  }

  /** One addition; a directory that does not exist cannot be added to. */
  function Apply(v: Volume, fs: FileSystem, op: Op): FileSystem
    requires Inv(v, fs)
  {
    if op.dir >= |fs.dirs| then fs
    else
      assert DirOk(v, fs, op.dir);
      Extend(fs, op.dir, Result(v, fs, op), ContentOf(op))
  }

  lemma {:induction false} BaseOccupied(v: Volume, fs: FileSystem, k: nat)
    requires Open(v, fs, k)
    ensures CanAdd(v, fs.disk, Base(fs, k), fs.dirs[k].names) && Unique(fs.dirs[k].names)
    ensures Occupied(v, fs.disk, Octet(Base(fs, k)))
  {
  }

  /** An addition that failed left everything as it was. */
  lemma {:induction false} FailedAddition(fs: FileSystem, k: nat, r: Outcome, content: Content)
    requires k < |fs.dirs| && !r.ok && r.disk == fs.disk && r.names == fs.dirs[k].names
    ensures Extend(fs, k, r, content) == fs
  {
    assert fs.dirs[k := fs.dirs[k].(names := r.names)] == fs.dirs;
  }

  ghost predicate NewItem(v: Volume, fs: FileSystem, k: nat, r: Outcome) {
    && Open(v, fs, k) && r.ok
    && Added(v, fs.disk, Base(fs, k), fs.dirs[k].names, r)
  }

  /** Sectors in use before an addition are none of those handed out, and in use after it. */
  lemma {:induction false} StillOccupied(v: Volume, fs: FileSystem, k: nat, r: Outcome, sectors: seq<nat>)
    requires NewItem(v, fs, k, r) && Occupied(v, fs.disk, sectors)
    ensures Apart(sectors, r.sectors) && Occupied(v, r.disk, sectors)
  {
    forall i | 0 <= i < |sectors|
      ensures OccupiedSector(v, r.disk, sectors[i]) && sectors[i] !in r.sectors
    {
      assert OccupiedSector(v, fs.disk, sectors[i]);
      assert sectors[i] !in FreeSet(v, fs.disk);
      assert sectors[i] !in FreeSet(v, r.disk);
      assert sectors[i] !in Elements(r.sectors);
    }
  }

  lemma {:induction false} ItemsApart(v: Volume, fs: FileSystem, i: nat, j: nat)
    requires Inv(v, fs) && i < |fs.items| && j < |fs.items| && i != j
    ensures Apart(fs.items[i].sectors, fs.items[j].sectors)
    ensures Occupied(v, fs.disk, fs.items[i].sectors)
  {
    if j < i {
      assert Apart(fs.items[j].sectors, fs.items[i].sectors);
    }
  }

  /** A list of items followed by one more. */
  lemma {:induction false} OneMoreApart(items: seq<Item>, item: Item)
    requires forall i, j :: 0 <= i < j < |items| ==> Apart(items[i].sectors, items[j].sectors)
    requires forall i :: 0 <= i < |items| ==> Apart(items[i].sectors, item.sectors)
    ensures var all := items + [item];
      forall i, j :: 0 <= i < j < |all| ==> Apart(all[i].sectors, all[j].sectors)
  {
  }

  lemma {:induction false} SectorsStayOk(v: Volume, fs: FileSystem, k: nat, r: Outcome, content: Content)
    requires NewItem(v, fs, k, r)
    ensures SectorsOk(v, Extend(fs, k, r, content))
  {
    var item := Item(r.sectors, k, |r.names| - 1, r.names[|r.names| - 1], content);
    forall i | 0 <= i < |fs.items|
      ensures Apart(fs.items[i].sectors, r.sectors) && Occupied(v, r.disk, fs.items[i].sectors)
    {
      StillOccupied(v, fs, k, r, fs.items[i].sectors);
    }
    OneMoreApart(fs.items, item);
    assert Extend(fs, k, r, content).items == fs.items + [item];
    assert forall i :: 0 <= i < |fs.items + [item]| ==> Occupied(v, r.disk, (fs.items + [item])[i].sectors);
  }

  /** The sectors handed out can serve as a directory. */
  ghost predicate FitForFolder(v: Volume, r: Outcome) {
    |r.sectors| == 8 && r.sectors == Octet(r.sectors[0]) && IsDirectory(v, r.sectors[0])
  }

  lemma {:induction false} DirStaysOk(v: Volume, fs: FileSystem, k: nat, r: Outcome, content: Content, l: nat)
    requires NewItem(v, fs, k, r) && l < |Extend(fs, k, r, content).dirs|
    requires content.Folder? ==> FitForFolder(v, r)
    ensures DirOk(v, Extend(fs, k, r, content), l)
  {
    if l < |fs.dirs| {
      assert DirOk(v, fs, l);
    }
  }

  lemma {:induction false} DirsStayOk(v: Volume, fs: FileSystem, k: nat, r: Outcome, content: Content)
    requires NewItem(v, fs, k, r)
    requires content.Folder? ==> FitForFolder(v, r)
    ensures DirsOk(v, Extend(fs, k, r, content))
  {
    forall l: nat | l < |Extend(fs, k, r, content).dirs|
      ensures DirOk(v, Extend(fs, k, r, content), l)
    {
      DirStaysOk(v, fs, k, r, content, l);
    }
    DirsStayApart(v, fs, k, r, content);
  }

  lemma {:induction false} DirsStayApart(v: Volume, fs: FileSystem, k: nat, r: Outcome, content: Content)
    requires Open(v, fs, k)
    ensures var dirs := Extend(fs, k, r, content).dirs; forall l, m :: 0 <= l < m < |dirs| ==> dirs[l].item != dirs[m].item
  {
    var dirs := Extend(fs, k, r, content).dirs;
    forall l, m | 0 <= l < m < |dirs|
      ensures dirs[l].item != dirs[m].item
    {
      assert DirOk(v, fs, l);
    }
  }

  /** The entry of an earlier item is as before. */
  lemma {:induction false} EntryKept(v: Volume, fs: FileSystem, k: nat, r: Outcome, content: Content, item: Item)
    requires NewItem(v, fs, k, r) && Entered(v, fs, item)
    ensures var fs2 := Extend(fs, k, r, content);
      Entered(v, fs2, item) && Base(fs2, item.dir) == Base(fs, item.dir)
  {
    ExtendedDir(fs, k, r, content, item.dir);
    EntryInBoth(v, fs, Extend(fs, k, r, content), item);
  }

  lemma {:induction false} EntryInBoth(v: Volume, fs: FileSystem, fs2: FileSystem, item: Item)
    requires Entered(v, fs, item) && item.dir < |fs2.dirs| && fs2.dirs[item.dir].item == fs.dirs[item.dir].item
    requires |fs.dirs[item.dir].names| <= |fs2.dirs[item.dir].names| <= MAX_ENTRIES
    requires fs2.dirs[item.dir].names[item.entry] == fs.dirs[item.dir].names[item.entry]
    requires |fs.items| <= |fs2.items| && fs2.items[fs.dirs[item.dir].item] == fs.items[fs.dirs[item.dir].item]
    ensures Entered(v, fs2, item) && Base(fs2, item.dir) == Base(fs, item.dir)
  {
  }

  lemma {:induction false} OtherDirectory(v: Volume, fs: FileSystem, k: nat, l: nat, e: nat, f: nat)
    requires Inv(v, fs) && k < |fs.dirs| && l < |fs.dirs| && k != l && e < MAX_ENTRIES && f < MAX_ENTRIES
    ensures DirOk(v, fs, k) && DirOk(v, fs, l)
    ensures SlotSector(Base(fs, k), e) != SlotSector(Base(fs, l), f)
  {
    assert DirOk(v, fs, k) && DirOk(v, fs, l);
    DirectorySectors(v, Base(fs, k), e);
    DirectorySectors(v, Base(fs, l), f);
    var i, j := fs.dirs[k].item, fs.dirs[l].item;
    assert Apart(fs.items[i].sectors, fs.items[j].sectors) || Apart(fs.items[j].sectors, fs.items[i].sectors);
  }

  /** The new entry does not go into a sector of another directory. */
  lemma {:induction false} OtherSlot(v: Volume, fs: FileSystem, k: nat, r: Outcome, l: nat, e: nat)
    requires NewItem(v, fs, k, r) && l < |fs.dirs| && l != k && e < MAX_ENTRIES
    ensures DirOk(v, fs, l) && SlotSector(Base(fs, l), e) != SlotSector(Base(fs, k), |fs.dirs[k].names|)
  {
    AddedRoom(v, fs.disk, Base(fs, k), fs.dirs[k].names, r);
    OtherDirectory(v, fs, l, k, e, |fs.dirs[k].names|);
  }

  lemma {:induction false} AddedRoom(v: Volume, d: Sectors, base: nat, names: seq<Name>, r: Outcome)
    requires Added(v, d, base, names, r)
    ensures |names| < MAX_ENTRIES
  {
  }

  lemma {:induction false} OtherDirectoryKept(v: Volume, fs: FileSystem, k: nat, r: Outcome, l: nat, e: nat)
    requires NewItem(v, fs, k, r) && l < |fs.dirs| && l != k && e < MAX_ENTRIES
    ensures DirOk(v, fs, l) && VtocOk(v, fs.disk) && VtocOk(v, r.disk)
    ensures r.disk[SlotSector(Base(fs, l), e) - 1] == fs.disk[SlotSector(Base(fs, l), e) - 1]
  {
    OtherSlot(v, fs, k, r, l, e);
    SlotSectorKept(v, fs, k, r, l, e);
  }

  lemma {:induction false} SameDirectoryKept(v: Volume, fs: FileSystem, k: nat, r: Outcome, e: nat)
    requires NewItem(v, fs, k, r) && e < MAX_ENTRIES && e != |fs.dirs[k].names|
    ensures SlotAt(v, r.disk, Base(fs, k), e) == SlotAt(v, fs.disk, Base(fs, k), e)
  {
    assert ChangesOnly(v, fs.disk, r.disk, r.sectors, Base(fs, k), |fs.dirs[k].names|);
  }

  /** The slot of an earlier item is as before. */
  lemma {:induction false} SlotKept(v: Volume, fs: FileSystem, k: nat, r: Outcome, item: Item)
    requires NewItem(v, fs, k, r) && Entered(v, fs, item)
    ensures SlotAt(v, r.disk, Base(fs, item.dir), item.entry) == SlotAt(v, fs.disk, Base(fs, item.dir), item.entry)
  {
    var base := Base(fs, item.dir);
    if item.dir != k {
      OtherDirectoryKept(v, fs, k, r, item.dir, item.entry);
      SlotFrame(v, fs.disk, r.disk, base, item.entry);
    } else {
      SameDirectoryKept(v, fs, k, r, item.entry);
    }
  }

  lemma {:induction false} SlotSectorKept(v: Volume, fs: FileSystem, k: nat, r: Outcome, l: nat, e: nat)
    requires NewItem(v, fs, k, r) && l < |fs.dirs| && DirOk(v, fs, l) && e < MAX_ENTRIES
    requires SlotSector(Base(fs, l), e) != SlotSector(Base(fs, k), |fs.dirs[k].names|)
    ensures r.disk[SlotSector(Base(fs, l), e) - 1] == fs.disk[SlotSector(Base(fs, l), e) - 1]
  {
    var o := Octet(Base(fs, l));
    StillOccupied(v, fs, k, r, o);
    DirectorySectors(v, Base(fs, l), e);
    var i :| 0 <= i < 8 && SlotSector(Base(fs, l), e) == o[i];
    assert OccupiedSector(v, fs.disk, o[i]);
  }

  /** A file's sectors are not those of a directory. */
  lemma {:induction false} FileNotDirectory(v: Volume, fs: FileSystem, k: nat, e: nat, i: nat)
    requires Open(v, fs, k) && e < MAX_ENTRIES && i < |fs.items| && fs.items[i].content.Data?
    ensures SlotSector(Base(fs, k), e) !in fs.items[i].sectors
  {
    DirectorySectors(v, Base(fs, k), e);
    ItemsApart(v, fs, i, fs.dirs[k].item);
  }

  /** Sectors an addition has no business with. */
  predicate Untouched(v: Volume, s: seq<nat>, sectors: seq<nat>, slotSector: nat)
    requires v.Legal()
  {
    && slotSector !in s && Apart(s, sectors)
    && forall j :: 0 <= j < |s| ==> InRange(v, s[j]) && !IsVtocSector(v, s[j])
  }

  lemma {:induction false} FileUntouched(v: Volume, fs: FileSystem, k: nat, r: Outcome, i: nat)
    requires NewItem(v, fs, k, r) && i < |fs.items| && fs.items[i].content.Data?
    ensures Untouched(v, fs.items[i].sectors, r.sectors, SlotSector(Base(fs, k), |fs.dirs[k].names|))
  {
    assert Occupied(v, fs.disk, fs.items[i].sectors);
    StillOccupied(v, fs, k, r, fs.items[i].sectors);
    FileNotDirectory(v, fs, k, |fs.dirs[k].names|, i);
  }

  lemma {:induction false} UntouchedKept(v: Volume, d: Sectors, r: Sectors, sectors: seq<nat>, base: nat, entry: nat, s: seq<nat>)
    requires ChangesOnly(v, d, r, sectors, base, entry) && Untouched(v, s, sectors, SlotSector(base, entry))
    ensures forall j :: 0 <= j < |s| ==> r[s[j] - 1] == d[s[j] - 1]
  {
    forall j | 0 <= j < |s|
      ensures r[s[j] - 1] == d[s[j] - 1]
    {
      KeptElsewhere(v, d, r, sectors, base, entry, s[j]);
    }
  }

  lemma {:induction false} KeptElsewhere(v: Volume, d: Sectors, r: Sectors, sectors: seq<nat>, base: nat, entry: nat, s: nat)
    requires ChangesOnly(v, d, r, sectors, base, entry)
    requires 1 <= s <= v.numsec && !IsVtocSector(v, s) && s !in sectors && s != SlotSector(base, entry)
    ensures r[s - 1] == d[s - 1]
  {
  }

  lemma {:induction false} StoredKept(v: Volume, d: Sectors, r: Sectors, base: nat, entry: nat, name: Name, data: seq<byte>, sectors: seq<nat>)
    requires Stored(v, d, base, entry, name, data, sectors) && Shaped(v, r)
    requires SlotAt(v, r, base, entry) == SlotAt(v, d, base, entry)
    requires forall j :: 0 <= j < |sectors| ==> r[sectors[j] - 1] == d[sectors[j] - 1]
    ensures Stored(v, r, base, entry, name, data, sectors)
  {
    HoldsChainFrame(v, d, r, data, sectors, entry);
  }

  lemma {:induction false} FileStaysStored(v: Volume, d: Sectors, r: Outcome, base: nat, entry: nat, at: nat, item: Item)
    requires item.content.Data? && Stored(v, d, at, item.entry, item.name, item.content.bytes, item.sectors)
    requires ChangesOnly(v, d, r.disk, r.sectors, base, entry)
    requires Untouched(v, item.sectors, r.sectors, SlotSector(base, entry))
    requires SlotAt(v, r.disk, at, item.entry) == SlotAt(v, d, at, item.entry)
    ensures Stored(v, r.disk, at, item.entry, item.name, item.content.bytes, item.sectors)
  {
    UntouchedKept(v, d, r.disk, r.sectors, base, entry, item.sectors);
    StoredKept(v, d, r.disk, at, item.entry, item.name, item.content.bytes, item.sectors);
  }

  lemma {:induction false} FileKept(v: Volume, fs: FileSystem, k: nat, r: Outcome, content: Content, i: nat)
    requires NewItem(v, fs, k, r) && i < |fs.items| && fs.items[i].content.Data?
    ensures OnDisk(v, Extend(fs, k, r, content), fs.items[i])
  {
    assert OnDisk(v, fs, fs.items[i]);
    FileUntouched(v, fs, k, r, i);
    EntryKept(v, fs, k, r, content, fs.items[i]);
    SlotKept(v, fs, k, r, fs.items[i]);
    FileStaysStored(v, fs.disk, r, Base(fs, k), |fs.dirs[k].names|, Base(fs, fs.items[i].dir), fs.items[i]);
  }

  lemma {:induction false} ItemKept(v: Volume, fs: FileSystem, k: nat, r: Outcome, content: Content, i: nat)
    requires NewItem(v, fs, k, r) && i < |fs.items|
    ensures OnDisk(v, Extend(fs, k, r, content), fs.items[i])
  {
    var item := fs.items[i];
    assert OnDisk(v, fs, item);
    if item.content.Data? {
      FileKept(v, fs, k, r, content, i);
    } else if item.content.Folder? {
      EntryKept(v, fs, k, r, content, item);
      SlotKept(v, fs, k, r, item);
    }
  }

  /** What was put on the disk is there. */
  ghost predicate NewOnDisk(v: Volume, fs: FileSystem, k: nat, r: Outcome, content: Content) {
    && NewItem(v, fs, k, r)
    && (content.Data? ==> Stored(v, r.disk, Base(fs, k), |fs.dirs[k].names|, r.names[|fs.dirs[k].names|], content.bytes, r.sectors))
    && (content.Folder? ==>
          |r.sectors| == 8 && r.sectors == Octet(r.sectors[0]) && IsAligned(r.sectors[0])
          && Made(v, r.disk, Base(fs, k), |fs.dirs[k].names|, r.names[|fs.dirs[k].names|], r.sectors[0]))
    && !content.Root?
  }

  lemma {:induction false} NewItemOnDisk(v: Volume, fs: FileSystem, k: nat, r: Outcome, content: Content)
    requires NewOnDisk(v, fs, k, r, content)
    ensures var fs2 := Extend(fs, k, r, content); OnDisk(v, fs2, fs2.items[|fs.items|])
  {
    var fs2 := Extend(fs, k, r, content);
    assert fs2.dirs[k].names == r.names;
    assert Base(fs2, k) == Base(fs, k);
  }

  lemma {:induction false} ExtendKeepsInv(v: Volume, fs: FileSystem, k: nat, r: Outcome, content: Content)
    requires NewOnDisk(v, fs, k, r, content)
    ensures Inv(v, Extend(fs, k, r, content))
  {
    var fs2 := Extend(fs, k, r, content);
    SectorsStayOk(v, fs, k, r, content);
    DirsStayOk(v, fs, k, r, content);
    forall i | 0 <= i < |fs2.items|
      ensures OnDisk(v, fs2, fs2.items[i])
    {
      if i < |fs.items| {
        ItemKept(v, fs, k, r, content, i);
      } else {
        NewItemOnDisk(v, fs, k, r, content);
      }
    }
  }

  /** What a step adds to: nothing that was there is lost or changed. */
  predicate Grows(fs: FileSystem, fs2: FileSystem) {
    |fs.items| <= |fs2.items| && fs.items == fs2.items[..|fs.items|]
  }

  lemma {:induction false} AdditionKeepsInv(v: Volume, fs: FileSystem, k: nat, r: Outcome, content: Content)
    requires Inv(v, fs) && k < |fs.dirs|
    requires r.ok ==> NewOnDisk(v, fs, k, r, content)
    requires !r.ok ==> r.disk == fs.disk && r.names == fs.dirs[k].names
    ensures Inv(v, Extend(fs, k, r, content)) && Grows(fs, Extend(fs, k, r, content))
  {
    if r.ok {
      ExtendKeepsInv(v, fs, k, r, content);
    } else {
      FailedAddition(fs, k, r, content);
    }
  }

  /** What an addition does: it succeeds exactly if there is room, and else leaves everything alone. */
  ghost predicate Decided(v: Volume, fs: FileSystem, op: Op)
    requires Open(v, fs, op.dir)
  {
    var r := Result(v, fs, op);
    && (r.ok <==> HasRoomFor(v, fs, op))
    && (r.ok ==> NewOnDisk(v, fs, op.dir, r, ContentOf(op)))
    && (!r.ok ==> r.disk == fs.disk && r.names == fs.dirs[op.dir].names)
  }

  /** There is room on the disk and in the directory; only a block cannot be given another name. */
  ghost predicate HasRoomFor(v: Volume, fs: FileSystem, op: Op)
    requires Open(v, fs, op.dir)
  {
    var names := fs.dirs[op.dir].names;
    match op
    case PutFile(_, name, data) => |data| <= MAX_FILE_LEN && RoomForFile(v, fs.disk, names, name, true, |data|)
    case PutBlock(_, name, data) => RoomForFile(v, fs.disk, names, name, false, |data|)
    case MakeDir(_, _) => RoomForDirectory(v, fs.disk, names)
  }

  lemma {:induction false} PutFileDecided(v: Volume, fs: FileSystem, op: Op)
    requires Open(v, fs, op.dir) && op.PutFile?
    ensures Decided(v, fs, op)
  {
    var base, names := Base(fs, op.dir), fs.dirs[op.dir].names;
    BaseOccupied(v, fs, op.dir);
    NeverCutOff(v, fs.disk, base, names, op.name, op.data);
    AddDataCorrect(v, fs.disk, base, names, op.name, true,
                   if |op.data| > MAX_FILE_LEN then op.data[..MAX_FILE_LEN] else op.data);
  }

  lemma {:induction false} PutBlockDecided(v: Volume, fs: FileSystem, op: Op)
    requires Open(v, fs, op.dir) && op.PutBlock?
    ensures Decided(v, fs, op)
  {
    BaseOccupied(v, fs, op.dir);
    AddDataCorrect(v, fs.disk, Base(fs, op.dir), fs.dirs[op.dir].names, op.name, false, op.data);
  }

  lemma {:induction false} MakeDirDecided(v: Volume, fs: FileSystem, op: Op)
    requires Open(v, fs, op.dir) && op.MakeDir?
    ensures Decided(v, fs, op)
  {
    BaseOccupied(v, fs, op.dir);
    AddDirectoryCorrect(v, fs.disk, Base(fs, op.dir), fs.dirs[op.dir].names, op.name);
  }

  lemma {:induction false} EveryOpDecided(v: Volume, fs: FileSystem, op: Op)
    requires Open(v, fs, op.dir)
    ensures Decided(v, fs, op)
  {
    match op
    case PutFile(_, _, _) => PutFileDecided(v, fs, op);
    case PutBlock(_, _, _) => PutBlockDecided(v, fs, op);
    case MakeDir(_, _) => MakeDirDecided(v, fs, op);
  }

  lemma {:induction false} ApplyKeepsInv(v: Volume, fs: FileSystem, op: Op)
    requires Inv(v, fs)
    ensures Inv(v, Apply(v, fs, op)) && Grows(fs, Apply(v, fs, op))
  {
    if op.dir < |fs.dirs| {
      assert DirOk(v, fs, op.dir);
      EveryOpDecided(v, fs, op);
      AdditionKeepsInv(v, fs, op.dir, Result(v, fs, op), ContentOf(op));
    }
  }

  // ------------------------------------------------------------------
  // Runs
  // ------------------------------------------------------------------

  /** Any sequence of additions. */
  function Run(v: Volume, fs: FileSystem, ops: seq<Op>): (r: FileSystem)
    requires Inv(v, fs)
    ensures Inv(v, r) && Grows(fs, r)
    decreases |ops|
  {
    if ops == [] then fs
    else
      ApplyKeepsInv(v, fs, ops[0]);
      Run(v, Apply(v, fs, ops[0]), ops[1..])
  }

  lemma {:induction false} RootOccupied(v: Volume, d: Sectors)
    requires FreshVtoc(v, d)
    ensures Occupied(v, d, Octet(DIR_SECTOR))
  {
    VtocBounds(v);
    forall i | 0 <= i < 8
      ensures OccupiedSector(v, d, Octet(DIR_SECTOR)[i])
    {
      assert !v.Allocatable(DIR_SECTOR + i);
    }
  }

  lemma {:induction false} EmptyInv(v: Volume, d: Sectors)
    requires FreshVtoc(v, d)
    ensures Inv(v, Empty(d))
  {
    FreshVtocOk(v, d);
    RootOccupied(v, d);
    assert DirOk(v, Empty(d), 0);
  }

  /** The disk as `InitVTOC` leaves it. */
  function Start(v: Volume, d: Sectors, boot: Sectors): (fs: FileSystem)
    requires v.Legal() && Shaped(v, d) && IsBoot(boot)
    ensures Inv(v, fs)
  {
    InitVtocVtoc(v, d, boot);
    EmptyInv(v, InitVtoc(v, d, boot));
    Empty(InitVtoc(v, d, boot))
  }

  /** The sector a directory slot on the disk names, and the file read from there. */
  function ReadEntry(v: Volume, d: Sectors, base: nat, entry: nat, rest: seq<byte>): Reading
    requires v.Legal() && Shaped(v, d) && IsDirectory(v, base) && entry < MAX_ENTRIES && v.seclen + |rest| == 256
  {
    var slot := SlotAt(v, d, base, entry);
    ReadFile(v, d, slot[0] / 4 % 2 == 1, rest, SlotStart(slot))
  }

  lemma {:induction false} StatusTellsLinks(v: Volume, above720: bool)
    requires v.Legal()
    ensures var status: nat := FileStatus(v, above720); status / 4 % 2 == 1 <==> v.Link16()
  {
  }

  lemma {:induction false} StoredReadsBack(v: Volume, d: Sectors, base: nat, entry: nat, name: Name, data: seq<byte>, sectors: seq<nat>, rest: seq<byte>)
    requires Stored(v, d, base, entry, name, data, sectors) && Distinct(sectors) && Linkable(v, sectors)
    requires v.seclen + |rest| == 256
    ensures ReadEntry(v, d, base, entry, rest) == Reading(true, data)
    ensures SlotName(SlotAt(v, d, base, entry)) == name && SlotCount(SlotAt(v, d, base, entry)) == |sectors|
  {
    var status := FileStatus(v, Above720(sectors));
    SectorsBound(v, sectors);
    SlotReads(status, |sectors|, sectors[0], name);
    StatusTellsLinks(v, Above720(sectors));
    ChainReadsBack(v, d, data, sectors, entry, rest);
  }

  lemma {:induction false} FileReadsBack(v: Volume, fs: FileSystem, i: nat, rest: seq<byte>)
    requires Inv(v, fs) && i < |fs.items| && fs.items[i].content.Data? && v.seclen + |rest| == 256
    ensures Entered(v, fs, fs.items[i])
    ensures ReadEntry(v, fs.disk, Base(fs, fs.items[i].dir), fs.items[i].entry, rest) == Reading(true, fs.items[i].content.bytes)
  {
    var item := fs.items[i];
    assert OnDisk(v, fs, item);
    StoredReadsBack(v, fs.disk, Base(fs, item.dir), item.entry, item.name, item.content.bytes, item.sectors, rest);
  }

  lemma {:induction false} SectorsBound(v: Volume, s: seq<nat>)
    requires v.Legal() && AllInRange(v, s) && Distinct(s)
    ensures |s| < 0x1_0000 && forall i :: 0 <= i < |s| ==> s[i] < 0x1_0000
  {
    DistinctSize(s);
    var all := set n: nat | n < 65536 && InRange(v, n);
    SubsetSize(Elements(s), all);
    IntervalSize(all, 4, v.numsec + 1);
  }

  lemma {:induction false} DistinctSize(s: seq<nat>)
    requires Distinct(s)
    ensures |Elements(s)| == |s|
  {
    if |s| == 0 {
      assert Elements(s) == {};
    } else {
      DistinctSize(s[1..]);
      assert Elements(s) == Elements(s[1..]) + {s[0]};
    }
  }

  // ------------------------------------------------------------------
  // What stays as it was
  // ------------------------------------------------------------------

  /** Sectors of no item are as before, but for the VTOC; and there only bits and counts have changed. */
  ghost predicate OthersKept(v: Volume, fs: FileSystem, r: FileSystem) {
    && LabelKept(v, fs.disk, r.disk)
    && forall s :: 1 <= s <= v.numsec && !IsVtocSector(v, s) && OfNoItem(r, s) ==> r.disk[s - 1] == fs.disk[s - 1]
  }

  predicate OfNoItem(fs: FileSystem, s: nat) {
    forall i :: 0 <= i < |fs.items| ==> s !in fs.items[i].sectors
  }

  lemma {:induction false} OfNoItemBefore(fs: FileSystem, r: FileSystem, s: nat)
    requires Grows(fs, r) && OfNoItem(r, s)
    ensures OfNoItem(fs, s)
  {
    forall i | 0 <= i < |fs.items|
      ensures s !in fs.items[i].sectors
    {
      assert fs.items[i] == r.items[..|fs.items|][i];
    }
  }

  lemma {:induction false} AdditionKeepsOthers(v: Volume, fs: FileSystem, k: nat, r: Outcome, content: Content)
    requires NewItem(v, fs, k, r)
    ensures OthersKept(v, fs, Extend(fs, k, r, content))
  {
    var fs2 := Extend(fs, k, r, content);
    var base, entry := Base(fs, k), |fs.dirs[k].names|;
    assert fs2.disk == r.disk && fs2.items[|fs.items|].sectors == r.sectors;
    forall s: nat | 1 <= s <= v.numsec && !IsVtocSector(v, s) && OfNoItem(fs2, s)
      ensures fs2.disk[s - 1] == fs.disk[s - 1]
    {
      assert s !in fs2.items[|fs.items|].sectors && s !in fs2.items[fs.dirs[k].item].sectors;
      DirectorySectors(v, base, entry);
      KeptElsewhere(v, fs.disk, r.disk, r.sectors, base, entry, s);
    }
  }

  lemma {:induction false} SameLabel(v: Volume, d: Sectors)
    requires v.Legal() && Shaped(v, d)
    ensures LabelKept(v, d, d)
  {
  }

  lemma {:induction false} ApplyKeepsOthers(v: Volume, fs: FileSystem, op: Op)
    requires Inv(v, fs)
    ensures OthersKept(v, fs, Apply(v, fs, op))
  {
    if op.dir < |fs.dirs| {
      assert DirOk(v, fs, op.dir);
      OpKeepsOthers(v, fs, op);
    } else {
      SameLabel(v, fs.disk);
    }
  }

  lemma {:induction false} OpKeepsOthers(v: Volume, fs: FileSystem, op: Op)
    requires Open(v, fs, op.dir)
    ensures OthersKept(v, fs, Extend(fs, op.dir, Result(v, fs, op), ContentOf(op)))
  {
    EveryOpDecided(v, fs, op);
    ResultKeepsOthers(v, fs, op.dir, Result(v, fs, op), ContentOf(op));
  }

  lemma {:induction false} ResultKeepsOthers(v: Volume, fs: FileSystem, k: nat, r: Outcome, content: Content)
    requires Open(v, fs, k)
    requires r.ok ==> NewItem(v, fs, k, r)
    requires !r.ok ==> r.disk == fs.disk && r.names == fs.dirs[k].names
    ensures OthersKept(v, fs, Extend(fs, k, r, content))
  {
    if r.ok {
      AdditionKeepsOthers(v, fs, k, r, content);
    } else {
      SameLabel(v, fs.disk);
      FailedAddition(fs, k, r, content);
    }
  }

  lemma {:induction false} OthersTransitive(v: Volume, fs: FileSystem, fs2: FileSystem, r: FileSystem)
    requires OthersKept(v, fs, fs2) && OthersKept(v, fs2, r) && Grows(fs2, r)
    ensures OthersKept(v, fs, r)
  {
    LabelTransitive(v, fs.disk, fs2.disk, r.disk);
    forall s: nat | 1 <= s <= v.numsec && !IsVtocSector(v, s) && OfNoItem(r, s)
      ensures r.disk[s - 1] == fs.disk[s - 1]
    {
      OfNoItemBefore(fs2, r, s);
    }
  }

  /** A run changes nothing on the disk but the sectors of its items, and bits and counts of the VTOC. */
  lemma {:induction false} RunKeepsOthers(v: Volume, fs: FileSystem, ops: seq<Op>)
    requires Inv(v, fs)
    ensures OthersKept(v, fs, Run(v, fs, ops))
    decreases |ops|
  {
    if ops == [] {
      SameLabel(v, fs.disk);
    } else {
      var fs2 := Apply(v, fs, ops[0]);
      ApplyKeepsInv(v, fs, ops[0]);
      ApplyKeepsOthers(v, fs, ops[0]);
      RunKeepsOthers(v, fs2, ops[1..]);
      OthersTransitive(v, fs, fs2, Run(v, fs2, ops[1..]));
    }
  }

  // ------------------------------------------------------------------
  // Finding files on the disk
  // ------------------------------------------------------------------

  /** The first directory is the root; every other was made in an earlier one. */
  predicate Rooted(fs: FileSystem) {
    && |fs.items| > 0 && |fs.dirs| > 0 && fs.items[0] == ROOT && fs.dirs[0].item == 0
    && (forall i :: 0 < i < |fs.items| ==> !fs.items[i].content.Root?)
    && forall k :: 0 < k < |fs.dirs| ==>
         fs.dirs[k].item < |fs.items| && fs.items[fs.dirs[k].item].content.Folder? && fs.items[fs.dirs[k].item].dir < k
  }

  lemma {:induction false} ExtendRooted(fs: FileSystem, k: nat, r: Outcome, content: Content)
    requires Rooted(fs) && k < |fs.dirs| && !content.Root?
    ensures Rooted(Extend(fs, k, r, content))
  {
  }

  lemma {:induction false} RootedKept(v: Volume, fs: FileSystem, op: Op)
    requires Inv(v, fs) && Rooted(fs)
    ensures Rooted(Apply(v, fs, op))
  {
    if op.dir < |fs.dirs| {
      assert DirOk(v, fs, op.dir);
      ExtendRooted(fs, op.dir, Result(v, fs, op), ContentOf(op));
    }
  }

  lemma {:induction false} RunRooted(v: Volume, fs: FileSystem, ops: seq<Op>)
    requires Inv(v, fs) && Rooted(fs)
    ensures Rooted(Run(v, fs, ops))
    decreases |ops|
  {
    if ops != [] {
      ApplyKeepsInv(v, fs, ops[0]);
      RootedKept(v, fs, ops[0]);
      RunRooted(v, Apply(v, fs, ops[0]), ops[1..]);
    }
  }

  /** The entries to follow from the root directory to a directory. */
  function PathTo(fs: FileSystem, k: nat): seq<nat>
    requires Rooted(fs) && k < |fs.dirs|
    decreases k
  {
    if k == 0 then [] else PathTo(fs, fs.items[fs.dirs[k].item].dir) + [fs.items[fs.dirs[k].item].entry]
  }

  /** Where the directory slots on the disk lead, from sector 361 on. */
  function DirectoryAt(v: Volume, d: Sectors, path: seq<nat>): Option<nat>
    requires v.Legal() && Shaped(v, d)
    decreases |path|
  {
    if path == [] then Some(DIR_SECTOR)
    else
      match DirectoryAt(v, d, path[..|path| - 1])
      case None => None
      case Some(base) =>
        if !IsDirectory(v, base) || path[|path| - 1] >= MAX_ENTRIES then None
        else
          var slot := SlotAt(v, d, base, path[|path| - 1]);
          if slot[0] != DIRECTORY_STATUS then None else Some(SlotStart(slot))
  }

  /** The file at the end of a path. */
  function ReadPath(v: Volume, d: Sectors, path: seq<nat>, entry: nat, rest: seq<byte>): Reading
    requires v.Legal() && Shaped(v, d) && entry < MAX_ENTRIES && v.seclen + |rest| == 256
  {
    match DirectoryAt(v, d, path)
    case None => Reading(false, [])
    case Some(base) => if !IsDirectory(v, base) then Reading(false, []) else ReadEntry(v, d, base, entry, rest)
  }

  lemma {:induction false} FolderSlotReads(v: Volume, first: nat, name: Name)
    requires v.Legal() && IsDirectory(v, first)
    ensures FolderSlot(first, name)[0] == DIRECTORY_STATUS && SlotStart(FolderSlot(first, name)) == first
  {
    SlotReads(DIRECTORY_STATUS, 8, first, name);
  }

  /** The slot of a subdirectory leads to its first sector. */
  lemma {:induction false} FolderFound(v: Volume, fs: FileSystem, item: Item, path: seq<nat>)
    requires v.Legal() && Shaped(v, fs.disk) && item.content.Folder? && OnDisk(v, fs, item)
    requires IsDirectory(v, item.sectors[0]) && DirectoryAt(v, fs.disk, path) == Some(Base(fs, item.dir))
    ensures DirectoryAt(v, fs.disk, path + [item.entry]) == Some(item.sectors[0])
  {
    FolderSlotReads(v, item.sectors[0], item.name);
    var longer := path + [item.entry];
    assert longer[..|longer| - 1] == path;
  }

  /** The recorded path of every directory leads to it on the disk. */
  lemma {:induction false} DirectoryFound(v: Volume, fs: FileSystem, k: nat)
    requires Inv(v, fs) && Rooted(fs) && k < |fs.dirs|
    ensures DirOk(v, fs, k) && DirectoryAt(v, fs.disk, PathTo(fs, k)) == Some(Base(fs, k))
    decreases k
  {
    assert DirOk(v, fs, k);
    if k > 0 {
      var item := fs.items[fs.dirs[k].item];
      assert OnDisk(v, fs, item);
      DirectoryFound(v, fs, item.dir);
      FolderFound(v, fs, item, PathTo(fs, item.dir));
    }
  }

  lemma {:induction false} FolderInRange(v: Volume, fs: FileSystem, i: nat)
    requires Inv(v, fs) && i < |fs.items| && fs.items[i].content.Folder?
    ensures |fs.items[i].sectors| == 8 && IsDirectory(v, fs.items[i].sectors[0])
  {
    var s := fs.items[i].sectors;
    assert OnDisk(v, fs, fs.items[i]) && Occupied(v, fs.disk, s);
    assert s[7] == s[0] + 7 && OccupiedSector(v, fs.disk, s[7]) && OccupiedSector(v, fs.disk, s[0]);
  }

  /** The slot of an entry in the directory at the end of a path. */
  function SlotOnPath(v: Volume, d: Sectors, path: seq<nat>, entry: nat): Option<Slot>
    requires v.Legal() && Shaped(v, d)
  {
    match DirectoryAt(v, d, path)
    case None => None
    case Some(base) => if !IsDirectory(v, base) || entry >= MAX_ENTRIES then None else Some(SlotAt(v, d, base, entry))
  }

  /** What the slot of an item says, byte for byte, and what its sectors say besides the data. */
  ghost predicate DescribedOnDisk(v: Volume, d: Sectors, item: Item, slot: Slot)
    requires v.Legal() && Shaped(v, d)
  {
    && |item.sectors| > 0 && AllInRange(v, item.sectors) && SlotTells(slot, |item.sectors|, item.sectors[0], item.name)
    && (item.content.Folder? ==> slot[0] == 0x10)
    && (item.content.Data? ==> FileStatusTells(v, slot[0], item.sectors))
    && forall i :: item.content.Data? && 0 <= i < |item.sectors| ==> SectorTells(v, d[item.sectors[i] - 1], item.entry)
  }

  ghost predicate DescribedAt(v: Volume, d: Sectors, item: Item, slot: Option<Slot>)
    requires v.Legal() && Shaped(v, d)
  {
    slot.Some? && DescribedOnDisk(v, d, item, slot.value)
  }

  lemma {:induction false} FileDescribed(v: Volume, fs: FileSystem, item: Item)
    requires v.Legal() && Shaped(v, fs.disk) && item.content.Data? && OnDisk(v, fs, item)
    ensures DescribedOnDisk(v, fs.disk, item, SlotAt(v, fs.disk, Base(fs, item.dir), item.entry))
  {
    SectorsBound(v, item.sectors);
    FileStatusIsRight(v, item.sectors);
    SlotBytesTell(FileStatus(v, Above720(item.sectors)), |item.sectors|, item.sectors[0], item.name);
    forall i | 0 <= i < |item.sectors|
      ensures SectorTells(v, fs.disk[item.sectors[i] - 1], item.entry)
    {
      ChainTells(v, item.content.bytes, item.sectors, item.entry, i);
    }
  }

  lemma {:induction false} FolderDescribed(v: Volume, fs: FileSystem, i: nat)
    requires Inv(v, fs) && i < |fs.items| && fs.items[i].content.Folder?
    ensures Entered(v, fs, fs.items[i])
    ensures DescribedOnDisk(v, fs.disk, fs.items[i], SlotAt(v, fs.disk, Base(fs, fs.items[i].dir), fs.items[i].entry))
  {
    var item := fs.items[i];
    assert OnDisk(v, fs, item) && Occupied(v, fs.disk, item.sectors);
    FolderInRange(v, fs, i);
    forall j | 0 <= j < |item.sectors|
      ensures InRange(v, item.sectors[j])
    {
      assert OccupiedSector(v, fs.disk, item.sectors[j]);
    }
    SlotBytesTell(DIRECTORY_STATUS, 8, item.sectors[0], item.name);
  }

  /** A file or subdirectory is found by following the slots on the disk, and its slot describes it. */
  ghost predicate FoundByPath(v: Volume, fs: FileSystem, item: Item, rest: seq<byte>)
    requires v.Legal() && Shaped(v, fs.disk) && Rooted(fs) && v.seclen + |rest| == 256
  {
    && Entered(v, fs, item)
    && (item.content.Root? || DescribedAt(v, fs.disk, item, SlotOnPath(v, fs.disk, PathTo(fs, item.dir), item.entry)))
    && match item.content
       case Root => true
       case Folder => |item.sectors| == 8 && DirectoryAt(v, fs.disk, PathTo(fs, item.dir) + [item.entry]) == Some(item.sectors[0])
       case Data(bytes) => ReadPath(v, fs.disk, PathTo(fs, item.dir), item.entry, rest) == Reading(true, bytes)
  }

  lemma {:induction false} ItemFound(v: Volume, fs: FileSystem, i: nat, rest: seq<byte>)
    requires Inv(v, fs) && Rooted(fs) && i < |fs.items| && !fs.items[i].content.Root? && v.seclen + |rest| == 256
    ensures FoundByPath(v, fs, fs.items[i], rest)
  {
    var item := fs.items[i];
    assert OnDisk(v, fs, item);
    DirectoryFound(v, fs, item.dir);
    if item.content.Folder? {
      FolderInRange(v, fs, i);
      FolderFound(v, fs, item, PathTo(fs, item.dir));
      FolderDescribed(v, fs, i);
    } else {
      FileReadsBack(v, fs, i, rest);
      FileDescribed(v, fs, item);
    }
  }

  lemma {:induction false} LabelAfterRun(v: Volume, d: Sectors, boot: Sectors, ops: seq<Op>)
    requires v.Legal() && Shaped(v, d) && IsBoot(boot)
    ensures var fs := Run(v, Start(v, d, boot), ops); Labelled(v, fs.disk) && fs.disk[..3] == boot
  {
    var start := Start(v, d, boot);
    var fs := Run(v, start, ops);
    InitVtocLabelled(v, d, boot);
    RunKeepsOthers(v, start, ops);
    LabelledKept(v, start.disk, fs.disk);
    BootKept(v, start, fs);
    BootWritten(v, d, boot);
  }

  lemma {:induction false} BootWritten(v: Volume, d: Sectors, boot: Sectors)
    requires v.Legal() && Shaped(v, d) && IsBoot(boot)
    ensures InitVtoc(v, d, boot)[..3] == boot
  {
    InitVtocCorrect(v, d, boot);
    FirstThree(InitVtoc(v, d, boot), boot);
  }

  lemma {:induction false} FirstThree(d: Sectors, boot: Sectors)
    requires |d| >= 3 && |boot| == 3 && d[0] == boot[0] && d[1] == boot[1] && d[2] == boot[2]
    ensures d[..3] == boot
  {
  }

  lemma {:induction false} BootKept(v: Volume, fs: FileSystem, r: FileSystem)
    requires Inv(v, fs) && Inv(v, r) && OthersKept(v, fs, r)
    ensures r.disk[..3] == fs.disk[..3]
  {
    NotBoot(v, r, 1);
    NotBoot(v, r, 2);
    NotBoot(v, r, 3);
    assert r.disk[1 - 1] == fs.disk[1 - 1] && r.disk[2 - 1] == fs.disk[2 - 1] && r.disk[3 - 1] == fs.disk[3 - 1];
  }

  lemma {:induction false} NotBoot(v: Volume, fs: FileSystem, s: nat)
    requires Inv(v, fs) && 1 <= s <= 3
    ensures OfNoItem(fs, s) && !IsVtocSector(v, s)
  {
    VtocBounds(v);
    forall i | 0 <= i < |fs.items|
      ensures s !in fs.items[i].sectors
    {
      NotAmong(v, fs.disk, fs.items[i].sectors, s);
    }
  }

  lemma {:induction false} NotAmong(v: Volume, d: Sectors, sectors: seq<nat>, s: nat)
    requires v.Legal() && Shaped(v, d) && Occupied(v, d, sectors) && s <= 3
    ensures s !in sectors
  {
    forall j | 0 <= j < |sectors|
      ensures sectors[j] != s
    {
      assert OccupiedSector(v, d, sectors[j]);
    }
  }

  /**
   After `InitVTOC` on any disk and any sequence of additions, failed ones
   included: following the slots on the disk from sector 361 on leads to every
   subdirectory made and every file added, and the file reads back byte for byte;
   no two files or directories share a sector; the free count is right, and so is
   the copy of the VTOC on DOS 2.5; the names in each directory are distinct; and
   the type byte and the boot sectors are still there.
   */
  lemma {:induction false} EveryRunKeepsEveryFile(v: Volume, d: Sectors, boot: Sectors, ops: seq<Op>, rest: seq<byte>)
    requires v.Legal() && Shaped(v, d) && IsBoot(boot) && v.seclen + |rest| == 256
    ensures var fs := Run(v, Start(v, d, boot), ops);
      && StoredFree(v, fs.disk) == |FreeSet(v, fs.disk)| && CopyAgrees(v, fs.disk)
      && (forall i, j :: 0 <= i < j < |fs.items| ==> Apart(fs.items[i].sectors, fs.items[j].sectors))
      && (forall k :: 0 <= k < |fs.dirs| ==> Unique(fs.dirs[k].names))
      && Rooted(fs)
      && (forall i: nat :: 0 < i < |fs.items| ==> FoundByPath(v, fs, fs.items[i], rest))
      && Labelled(v, fs.disk) && fs.disk[..3] == boot
  {
    var fs := Run(v, Start(v, d, boot), ops);
    StoredIsFree(v, fs.disk);
    LabelAfterRun(v, d, boot, ops);
    RunRooted(v, Start(v, d, boot), ops);
    forall k: nat | k < |fs.dirs|
      ensures Unique(fs.dirs[k].names)
    {
      assert DirOk(v, fs, k);
    }
    forall i: nat | 0 < i < |fs.items|
      ensures FoundByPath(v, fs, fs.items[i], rest)
    {
      ItemFound(v, fs, i, rest);
    }
  }

  /** An addition is on record: an item with its contents, entered behind the others of its directory. */
  predicate Recorded(fs: FileSystem, fs2: FileSystem, op: Op)
    requires op.dir < |fs.dirs|
  {
    && |fs2.items| == |fs.items| + 1 && fs2.items[..|fs.items|] == fs.items
    && fs2.items[|fs.items|].content == ContentOf(op)
    && fs2.items[|fs.items|].dir == op.dir && fs2.items[|fs.items|].entry == |fs.dirs[op.dir].names|
    && |fs2.dirs| == |fs.dirs| + (if op.MakeDir? then 1 else 0)
    && (op.MakeDir? ==> fs2.dirs[|fs.dirs|] == Dir(|fs.items|, []))
    && (forall k :: 0 <= k < |fs.dirs| && k != op.dir ==> fs2.dirs[k] == fs.dirs[k])
    && |fs2.dirs[op.dir].names| == |fs.dirs[op.dir].names| + 1
    && fs2.items[|fs.items|].name == fs2.dirs[op.dir].names[|fs.dirs[op.dir].names|]
    && Named(fs.dirs[op.dir].names, op.name, fs2.dirs[op.dir].names)
  }

  lemma {:induction false} ResultNamed(v: Volume, fs: FileSystem, op: Op)
    requires Open(v, fs, op.dir) && Result(v, fs, op).ok
    ensures Named(fs.dirs[op.dir].names, op.name, Result(v, fs, op).names)
  {
    var base, names := Base(fs, op.dir), fs.dirs[op.dir].names;
    BaseOccupied(v, fs, op.dir);
    match op
    case PutFile(_, name, data) =>
      DataNamed(v, fs.disk, base, names, name, true, if |data| > MAX_FILE_LEN then data[..MAX_FILE_LEN] else data);
    case PutBlock(_, name, data) => DataNamed(v, fs.disk, base, names, name, false, data);
    case MakeDir(_, name) => DirectoryNamed(v, fs.disk, base, names, name);
  }

  /**
   An addition of any kind is on record exactly if there was room for it, so the
   theorem above is about it; otherwise nothing has changed.
   */
  lemma {:induction false} SuccessIsRecorded(v: Volume, fs: FileSystem, op: Op)
    requires Open(v, fs, op.dir)
    ensures if HasRoomFor(v, fs, op) then Recorded(fs, Apply(v, fs, op), op) else Apply(v, fs, op) == fs
  {
    EveryOpDecided(v, fs, op);
    var r, fs2 := Result(v, fs, op), Apply(v, fs, op);
    assert fs2 == Extend(fs, op.dir, r, ContentOf(op));
    if r.ok {
      ResultNamed(v, fs, op);
      RecordedWhen(v, fs, op, r, fs2);
    } else {
      FailedAddition(fs, op.dir, r, ContentOf(op));
    }
  }

  lemma {:induction false} RecordedWhen(v: Volume, fs: FileSystem, op: Op, r: Outcome, fs2: FileSystem)
    requires NewItem(v, fs, op.dir, r) && fs2 == Extend(fs, op.dir, r, ContentOf(op))
    requires Named(fs.dirs[op.dir].names, op.name, r.names)
    ensures Recorded(fs, fs2, op)
  {
  }
}
