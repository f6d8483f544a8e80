/** Building a whole disk: format it, add files and directories through one `Dos2xUtils` for each directory, read a file back. */
module Dos2xDisks {
  import opened Bytes
  import opened AtrImage
  import opened Dos2xVolume
  import opened Dos2xInit
  import opened Dos2xAlloc
  import opened Dos2xChain
  import opened Dos2xNames
  import opened Dos2xFiles
  import opened Dos2xRuns
  import opened Dos2xBuilder
  import Dos2xDirectory
  import Dos2xListing

  /** What an object for a directory has to know: where the directory begins, and its names. */
  datatype Listing = Listing(base: nat, names: seq<Name>)

  function ListingOf(v: Volume, fs: FileSystem, k: nat): Listing
    requires Open(v, fs, k)
  {
    Listing(Base(fs, k), fs.dirs[k].names)
  }

  function Listings(v: Volume, fs: FileSystem): (s: seq<Listing>)
    requires Inv(v, fs)
    ensures |s| == |fs.dirs|
  {
    seq(|fs.dirs|, k requires 0 <= k < |fs.dirs| => assert DirOk(v, fs, k); ListingOf(v, fs, k))
  }

  lemma {:induction false} SameListing(v: Volume, fs: FileSystem, op: Op, fs2: FileSystem, k: nat)
    requires Open(v, fs, op.dir) && fs2 == Apply(v, fs, op) && k < |fs.dirs| && DirOk(v, fs, k) && k != op.dir
    ensures Open(v, fs2, k) && ListingOf(v, fs2, k) == ListingOf(v, fs, k)
  {
    ApplyKeepsInv(v, fs, op);
    assert DirOk(v, fs2, k);
    ExtendedDir(fs, op.dir, Result(v, fs, op), ContentOf(op), k);
  }

  lemma {:induction false} ChangedListing(v: Volume, fs: FileSystem, op: Op, fs2: FileSystem)
    requires Open(v, fs, op.dir) && fs2 == Apply(v, fs, op)
    ensures Open(v, fs2, op.dir) && ListingOf(v, fs2, op.dir) == Listing(Base(fs, op.dir), Result(v, fs, op).names)
  {
    ApplyKeepsInv(v, fs, op);
    assert DirOk(v, fs2, op.dir);
  }

  lemma {:induction false} NewListing(v: Volume, fs: FileSystem, op: Op, fs2: FileSystem, r: Outcome)
    requires Open(v, fs, op.dir) && fs2 == Apply(v, fs, op) && r == Result(v, fs, op)
    ensures fs2.disk == r.disk
    ensures if r.ok && op.MakeDir?
      then |r.sectors| == 8 && |fs2.dirs| == |fs.dirs| + 1 && Open(v, fs2, |fs.dirs|)
           && ListingOf(v, fs2, |fs.dirs|) == Listing(r.sectors[0], [])
      else |fs2.dirs| == |fs.dirs|
  {
    ApplyKeepsInv(v, fs, op);
    EveryOpDecided(v, fs, op);
    ExtendedBy(fs, op.dir, r, ContentOf(op), fs2);
    if r.ok && op.MakeDir? {
      assert DirOk(v, fs2, |fs.dirs|);
    }
  }

  lemma {:induction false} ExtendedBy(fs: FileSystem, k: nat, r: Outcome, content: Content, fs2: FileSystem)
    requires k < |fs.dirs| && fs2 == Extend(fs, k, r, content) && (r.ok ==> |r.names| > 0)
    ensures fs2.disk == r.disk
    ensures if r.ok && content.Folder?
      then |fs2.dirs| == |fs.dirs| + 1 && fs2.dirs[|fs.dirs|] == Dir(|fs.items|, [])
           && |fs2.items| == |fs.items| + 1 && fs2.items[|fs.items|].sectors == r.sectors
      else |fs2.dirs| == |fs.dirs|
  {
  }

  /** The objects after an addition with these results. */
  function Listed(s: seq<Listing>, k: nat, names: seq<Name>, more: seq<Listing>): seq<Listing>
    requires k < |s|
  {
    s[k := Listing(s[k].base, names)] + more
  }

  /** What objects for directories there are after an addition. */
  function ListedAfter(s: seq<Listing>, op: Op, r: Outcome): seq<Listing>
    requires op.dir < |s| && (r.ok && op.MakeDir? ==> |r.sectors| == 8)
  {
    Listed(s, op.dir, r.names, if r.ok && op.MakeDir? then [Listing(r.sectors[0], [])] else [])
  }

  lemma {:induction false} ListingsAfter(v: Volume, fs: FileSystem, op: Op)
    requires Open(v, fs, op.dir)
    ensures var r, fs2 := Result(v, fs, op), Apply(v, fs, op);
      && Inv(v, fs2) && fs2.disk == r.disk && (r.ok && op.MakeDir? ==> |r.sectors| == 8)
      && Listings(v, fs2) == ListedAfter(Listings(v, fs), op, r)
  {
    ApplyKeepsInv(v, fs, op);
    NewListing(v, fs, op, Apply(v, fs, op), Result(v, fs, op));
    AllListings(v, fs, op, Apply(v, fs, op), Result(v, fs, op));
  }

  lemma {:induction false} AllListings(v: Volume, fs: FileSystem, op: Op, fs2: FileSystem, r: Outcome)
    requires Open(v, fs, op.dir) && Inv(v, fs2) && fs2 == Apply(v, fs, op) && r == Result(v, fs, op)
    requires r.ok && op.MakeDir? ==> |r.sectors| == 8
    requires |fs2.dirs| == |fs.dirs| + if r.ok && op.MakeDir? then 1 else 0
    requires r.ok && op.MakeDir? ==> Open(v, fs2, |fs.dirs|) && ListingOf(v, fs2, |fs.dirs|) == Listing(r.sectors[0], [])
    ensures Listings(v, fs2) == ListedAfter(Listings(v, fs), op, r)
  {
    OldListings(v, fs, op, fs2, r);
    var s, s2 := Listings(v, fs), Listings(v, fs2);
    if r.ok && op.MakeDir? {
      ListingAt(v, fs2, |fs.dirs|);
      ListedAsIs(s, s2, op.dir, r.names, [Listing(r.sectors[0], [])]);
    } else {
      ListedAsIs(s, s2, op.dir, r.names, []);
    }
  }

  lemma {:induction false} ListingAt(v: Volume, fs: FileSystem, k: nat)
    requires Open(v, fs, k)
    ensures Listings(v, fs)[k] == ListingOf(v, fs, k)
  {
  }

  lemma {:induction false} OldListings(v: Volume, fs: FileSystem, op: Op, fs2: FileSystem, r: Outcome)
    requires Open(v, fs, op.dir) && Inv(v, fs2) && fs2 == Apply(v, fs, op) && r == Result(v, fs, op) && |fs.dirs| <= |fs2.dirs|
    ensures var s, s2 := Listings(v, fs), Listings(v, fs2);
      forall k :: 0 <= k < |s| ==> s2[k] == if k == op.dir then Listing(s[k].base, r.names) else s[k]
  {
    var s, s2 := Listings(v, fs), Listings(v, fs2);
    forall k | 0 <= k < |s|
      ensures s2[k] == if k == op.dir then Listing(s[k].base, r.names) else s[k]
    {
      OldListing(v, fs, op, fs2, k);
    }
  }

  lemma {:induction false} ListedAsIs(s: seq<Listing>, s2: seq<Listing>, k: nat, names: seq<Name>, more: seq<Listing>)
    requires k < |s| && |s2| == |s| + |more|
    requires forall i :: 0 <= i < |s| ==> s2[i] == if i == k then Listing(s[i].base, names) else s[i]
    requires forall i :: 0 <= i < |more| ==> s2[|s| + i] == more[i]
    ensures s2 == Listed(s, k, names, more)
  {
    var now := Listed(s, k, names, more);
    forall i | 0 <= i < |s2|
      ensures s2[i] == now[i]
    {
      if i >= |s| {
        assert s2[|s| + (i - |s|)] == more[i - |s|];
      }
    }
  }

  lemma {:induction false} OldListing(v: Volume, fs: FileSystem, op: Op, fs2: FileSystem, k: nat)
    requires Open(v, fs, op.dir) && fs2 == Apply(v, fs, op) && k < |fs.dirs|
    ensures Inv(v, fs2) && k < |fs2.dirs|
    ensures Listings(v, fs2)[k]
      == if k == op.dir then Listing(Listings(v, fs)[k].base, Result(v, fs, op).names) else Listings(v, fs)[k]
  {
    assert DirOk(v, fs, k);
    ListingAt(v, fs, k);
    if k == op.dir {
      ChangedListing(v, fs, op, fs2);
    } else {
      SameListing(v, fs, op, fs2, k);
    }
    ListingAt(v, fs2, k);
  }

  /** An image with the geometry of the volume. */
  ghost predicate Carries(image: MemoryImage, v: Volume)
    reads image, image.fData
  {
    image.Valid() && !image.writeProtected && v.Legal() && v.seclen == image.config.sectorLength && v.numsec == image.config.numberOfSectors
  }

  /** What an object knows about its directory. */
  ghost predicate Knows(dir: Dos2xUtils, image: MemoryImage, v: Volume, s: Listing)
    reads dir
  {
    && v.Legal() && dir.fImage == image && dir.fDosFormat == v.dos && dir.fIsDos25EnhancedDensity == v.Dos25()
    && dir.fUse16BitSectorLinks == v.Link16() && dir.fNumberOfVTOCs == v.NumVtoc()
    && dir.fDirSector == s.base && dir.fAtariName == s.names
  }

  /** The object for one directory. */
  ghost predicate Stands(dir: Dos2xUtils, image: MemoryImage, v: Volume, s: Listing)
    reads dir, image, image.fData
  {
    Carries(image, v) && Knows(dir, image, v, s)
  }

  lemma {:induction false} StandsIff(dir: Dos2xUtils, image: MemoryImage, v: Volume, s: Listing)
    ensures Stands(dir, image, v, s)
      <==> dir.fImage == image && dir.Ready() && dir.Vol() == v && dir.fDirSector == s.base && dir.fAtariName == s.names
  {
  }

  /** An object for every directory. */
  ghost predicate Mirrors(dirs: seq<Dos2xUtils>, image: MemoryImage, v: Volume, s: seq<Listing>)
    reads dirs, image, image.fData
  {
    && |dirs| == |s| && (forall k :: 0 <= k < |dirs| ==> Stands(dirs[k], image, v, s[k]))
    && (forall k, l :: 0 <= k < l < |dirs| ==> dirs[k] != dirs[l])
  }

  /** One addition through the object of its directory. */
  method Add(dir: Dos2xUtils, op: Op, ghost v: Volume, ghost fs: FileSystem, ghost r: Outcome) returns (ok: bool, first: nat)
    requires Open(v, fs, op.dir) && Stands(dir, dir.fImage, v, ListingOf(v, fs, op.dir)) && dir.fImage.Contents() == fs.disk
    requires r == Result(v, fs, op)
    modifies dir`fAtariName, dir.fImage.fData, dir.fImage`sectors
    ensures Stands(dir, dir.fImage, v, Listing(Base(fs, op.dir), r.names)) && dir.fImage.Contents() == r.disk && ok == r.ok
    ensures ok && op.MakeDir? ==> |r.sectors| == 8 && first == r.sectors[0]
  {
    BaseOccupied(v, fs, op.dir);
    StandsIff(dir, dir.fImage, v, ListingOf(v, fs, op.dir));
    first := 0;
    match op
    case PutFile(_, name, data) =>
      ok := dir.AddFile(name, data);
    case PutBlock(_, name, data) =>
      ok := dir.AddDataBlock(name, data);
    case MakeDir(_, name) =>
      var entry;
      EveryOpDecided(v, fs, op);
      first, entry := dir.AddDirectory(name);
      ok := first != 0;
  }

  /** The objects of the other directories do not notice. */
  method AddIn(dirs: seq<Dos2xUtils>, dir: Dos2xUtils, image: MemoryImage, op: Op, ghost v: Volume, ghost fs: FileSystem, ghost s: seq<Listing>,
      ghost r: Outcome)
    returns (ok: bool, first: nat)
    requires op.dir < |dirs| && dir == dirs[op.dir] && Mirrors(dirs, image, v, s) && image.Contents() == fs.disk
    requires Open(v, fs, op.dir) && s[op.dir] == ListingOf(v, fs, op.dir) && r == Result(v, fs, op)
    modifies dir`fAtariName, image.fData, image`sectors
    ensures Mirrors(dirs, image, v, s[op.dir := Listing(s[op.dir].base, r.names)]) && image.Contents() == r.disk && ok == r.ok
    ensures ok && op.MakeDir? ==> |r.sectors| == 8 && first == r.sectors[0]
  {
    ok, first := Add(dir, op, v, fs, r);
    forall l | 0 <= l < |dirs| && l != op.dir
      ensures Knows(dirs[l], image, v, s[l])
    {
      assert old(Stands(dirs[l], image, v, s[l]));
    }
    StillMirrors(dirs, image, v, s, op.dir, Listing(s[op.dir].base, r.names));
  }

  lemma {:induction false} StillMirrors(dirs: seq<Dos2xUtils>, image: MemoryImage, v: Volume, s: seq<Listing>, k: nat, now: Listing)
    requires |dirs| == |s| && k < |dirs| && Stands(dirs[k], image, v, now)
    requires forall l :: 0 <= l < |dirs| && l != k ==> Knows(dirs[l], image, v, s[l])
    requires forall l, m :: 0 <= l < m < |dirs| ==> dirs[l] != dirs[m]
    ensures Mirrors(dirs, image, v, s[k := now])
  {
  }

  /** A subdirectory that was made gets an object. */
  method OpenIf(dirs: seq<Dos2xUtils>, image: MemoryImage, parent: nat, made: bool, first: nat, ghost v: Volume, ghost s: seq<Listing>)
    returns (dirs2: seq<Dos2xUtils>)
    requires parent < |dirs| && Mirrors(dirs, image, v, s)
    ensures Mirrors(dirs2, image, v, s + if made then [Listing(first, [])] else [])
    ensures |dirs| <= |dirs2| && dirs2[..|dirs|] == dirs && forall k :: |dirs| <= k < |dirs2| ==> fresh(dirs2[k])
  {
    dirs2 := dirs;
    if made {
      var dir := new Dos2xUtils.ForSubdirectory(dirs[parent], first);
      dirs2 := dirs + [dir];
    } else {
      assert s + [] == s;
    }
  }

  method AddAndOpen(dirs: seq<Dos2xUtils>, image: MemoryImage, op: Op, ghost v: Volume, ghost fs: FileSystem, ghost s: seq<Listing>, ghost r: Outcome)
    returns (dirs2: seq<Dos2xUtils>)
    requires op.dir < |dirs| && Mirrors(dirs, image, v, s) && image.Contents() == fs.disk
    requires Open(v, fs, op.dir) && s[op.dir] == ListingOf(v, fs, op.dir) && r == Result(v, fs, op)
    modifies dirs, image.fData, image`sectors
    ensures (r.ok && op.MakeDir? ==> |r.sectors| == 8) && image.Contents() == r.disk && Mirrors(dirs2, image, v, ListedAfter(s, op, r))
    ensures |dirs| <= |dirs2| && dirs2[..|dirs|] == dirs && forall k :: |dirs| <= k < |dirs2| ==> fresh(dirs2[k])
  {
    var ok, first := AddIn(dirs, dirs[op.dir], image, op, v, fs, s, r);
    dirs2 := OpenIf(dirs, image, op.dir, ok && op.MakeDir?, first, v, s[op.dir := Listing(s[op.dir].base, r.names)]);
  }

  /** One addition; a new directory gets an object of its own. */
  method Perform(dirs: seq<Dos2xUtils>, image: MemoryImage, op: Op, ghost v: Volume, ghost fs: FileSystem, ghost fs2: FileSystem)
    returns (dirs2: seq<Dos2xUtils>)
    requires Inv(v, fs) && fs2 == Apply(v, fs, op) && Inv(v, fs2)
    requires Mirrors(dirs, image, v, Listings(v, fs)) && image.Contents() == fs.disk
    modifies dirs, image.fData, image`sectors
    ensures Mirrors(dirs2, image, v, Listings(v, fs2)) && image.Contents() == fs2.disk
    ensures |dirs| <= |dirs2| && dirs2[..|dirs|] == dirs && forall k :: |dirs| <= k < |dirs2| ==> fresh(dirs2[k])
  {
    dirs2 := dirs;
    if op.dir < |dirs| {
      assert DirOk(v, fs, op.dir);
      ListingsAfter(v, fs, op);
      dirs2 := AddAndOpen(dirs, image, op, v, fs, Listings(v, fs), Result(v, fs, op));
    }
  }

  lemma {:induction false} StartListings(v: Volume, d: Sectors, boot: Sectors)
    requires v.Legal() && Shaped(v, d) && IsBoot(boot)
    ensures Listings(v, Start(v, d, boot)) == [Listing(DIR_SECTOR, [])]
  {
    assert Octet(DIR_SECTOR)[0] == DIR_SECTOR;
  }

  /** How many directories there are, when the image and the objects show the file system; the root directory comes first. */
  ghost function Shown(root: Dos2xUtils, dirs: seq<Dos2xUtils>, image: MemoryImage, v: Volume, fs: FileSystem): Option<nat>
    reads dirs, image, image.fData
  {
    if && Inv(v, fs) && Mirrors(dirs, image, v, Listings(v, fs)) && image.Contents() == fs.disk
       && |dirs| > 0 && dirs[0] == root && Listings(v, fs)[0].base == DIR_SECTOR
    then Some(|dirs|) else None
  }

  /** All additions, one after the other. */
  method PerformAll(root: Dos2xUtils, dirs: seq<Dos2xUtils>, image: MemoryImage, ops: seq<Op>, ghost v: Volume, ghost fs: FileSystem)
    returns (dirs2: seq<Dos2xUtils>)
    requires Inv(v, fs) && Shown(root, dirs, image, v, fs).Some?
    modifies dirs, image.fData, image`sectors
    ensures Shown(root, dirs2, image, v, Run(v, fs, ops)).Some?
    decreases |ops|
  {
    dirs2 := dirs;
    if ops != [] {
      RootListed(v, fs, ops[0]);
      ghost var fs2 := Apply(v, fs, ops[0]);
      dirs2 := PerformFirst(root, dirs, image, ops[0], v, fs, fs2);
      dirs2 := PerformAll(root, dirs2, image, ops[1..], v, fs2);
    }
  }

  method PerformFirst(root: Dos2xUtils, dirs: seq<Dos2xUtils>, image: MemoryImage, op: Op, ghost v: Volume, ghost fs: FileSystem, ghost fs2: FileSystem)
    returns (dirs2: seq<Dos2xUtils>)
    requires Inv(v, fs) && Shown(root, dirs, image, v, fs).Some? && fs2 == Apply(v, fs, op) && Inv(v, fs2)
    modifies dirs, image.fData, image`sectors
    ensures Shown(root, dirs2, image, v, fs2).Some?
    ensures forall k :: 0 <= k < |dirs2| ==> dirs2[k] in dirs || fresh(dirs2[k])
  {
    RootListed(v, fs, op);
    dirs2 := Perform(dirs, image, op, v, fs, fs2);
    assert forall k :: 0 <= k < |dirs| ==> dirs2[k] == dirs2[..|dirs|][k];
  }

  lemma {:induction false} RootListed(v: Volume, fs: FileSystem, op: Op)
    requires Inv(v, fs) && |fs.dirs| > 0
    ensures var fs2 := Apply(v, fs, op); Inv(v, fs2) && |fs2.dirs| > 0 && Listings(v, fs2)[0].base == Listings(v, fs)[0].base
  {
    ApplyKeepsInv(v, fs, op);
    if op.dir < |fs.dirs| {
      assert DirOk(v, fs, op.dir);
      OldListing(v, fs, op, Apply(v, fs, op), 0);
    }
  }

  method Format(root: Dos2xUtils, boot: Sectors)
    requires root.Valid() && root.Vol().Legal() && root.fDirSector == DIR_SECTOR && root.fAtariName == [] && IsBoot(boot)
    modifies root, root.fImage.fData, root.fImage`sectors
    ensures root.Vol() == old(root.Vol()) && Shaped(root.Vol(), old(root.Disk()))
    ensures Shown(root, [root], root.fImage, root.Vol(), Start(root.Vol(), old(root.Disk()), boot)).Some?
  {
    ghost var v, d := root.Vol(), root.Disk();
    var ok := root.InitVTOC(boot);
    StartListings(v, d, boot);
    RootAlone(root, root.fImage, v, Start(v, d, boot));
  }

  lemma {:induction false} RootAlone(root: Dos2xUtils, image: MemoryImage, v: Volume, fs: FileSystem)
    requires Inv(v, fs) && Listings(v, fs) == [Listing(DIR_SECTOR, [])] && image.Contents() == fs.disk
    requires Stands(root, image, v, Listing(DIR_SECTOR, []))
    ensures Shown(root, [root], image, v, fs) == Some(1)
  {
  }

  /**
   Formatting an image and any sequence of additions through the methods of
   `Dos2xUtils` make it the disk of the run, so that the theorem about runs is
   about the image.
   */
  method Fill(root: Dos2xUtils, boot: Sectors, ops: seq<Op>)
    requires root.Valid() && root.Vol().Legal() && root.fDirSector == DIR_SECTOR && root.fAtariName == [] && IsBoot(boot)
    modifies root, root.fImage.fData, root.fImage`sectors
    ensures root.Ready() && root.Vol() == old(root.Vol()) && root.fDirSector == DIR_SECTOR
    ensures var v, d := root.Vol(), old(root.Disk()); Shaped(v, d) && root.Disk() == Run(v, Start(v, d, boot), ops).disk
  {
    ghost var v, d := root.Vol(), root.Disk();
    Format(root, boot);
    var dirs := PerformAll(root, [root], root.fImage, ops, v, Start(v, d, boot));
    RootShown(root, dirs, root.fImage, v, Run(v, Start(v, d, boot), ops));
  }

  lemma {:induction false} RootShown(root: Dos2xUtils, dirs: seq<Dos2xUtils>, image: MemoryImage, v: Volume, fs: FileSystem)
    requires Shown(root, dirs, image, v, fs).Some?
    ensures root.fImage == image && root.Ready() && root.Vol() == v && root.fDirSector == DIR_SECTOR && root.Disk() == fs.disk
  {
  }

  // ------------------------------------------------------------------
  // Reading
  // ------------------------------------------------------------------

  /** The slot of an entry, from the image. */
  method FetchSlot(root: Dos2xUtils, base: nat, entry: nat) returns (slot: Slot)
    requires root.Ready() && IsDirectory(root.Vol(), base) && entry < MAX_ENTRIES
    ensures Shaped(root.Vol(), root.Disk()) && slot == SlotAt(root.Vol(), root.Disk(), base, entry)
  {
    root.DiskShaped();
    var buf := root.ReadSector(root.Vol(), root.Disk(), base + entry / 8);
    slot := buf[entry % 8 * 16..entry % 8 * 16 + 16];
  }

  /** The directory at the end of a path, from slot to slot. */
  method FetchDirectory(root: Dos2xUtils, path: seq<nat>) returns (base: Option<nat>)
    requires root.Ready()
    ensures Shaped(root.Vol(), root.Disk()) && base == DirectoryAt(root.Vol(), root.Disk(), path)
  {
    root.DiskShaped();
    ghost var v, d := root.Vol(), root.Disk();
    base := Some(DIR_SECTOR);
    var i := 0;
    while i < |path|
      invariant 0 <= i <= |path| && base == DirectoryAt(v, d, path[..i])
    {
      assert path[..i + 1][..i] == path[..i];
      if base.Some? {
        if base.value < 4 || base.value + 7 > root.fImage.config.numberOfSectors || path[i] >= MAX_ENTRIES {
          base := None;
        } else {
          var slot := FetchSlot(root, base.value, path[i]);
          base := if slot[0] != DIRECTORY_STATUS then None else Some(SlotStart(slot));
        }
      }
      i := i + 1;
    }
    assert path[..i] == path;
  }

  method FetchFile(root: Dos2xUtils, path: seq<nat>, entry: nat, rest: seq<byte>) returns (ok: bool, bytes: seq<byte>)
    requires root.Ready() && entry < MAX_ENTRIES && root.Vol().seclen + |rest| == 256
    ensures Shaped(root.Vol(), root.Disk()) && Reading(ok, bytes) == ReadPath(root.Vol(), root.Disk(), path, entry, rest)
  {
    var base := FetchDirectory(root, path);
    if base.None? || base.value < 4 || base.value + 7 > root.fImage.config.numberOfSectors {
      return false, [];
    }
    var slot := FetchSlot(root, base.value, entry);
    ok, bytes := root.WriteAtariFileToDisk(SlotStart(slot), slot[0] / 4 % 2 == 1, rest);
  }

  /** A file that is entered at the end of a path. */
  predicate IsFileAt(fs: FileSystem, item: Item, path: seq<nat>, entry: nat)
    requires Rooted(fs)
  {
    item.content.Data? && item.dir < |fs.dirs| && PathTo(fs, item.dir) == path && item.entry == entry
  }

  /** Every file of any sequence of additions is read back from the image by its path. */
  method FillAndFetch(root: Dos2xUtils, boot: Sectors, ops: seq<Op>, path: seq<nat>, entry: nat, rest: seq<byte>)
    returns (ok: bool, bytes: seq<byte>)
    requires root.Valid() && root.Vol().Legal() && root.fDirSector == DIR_SECTOR && root.fAtariName == [] && IsBoot(boot)
    requires entry < MAX_ENTRIES && root.Vol().seclen + |rest| == 256
    modifies root, root.fImage.fData, root.fImage`sectors
    ensures var v, d := old(root.Vol()), old(root.Disk());
      && Shaped(v, d)
      && var fs := Run(v, Start(v, d, boot), ops);
         && Rooted(fs)
         && forall i :: 0 < i < |fs.items| && IsFileAt(fs, fs.items[i], path, entry) ==> ok && bytes == fs.items[i].content.bytes
  {
    ghost var v, d := root.Vol(), root.Disk();
    Fill(root, boot, ops);
    EveryRunKeepsEveryFile(v, d, boot, ops, rest);
    ok, bytes := FetchFile(root, path, entry, rest);
  }

  /** The root directory of any disk that has been filled is listed as it is. */
  method FillAndList(root: Dos2xUtils, boot: Sectors, ops: seq<Op>) returns (dir: Option<Dos2xDirectory.Listing>)
    requires root.Valid() && root.Vol().Legal() && root.fDirSector == DIR_SECTOR && root.fAtariName == [] && IsBoot(boot)
    modifies root, root.fImage.fData, root.fImage`sectors
    ensures var v, d := old(root.Vol()), old(root.Disk());
      && Shaped(v, d)
      && var fs := Run(v, Start(v, d, boot), ops);
         dir.Some? && Open(v, fs, 0) && Dos2xListing.ListsDirectory(v, InitVtoc(v, d, boot), fs, 0, dir.value)
  {
    ghost var v, d := root.Vol(), root.Disk();
    Fill(root, boot, ops);
    RunRooted(v, Start(v, d, boot), ops);
    Dos2xListing.EveryRunIsListed(v, d, boot, ops, 0);
    dir := root.GetDos2Directory(DIR_SECTOR);
  }
}
