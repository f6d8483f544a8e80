/** Trees of files and subdirectories: which of them a MyDOS disk holds, and the disk estimated for them. */
module Dos2xTrees {
  import opened Bytes
  import opened AtrImage
  import opened Dos2xVolume
  import opened Dos2xInit
  import opened Dos2xAlloc
  import opened Dos2xChain
  import opened Dos2xNames
  import opened Dos2xFiles
  import opened Dos2xRuns
  import opened Dos2xEstimate

  // ------------------------------------------------------------------
  // How a disk fills up
  // ------------------------------------------------------------------

  /**
   Files have come up to sector `file`, and own the rest of the octets they have
   begun up to `limit`; directories and files fill all behind it up to octet `octet`.
   */
  datatype Front = Front(file: nat, limit: nat, octet: nat)

  /** The first octet a directory can be given begins behind the root directory. */
  const FIRST_OCTET := 47

  /** Until the files reach sector 376, only directories lie behind it. */
  predicate Low(w: Front) {
    w.limit == 8 * FIRST_OCTET
  }

  ghost predicate Packed(v: Volume, free: set<nat>, w: Front)
    requires v.Legal()
  {
    && w.file <= w.limit <= 8 * w.octet && w.limit % 8 == 0
    && 8 * FIRST_OCTET <= w.limit && (Low(w) || w.limit - w.file < 8)
    && forall n: nat :: n in free <==> v.Allocatable(n) && (n >= 8 * w.octet || w.file <= n < w.limit)
  }

  lemma {:induction false} FreshIsPacked(v: Volume, d: Sectors)
    requires FreshVtoc(v, d) && v.dos.MyDos?
    ensures Packed(v, FreeSet(v, d), Front(4, 8 * FIRST_OCTET, FIRST_OCTET))
  {
    VtocBounds(v);
  }

  /** A file takes the lowest sectors, up to `top`. */
  function AfterFile(w: Front, top: nat): Front {
    if top < w.limit then Front(top + 1, w.limit, w.octet)
    else Front(top + 1, 8 * (top / 8) + 8, top / 8 + 1)
  }

  lemma {:induction false} FileKeepsPacked(v: Volume, free: set<nat>, w: Front, top: nat, left: set<nat>)
    requires v.Legal() && Packed(v, free, w) && top in free
    requires forall n: nat :: n in left <==> n in free && n > top
    ensures var w2 := AfterFile(w, top); Packed(v, left, w2) && w.octet <= w2.octet && (Low(w2) ==> Low(w) && w2.octet == w.octet)
  {
  }

  /** A directory takes the first octet behind all that is used. */
  lemma {:induction false} DirectoryKeepsPacked(v: Volume, free: set<nat>, w: Front, left: set<nat>)
    requires v.Legal() && Packed(v, free, w)
    requires forall n: nat :: n in left <==> n in free && !(8 * w.octet <= n < 8 * w.octet + 8)
    ensures Packed(v, left, w.(octet := w.octet + 1))
  {
  }

  ghost predicate WholeOctet(free: set<nat>, o: nat) {
    forall n: nat :: 8 * o <= n < 8 * o + 8 ==> n in free
  }

  /** The octets that are wholly free are those behind the front. */
  lemma {:induction false} WholeOctets(v: Volume, free: set<nat>, w: Front, o: nat)
    requires v.Legal() && v.dos.MyDos? && Packed(v, free, w) && o >= FIRST_OCTET - 1
    ensures WholeOctet(free, o) <==> w.octet <= o && 8 * o + 7 <= v.numsec
  {
    if WholeOctet(free, o) {
      assert 8 * o in free && 8 * o + 7 in free;
    }
  }

  /** How many directories fit. */
  function MaxFolders(v: Volume): nat
    requires v.Legal()
  {
    (v.numsec + 1) / 8 - 47
  }

  lemma {:induction false} PackedSize(v: Volume, free: set<nat>, w: Front)
    requires v.Legal() && v.dos.MyDos? && Packed(v, free, w) && !Low(w)
    ensures |free| <= 7 + if v.numsec + 1 > 8 * w.octet then v.numsec + 1 - 8 * w.octet else 0
  {
    var part, rest := set n | n in free && n < w.limit, set n | n in free && n >= w.limit;
    SizeBetween(part, w.file, w.limit);
    SizeBetween(rest, 8 * w.octet, if v.numsec + 1 > 8 * w.octet then v.numsec + 1 else 8 * w.octet);
    assert free == part + rest && part !! rest;
  }

  lemma {:induction false} SizeBetween(s: set<nat>, lo: nat, hi: nat)
    requires lo <= hi && forall n :: n in s ==> lo <= n < hi
    ensures |s| <= hi - lo
    decreases hi
  {
    if lo < hi {
      SizeBetween(s - {hi - 1}, lo, hi - 1);
    } else {
      assert s == {};
    }
  }

  /** With eight sectors left, and the ones behind the last octet, there is an octet. */
  lemma {:induction false} OctetLeft(v: Volume, free: set<nat>, w: Front, folders: nat)
    requires v.Legal() && v.dos.MyDos? && Packed(v, free, w) && 8 + (v.numsec + 1) % 8 <= |free|
    requires folders < MaxFolders(v) && (Low(w) ==> w.octet == FIRST_OCTET + folders)
    ensures 8 * w.octet + 7 <= v.numsec
  {
    if !Low(w) {
      PackedSize(v, free, w);
    }
  }

  // ------------------------------------------------------------------
  // The operations
  // ------------------------------------------------------------------

  function Folders(items: seq<Item>): nat {
    if items == [] then 0 else (if items[0].content.Folder? then 1 else 0) + Folders(items[1..])
  }

  lemma {:induction false} FoldersAppend(a: seq<Item>, b: seq<Item>)
    ensures Folders(a + b) == Folders(a) + Folders(b)
  {
    if a == [] {
      assert a + b == b;
    } else {
      FoldersAppend(a[1..], b);
      assert (a + b)[1..] == a[1..] + b;
    }
  }

  lemma {:induction false} OneMoreItem(items: seq<Item>, item: Item)
    ensures Folders(items + [item]) == Folders(items) + if item.content.Folder? then 1 else 0
  {
    FoldersAppend(items, [item]);
    assert [item][1..] == [];
    assert Folders([item]) == (if item.content.Folder? then 1 else 0) + Folders([]);
  }

  /** A disk in the making: packed, with as many directories as the front says at most. */
  ghost predicate Stage(v: Volume, fs: FileSystem, w: Front) {
    && Inv(v, fs) && v.dos.MyDos? && Packed(v, FreeSet(v, fs.disk), w)
    && FIRST_OCTET + Folders(fs.items) <= w.octet && (Low(w) ==> w.octet == FIRST_OCTET + Folders(fs.items))
    && Folders(fs.items) <= MaxFolders(v)
  }

  const START := Front(4, 8 * FIRST_OCTET, FIRST_OCTET)

  lemma {:induction false} StartStage(v: Volume, d: Sectors, boot: Sectors)
    requires v.Legal() && v.dos.MyDos? && Shaped(v, d) && IsBoot(boot)
    ensures Stage(v, Start(v, d, boot), START)
    ensures |FreeSet(v, Start(v, d, boot).disk)| == FreeTotal(v)
  {
    InitVtocVtoc(v, d, boot);
    FreshVtocOk(v, InitVtoc(v, d, boot));
    FreshIsPacked(v, InitVtoc(v, d, boot));
    assert [ROOT] == [] + [ROOT];
    OneMoreItem([], ROOT);
  }

  /** The sectors taken lie before all that are left. */
  ghost predicate LowestTaken(left: set<nat>, taken: seq<nat>) {
    forall n, i :: n in left && 0 <= i < |taken| ==> taken[i] < n
  }

  lemma {:induction false} FirstFitIsLowest(v: Volume, d: Sectors, num: nat, a: Allocation)
    requires HandedOut(v, d, num, a)
    ensures LowestTaken(FreeSet(v, a.disk), a.sectors) && FreeSet(v, a.disk) == FreeSet(v, d) - Elements(a.sectors)
  {
  }

  lemma {:induction false} AddDataAllocates(v: Volume, d: Sectors, base: nat, names: seq<Name>, name: Name, rename: bool, data: seq<byte>)
    requires CanAdd(v, d, base, names) && AddData(v, d, base, names, name, rename, data).ok
    ensures var a := AllocFile(v, d, FileSectors(v, |data|));
      a.ok && a.sectors == AddData(v, d, base, names, name, rename, data).sectors
  {
  }

  lemma {:induction false} DataTakesLowest(v: Volume, d: Sectors, base: nat, names: seq<Name>, name: Name, rename: bool, data: seq<byte>, r: Outcome)
    requires CanAdd(v, d, base, names) && r == AddData(v, d, base, names, name, rename, data) && r.ok
    requires Added(v, d, base, names, r)
    ensures LowestTaken(FreeSet(v, r.disk), r.sectors) && |r.sectors| == FileSectors(v, |data|)
  {
    var n := FileSectors(v, |data|);
    AddDataAllocates(v, d, base, names, name, rename, data);
    AllocFileCorrect(v, d, n);
    FirstFitIsLowest(v, d, n, AllocFile(v, d, n));
  }

  lemma {:induction false} DirectoryTakesFirst(v: Volume, d: Sectors, base: nat, names: seq<Name>, name: Name)
    requires CanAdd(v, d, base, names) && Unique(names) && Occupied(v, d, Octet(base)) && !v.Dos25()
    requires AddDirectory(v, d, base, names, name).ok
    ensures IsFirstOctet(v, d, AddDirectory(v, d, base, names, name).sectors)
  {
    AddDirectoryCorrect(v, d, base, names, name);
    AllocDirectoryCorrect(v, d);
  }

  /** What an addition that went well took from the free sectors. */
  ghost predicate TookFrom(free: set<nat>, left: set<nat>, taken: seq<nat>) {
    |taken| > 0 && Distinct(taken) && Elements(taken) <= free && left == free - Elements(taken)
  }

  lemma {:induction false} TookSize(free: set<nat>, left: set<nat>, taken: seq<nat>)
    requires TookFrom(free, left, taken)
    ensures |left| == |free| - |taken|
  {
    DistinctSize(taken);
  }

  /** The highest of the sectors a file has taken. */
  lemma {:induction false} Top(taken: seq<nat>) returns (top: nat)
    requires |taken| > 0
    ensures top in taken && forall i :: 0 <= i < |taken| ==> taken[i] <= top
    decreases |taken|
  {
    var last := taken[|taken| - 1];
    if |taken| == 1 {
      top := last;
    } else {
      top := Top(taken[..|taken| - 1]);
      top := if last > top then last else top;
    }
  }

  lemma {:induction false} FileMovesFront(v: Volume, free: set<nat>, w: Front, left: set<nat>, taken: seq<nat>) returns (w2: Front)
    requires v.Legal() && Packed(v, free, w) && TookFrom(free, left, taken) && LowestTaken(left, taken)
    ensures Packed(v, left, w2) && w.octet <= w2.octet && (Low(w2) ==> Low(w) && w2.octet == w.octet)
  {
    var top := Top(taken);
    forall n: nat
      ensures n in left <==> n in free && n > top
    {
    }
    w2 := AfterFile(w, top);
    FileKeepsPacked(v, free, w, top, left);
  }

  /** The first whole octet is the one at the front. */
  lemma {:induction false} FirstOctetIsFront(v: Volume, d: Sectors, w: Front, s: seq<nat>)
    requires v.dos.MyDos? && VtocOk(v, d) && Packed(v, FreeSet(v, d), w) && IsFirstOctet(v, d, s)
    ensures s == Octet(8 * w.octet) && 8 * w.octet + 7 <= v.numsec
  {
    var q :| DIR_OCTETS <= q < VtocBytes(v) && OctetFree(v, d, q) && s == Octet(8 * (q - 10))
             && forall i :: DIR_OCTETS <= i < q ==> !OctetFree(v, d, i);
    OctetFreeMeans(v, d, q);
    WholeOctets(v, FreeSet(v, d), w, q - 10);
    if w.octet < q - 10 {
      FrontFree(v, d, w);
    }
  }

  lemma {:induction false} FrontFree(v: Volume, d: Sectors, w: Front)
    requires v.dos.MyDos? && VtocOk(v, d) && Packed(v, FreeSet(v, d), w) && 8 * w.octet + 7 <= v.numsec
    ensures w.octet + 10 < VtocBytes(v) && OctetFree(v, d, w.octet + 10)
  {
    VtocBounds(v);
    OctetFreeMeans(v, d, w.octet + 10);
    WholeOctets(v, FreeSet(v, d), w, w.octet);
  }

  lemma {:induction false} OctetFreeMeans(v: Volume, d: Sectors, q: nat)
    requires v.Legal() && Shaped(v, d) && !v.Dos25() && 10 <= q < VtocBytes(v)
    ensures OctetFree(v, d, q) <==> WholeOctet(FreeSet(v, d), q - 10)
  {
    forall n | 8 * (q - 10) <= n < 8 * (q - 10) + 8
      ensures n in FreeSet(v, d) <==> IsFree(v, d, n)
    {
      OctetBits(v, d, q, n);
    }
    if WholeOctet(FreeSet(v, d), q - 10) {
      forall n | 8 * (q - 10) <= n < 8 * (q - 10) + 8
        ensures IsFree(v, d, n)
      {
        assert n in FreeSet(v, d);
      }
    }
  }

  // ------------------------------------------------------------------
  // One addition
  // ------------------------------------------------------------------

  lemma {:induction false} SuccessTook(v: Volume, fs: FileSystem, op: Op)
    requires Open(v, fs, op.dir) && HasRoomFor(v, fs, op)
    ensures var r := Result(v, fs, op); r.ok && TookFrom(FreeSet(v, fs.disk), FreeSet(v, r.disk), r.sectors)
    ensures Apply(v, fs, op).disk == Result(v, fs, op).disk
  {
    EveryOpDecided(v, fs, op);
  }

  lemma {:induction false} DataTook(v: Volume, fs: FileSystem, op: Op)
    requires Open(v, fs, op.dir) && HasRoomFor(v, fs, op) && !op.MakeDir?
    ensures var r := Result(v, fs, op);
      LowestTaken(FreeSet(v, r.disk), r.sectors) && |r.sectors| == FileSectors(v, |op.data|)
  {
    EveryOpDecided(v, fs, op);
    BaseOccupied(v, fs, op.dir);
    DataTakesLowest(v, fs.disk, Base(fs, op.dir), fs.dirs[op.dir].names, op.name, op.PutFile?, op.data, Result(v, fs, op));
  }

  lemma {:induction false} FolderTook(v: Volume, fs: FileSystem, op: Op, w: Front)
    requires Open(v, fs, op.dir) && HasRoomFor(v, fs, op) && op.MakeDir?
    requires Packed(v, FreeSet(v, fs.disk), w)
    ensures Result(v, fs, op).sectors == Octet(8 * w.octet) && 8 * w.octet + 7 <= v.numsec
  {
    EveryOpDecided(v, fs, op);
    BaseOccupied(v, fs, op.dir);
    DirectoryTakesFirst(v, fs.disk, Base(fs, op.dir), fs.dirs[op.dir].names, op.name);
    FirstOctetIsFront(v, fs.disk, w, Result(v, fs, op).sectors);
  }

  lemma {:induction false} FoldersRecorded(fs: FileSystem, fs2: FileSystem, op: Op)
    requires op.dir < |fs.dirs| && Recorded(fs, fs2, op)
    ensures Folders(fs2.items) == Folders(fs.items) + if op.MakeDir? then 1 else 0
  {
    assert fs2.items == fs.items + [fs2.items[|fs.items|]];
    OneMoreItem(fs.items, fs2.items[|fs.items|]);
  }

  /** What an addition that goes well does to the front. */
  lemma {:induction false} SuccessKeepsStage(v: Volume, fs: FileSystem, w: Front, op: Op) returns (w2: Front)
    requires Stage(v, fs, w) && Open(v, fs, op.dir) && HasRoomFor(v, fs, op)
    ensures Stage(v, Apply(v, fs, op), w2)
  {
    var r, fs2 := Result(v, fs, op), Apply(v, fs, op);
    SuccessTook(v, fs, op);
    SuccessIsRecorded(v, fs, op);
    ApplyKeepsInv(v, fs, op);
    FoldersRecorded(fs, fs2, op);
    if op.MakeDir? {
      FolderTook(v, fs, op, w);
      w2 := w.(octet := w.octet + 1);
      DirectoryKeepsPacked(v, FreeSet(v, fs.disk), w, FreeSet(v, fs2.disk));
    } else {
      DataTook(v, fs, op);
      w2 := FileMovesFront(v, FreeSet(v, fs.disk), w, FreeSet(v, fs2.disk), r.sectors);
    }
  }

  /** Every addition moves the front at most. */
  lemma {:induction false} StageKept(v: Volume, fs: FileSystem, w: Front, op: Op) returns (w2: Front)
    requires Stage(v, fs, w)
    ensures Stage(v, Apply(v, fs, op), w2)
  {
    w2 := w;
    if op.dir < |fs.dirs| {
      assert DirOk(v, fs, op.dir);
      if HasRoomFor(v, fs, op) {
        w2 := SuccessKeepsStage(v, fs, w, op);
      } else {
        SuccessIsRecorded(v, fs, op);
      }
    }
  }

  /** However a disk is filled, it never has more directories than that. */
  lemma {:induction false} FoldersBounded(v: Volume, fs: FileSystem, w: Front, ops: seq<Op>)
    requires Stage(v, fs, w)
    ensures Folders(Run(v, fs, ops).items) <= MaxFolders(v)
    decreases |ops|
  {
    if ops != [] {
      var w2 := StageKept(v, fs, w, ops[0]);
      FoldersBounded(v, Apply(v, fs, ops[0]), w2, ops[1..]);
    }
  }

  // ------------------------------------------------------------------
  // Plans
  // ------------------------------------------------------------------

  /** The number of entries in each directory after one more addition. */
  function Count(counts: seq<nat>, op: Op): seq<nat>
    requires op.dir < |counts|
  {
    var more := counts[op.dir := counts[op.dir] + 1];
    if op.MakeDir? then more + [0] else more
  }

  /**
   A tree to be put on a disk, in any order: every addition goes to a directory
   made before it, none gets more than 64 entries, and a block that must keep its
   name is the first in its directory, as the boot file is.
   */
  predicate Planned(ops: seq<Op>, counts: seq<nat>)
    decreases |ops|
  {
    ops == [] ||
    (&& ops[0].dir < |counts| && counts[ops[0].dir] < MAX_ENTRIES
     && (ops[0].PutBlock? ==> counts[ops[0].dir] == 0)
     && Planned(ops[1..], Count(counts, ops[0])))
  }

  /** The sectors the estimate counts for a file or a subdirectory. */
  function SectorsFor(v: Volume, op: Op): nat
    requires v.Legal()
  {
    if op.MakeDir? then 8 else FileSectors(v, |op.data|)
  }

  function Needed(v: Volume, ops: seq<Op>): nat
    requires v.Legal()
  {
    if ops == [] then 0 else SectorsFor(v, ops[0]) + Needed(v, ops[1..])
  }

  function MakeDirs(ops: seq<Op>): nat {
    if ops == [] then 0 else (if ops[0].MakeDir? then 1 else 0) + MakeDirs(ops[1..])
  }

  /** Everything is on record, in order, in the directory it was meant for. */
  predicate AllRecorded(fs: FileSystem, r: FileSystem, ops: seq<Op>) {
    && |r.items| == |fs.items| + |ops|
    && forall i :: 0 <= i < |ops| ==>
         r.items[|fs.items| + i].content == ContentOf(ops[i]) && r.items[|fs.items| + i].dir == ops[i].dir
  }

  predicate Agrees(fs: FileSystem, counts: seq<nat>) {
    |fs.dirs| == |counts| && forall k :: 0 <= k < |counts| ==> |fs.dirs[k].names| == counts[k]
  }

  /** There is room for all that is still planned. */
  ghost predicate Enough(v: Volume, fs: FileSystem, w: Front, ops: seq<Op>, counts: seq<nat>) {
    && Stage(v, fs, w) && Agrees(fs, counts) && Planned(ops, counts)
    && Needed(v, ops) + (v.numsec + 1) % 8 <= |FreeSet(v, fs.disk)|
    && Folders(fs.items) + MakeDirs(ops) <= MaxFolders(v)
  }

  lemma {:induction false} FirstHasRoom(v: Volume, fs: FileSystem, w: Front, ops: seq<Op>, counts: seq<nat>)
    requires Enough(v, fs, w, ops, counts) && ops != []
    ensures Open(v, fs, ops[0].dir) && HasRoomFor(v, fs, ops[0])
  {
    var op := ops[0];
    assert DirOk(v, fs, op.dir);
    if op.MakeDir? {
      FolderHasRoom(v, fs, w);
    } else {
      ShortEnough(v, fs.disk, |op.data|);
    }
  }

  lemma {:induction false} ShortEnough(v: Volume, d: Sectors, length: nat)
    requires VtocOk(v, d) && FileSectors(v, length) <= |FreeSet(v, d)|
    ensures length <= MAX_FILE_LEN
  {
    FreeSetSize(v, d);
  }

  lemma {:induction false} FolderHasRoom(v: Volume, fs: FileSystem, w: Front)
    requires Stage(v, fs, w) && 8 + (v.numsec + 1) % 8 <= |FreeSet(v, fs.disk)| && Folders(fs.items) < MaxFolders(v)
    ensures exists q :: DIR_OCTETS <= q < VtocBytes(v) && OctetFree(v, fs.disk, q)
  {
    OctetLeft(v, FreeSet(v, fs.disk), w, Folders(fs.items));
    FrontFree(v, fs.disk, w);
  }

  lemma {:induction false} TakenSize(v: Volume, fs: FileSystem, op: Op, w: Front)
    requires Open(v, fs, op.dir) && HasRoomFor(v, fs, op) && Stage(v, fs, w)
    ensures |FreeSet(v, Apply(v, fs, op).disk)| == |FreeSet(v, fs.disk)| - SectorsFor(v, op)
  {
    var r := Result(v, fs, op);
    SuccessTook(v, fs, op);
    TookSize(FreeSet(v, fs.disk), FreeSet(v, r.disk), r.sectors);
    if op.MakeDir? {
      FolderTook(v, fs, op, w);
    } else {
      DataTook(v, fs, op);
    }
  }

  lemma {:induction false} AgreesStep(fs: FileSystem, fs2: FileSystem, op: Op, counts: seq<nat>)
    requires op.dir < |fs.dirs| && Recorded(fs, fs2, op) && Agrees(fs, counts)
    ensures Agrees(fs2, Count(counts, op))
  {
  }

  /** The first addition of a plan goes well, and leaves room for the others. */
  lemma {:induction false} OneOfPlan(v: Volume, fs: FileSystem, w: Front, ops: seq<Op>, counts: seq<nat>) returns (w2: Front)
    requires Enough(v, fs, w, ops, counts) && ops != []
    ensures Open(v, fs, ops[0].dir) && Recorded(fs, Apply(v, fs, ops[0]), ops[0])
    ensures Enough(v, Apply(v, fs, ops[0]), w2, ops[1..], Count(counts, ops[0]))
  {
    var op := ops[0];
    FirstHasRoom(v, fs, w, ops, counts);
    w2 := RecordedInPlan(v, fs, w, op, counts);
  }

  lemma {:induction false} RecordedInPlan(v: Volume, fs: FileSystem, w: Front, op: Op, counts: seq<nat>) returns (w2: Front)
    requires Stage(v, fs, w) && Agrees(fs, counts) && Open(v, fs, op.dir) && HasRoomFor(v, fs, op)
    ensures var fs2 := Apply(v, fs, op);
      && Recorded(fs, fs2, op) && Stage(v, fs2, w2) && Agrees(fs2, Count(counts, op))
      && |FreeSet(v, fs2.disk)| == |FreeSet(v, fs.disk)| - SectorsFor(v, op)
      && Folders(fs2.items) == Folders(fs.items) + if op.MakeDir? then 1 else 0
  {
    SuccessIsRecorded(v, fs, op);
    TakenSize(v, fs, op, w);
    AgreesStep(fs, Apply(v, fs, op), op, counts);
    FoldersRecorded(fs, Apply(v, fs, op), op);
    w2 := SuccessKeepsStage(v, fs, w, op);
  }

  lemma {:induction false} FirstAndRest(fs: FileSystem, fs2: FileSystem, r: FileSystem, ops: seq<Op>)
    requires |ops| > 0 && ops[0].dir < |fs.dirs| && Recorded(fs, fs2, ops[0])
    requires Grows(fs2, r) && AllRecorded(fs2, r, ops[1..])
    ensures AllRecorded(fs, r, ops)
  {
    assert r.items[|fs.items|] == fs2.items[|fs.items|];
    forall i | 0 < i < |ops|
      ensures r.items[|fs.items| + i].content == ContentOf(ops[i]) && r.items[|fs.items| + i].dir == ops[i].dir
    {
      assert ops[i] == ops[1..][i - 1];
    }
  }

  lemma {:induction false} PlanFits(v: Volume, fs: FileSystem, w: Front, ops: seq<Op>, counts: seq<nat>)
    requires Enough(v, fs, w, ops, counts)
    ensures AllRecorded(fs, Run(v, fs, ops), ops)
    decreases |ops|
  {
    if ops != [] {
      var w2 := OneOfPlan(v, fs, w, ops, counts);
      var fs2 := Apply(v, fs, ops[0]);
      PlanFits(v, fs2, w2, ops[1..], Count(counts, ops[0]));
      FirstAndRest(fs, fs2, Run(v, fs2, ops[1..]), ops);
    }
  }

  lemma {:induction false} FoldersOfPlan(items: seq<Item>, ops: seq<Op>)
    requires |items| == |ops| && forall i :: 0 <= i < |ops| ==> items[i].content == ContentOf(ops[i])
    ensures Folders(items) == MakeDirs(ops)
    decreases |ops|
  {
    if ops != [] {
      FoldersOfPlan(items[1..], ops[1..]);
    }
  }

  /** What is on record is within the bound for every disk. */
  lemma {:induction false} RecordedBounded(v: Volume, d: Sectors, boot: Sectors, ops: seq<Op>)
    requires v.Legal() && v.dos.MyDos? && Shaped(v, d) && IsBoot(boot)
    requires AllRecorded(Start(v, d, boot), Run(v, Start(v, d, boot), ops), ops)
    ensures MakeDirs(ops) <= MaxFolders(v)
  {
    var fs, r := Start(v, d, boot), Run(v, Start(v, d, boot), ops);
    StartStage(v, d, boot);
    FoldersBounded(v, fs, START, ops);
    FoldersOfAll(fs, r, ops);
  }

  lemma {:induction false} FoldersOfAll(fs: FileSystem, r: FileSystem, ops: seq<Op>)
    requires AllRecorded(fs, r, ops) && Grows(fs, r)
    ensures Folders(r.items) == Folders(fs.items) + MakeDirs(ops)
  {
    var added := r.items[|fs.items|..];
    forall i | 0 <= i < |ops|
      ensures added[i].content == ContentOf(ops[i])
    {
      assert added[i] == r.items[|fs.items| + i];
    }
    FoldersOfPlan(added, ops);
    assert r.items == fs.items + added;
    FoldersAppend(fs.items, added);
  }

  /**
   On a MyDOS disk with enough free sectors, a tree of files and subdirectories,
   put there in any order, is stored as a whole exactly if it has no more
   subdirectories than there are octets behind the root directory.
   */
  lemma {:induction false} DiskHoldsTreeIff(v: Volume, d: Sectors, boot: Sectors, ops: seq<Op>)
    requires v.Legal() && v.dos.MyDos? && Shaped(v, d) && IsBoot(boot) && Planned(ops, [0])
    requires Needed(v, ops) + (v.numsec + 1) % 8 <= FreeTotal(v)
    ensures var fs := Start(v, d, boot); AllRecorded(fs, Run(v, fs, ops), ops) <==> MakeDirs(ops) <= MaxFolders(v)
  {
    var fs := Start(v, d, boot);
    if MakeDirs(ops) <= MaxFolders(v) {
      StartStage(v, d, boot);
      RootIsNoFolder();
      PlanFits(v, fs, START, ops, [0]);
    }
    if AllRecorded(fs, Run(v, fs, ops), ops) {
      RecordedBounded(v, d, boot, ops);
    }
  }

  lemma {:induction false} RootIsNoFolder()
    ensures Folders([ROOT]) == 0
  {
    assert [ROOT] == [] + [ROOT];
    OneMoreItem([], ROOT);
  }

  // ------------------------------------------------------------------
  // The estimated disk
  // ------------------------------------------------------------------

  /**
   The disk that is estimated for a tree holds it exactly if its subdirectories
   fit behind the root directory, as long as the size did not have to be cut off.
   */
  lemma {:induction false} EstimatedDiskHoldsTreeIff(seclen: nat, contents: nat, ops: seq<Op>, d: Sectors, boot: Sectors)
    requires seclen in {128, 256} && UnlimitedSize(seclen, contents) <= 65535 && Planned(ops, [0])
    requires Needed(EstimatedVolume(seclen, contents), ops) <= contents
    requires Shaped(EstimatedVolume(seclen, contents), d) && IsBoot(boot)
    ensures var v := EstimatedVolume(seclen, contents);
      AllRecorded(Start(v, d, boot), Run(v, Start(v, d, boot), ops), ops) <==> MakeDirs(ops) <= MaxFolders(v)
  {
    RoomToSpare(seclen, contents);
    DiskHoldsTreeIff(EstimatedVolume(seclen, contents), d, boot, ops);
  }

  predicate OnlyFolders(ops: seq<Op>) {
    forall i :: 0 <= i < |ops| ==> ops[i].MakeDir?
  }

  lemma {:induction false} NeededForFolders(v: Volume, ops: seq<Op>)
    requires v.Legal() && OnlyFolders(ops)
    ensures Needed(v, ops) == 8 * |ops| && MakeDirs(ops) == |ops|
    decreases |ops|
  {
    if ops != [] {
      NeededForFolders(v, ops[1..]);
    }
  }

  /** Empty subdirectories, in the root directory or in each other, need no more than the octets. */
  lemma {:induction false} DiskHoldsFoldersIff(v: Volume, d: Sectors, boot: Sectors, ops: seq<Op>)
    requires v.Legal() && v.dos.MyDos? && Shaped(v, d) && IsBoot(boot) && Planned(ops, [0]) && OnlyFolders(ops)
    ensures var fs := Start(v, d, boot); AllRecorded(fs, Run(v, fs, ops), ops) <==> |ops| <= MaxFolders(v)
  {
    NeededForFolders(v, ops);
    if |ops| <= MaxFolders(v) {
      VtocBounds(v);
      DiskHoldsTreeIff(v, d, boot, ops);
    } else if AllRecorded(Start(v, d, boot), Run(v, Start(v, d, boot), ops), ops) {
      RecordedBounded(v, d, boot, ops);
    }
  }

  /** The disk estimated for `n` empty subdirectories holds them exactly up to 43. */
  lemma {:induction false} EstimatedDiskHoldsFoldersIff(seclen: nat, ops: seq<Op>, d: Sectors, boot: Sectors)
    requires seclen in {128, 256} && Planned(ops, [0]) && OnlyFolders(ops)
    requires Shaped(EstimatedVolume(seclen, 8 * |ops|), d) && IsBoot(boot)
    ensures var v := EstimatedVolume(seclen, 8 * |ops|);
      AllRecorded(Start(v, d, boot), Run(v, Start(v, d, boot), ops), ops) <==> |ops| <= 43
  {
    DiskHoldsFoldersIff(EstimatedVolume(seclen, 8 * |ops|), d, boot, ops);
    FortyThree(seclen, |ops|);
  }

  lemma {:induction false} FortyThree(seclen: nat, n: nat)
    requires seclen in {128, 256}
    ensures n <= MaxFolders(EstimatedVolume(seclen, 8 * n)) <==> n <= 43
  {
  }

  // ------------------------------------------------------------------
  // Files alone
  // ------------------------------------------------------------------

  datatype File = File(name: Name, data: seq<byte>)

  function SectorsOfFiles(v: Volume, files: seq<File>): nat
    requires v.Legal()
  {
    if files == [] then 0 else FileSectors(v, |files[0].data|) + SectorsOfFiles(v, files[1..])
  }

  /** Adds all files to the root directory. */
  function PutAll(files: seq<File>): (ops: seq<Op>)
    ensures |ops| == |files|
    ensures forall i :: 0 <= i < |files| ==> ops[i] == PutFile(0, files[i].name, files[i].data)
  {
    seq(|files|, i requires 0 <= i < |files| => PutFile(0, files[i].name, files[i].data))
  }

  lemma {:induction false} FilesPlanned(v: Volume, files: seq<File>, n: nat)
    requires v.Legal() && n + |files| <= MAX_ENTRIES
    ensures Planned(PutAll(files), [n]) && Needed(v, PutAll(files)) == SectorsOfFiles(v, files) && MakeDirs(PutAll(files)) == 0
    decreases |files|
  {
    if files != [] {
      FilesPlanned(v, files[1..], n + 1);
      assert PutAll(files)[1..] == PutAll(files[1..]);
      assert Count([n], PutAll(files)[0]) == [n + 1];
    }
  }

  /** Up to 64 files are all stored on the disk estimated for them, whatever their sizes and names. */
  lemma {:induction false} EstimatedDiskHoldsFiles(seclen: nat, contents: nat, files: seq<File>, d: Sectors, boot: Sectors)
    requires seclen in {128, 256} && UnlimitedSize(seclen, contents) <= 65535 && |files| <= MAX_ENTRIES
    requires SectorsOfFiles(EstimatedVolume(seclen, contents), files) <= contents
    requires Shaped(EstimatedVolume(seclen, contents), d) && IsBoot(boot)
    ensures var v := EstimatedVolume(seclen, contents);
      AllRecorded(Start(v, d, boot), Run(v, Start(v, d, boot), PutAll(files)), PutAll(files))
  {
    FilesPlanned(EstimatedVolume(seclen, contents), files, 0);
    EstimatedDiskHoldsTreeIff(seclen, contents, PutAll(files), d, boot);
  }
}
