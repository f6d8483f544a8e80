/** Free counts, and what `Dos2xUtils::InitVTOC` makes of a disk. */
module Dos2xInit {
  import opened Bytes
  import opened AtrImage
  import opened Dos2xVolume

  // ------------------------------------------------------------------
  // Free sectors and their counts
  // ------------------------------------------------------------------

  /** The free sectors from `lo` up to and not including `hi`. */
  ghost function FreeIn(v: Volume, d: Sectors, lo: nat, hi: nat): set<nat>
    requires v.Legal() && Shaped(v, d) && hi <= v.Capacity()
  {
    set n: nat | lo <= n < hi && IsFree(v, d, n)
  }

  ghost function FreeSet(v: Volume, d: Sectors): set<nat>
    requires v.Legal() && Shaped(v, d)
  {
    FreeIn(v, d, 0, v.Capacity())
  }

  /** The count in bytes 3 and 4 of sector 360. */
  function StoredCount(v: Volume, d: Sectors): nat
    requires v.Legal() && Shaped(v, d)
  {
    WordValue(d[VTOC_SECTOR - 1][3..])
  }

  /** The count of the sectors from 720 on, in bytes 122 and 123 of the second VTOC. */
  function StoredCount2(v: Volume, d: Sectors): nat
    requires v.Legal() && v.Dos25() && Shaped(v, d)
  {
    WordValue(d[VTOC2_SECTOR - 1][122..])
  }

  /** `GetNumberOfFreeSectors`. */
  function StoredFree(v: Volume, d: Sectors): nat
    requires v.Legal() && Shaped(v, d)
  {
    StoredCount(v, d) + if v.Dos25() then StoredCount2(v, d) else 0
  }

  /** Up to where the count in the first VTOC counts. */
  function LowEnd(v: Volume): nat
    requires v.Legal()
  {
    if v.Dos25() then 720 else v.Capacity()
  }

  /** The stored counts are the numbers of free bits. */
  ghost predicate CountsRight(v: Volume, d: Sectors)
    requires v.Legal() && Shaped(v, d)
  {
    && StoredCount(v, d) == |FreeIn(v, d, 0, LowEnd(v))|
    && (v.Dos25() ==> StoredCount2(v, d) == |FreeIn(v, d, 720, 1024)|)
  }

  /** On DOS 2.5 disks the second VTOC agrees with the first on sectors 48 to 719. */
  ghost predicate CopyAgrees(v: Volume, d: Sectors)
    requires v.Legal() && Shaped(v, d)
  {
    v.Dos25() ==> forall n :: 48 <= n < 720 ==> BitAt(v, d, SecondPlace(n)) == IsFree(v, d, n)
  }

  /** Only sectors a file or directory may occupy are free. */
  ghost predicate OnlyAllocatableFree(v: Volume, d: Sectors)
    requires v.Legal() && Shaped(v, d)
  {
    forall n: nat :: n < v.Capacity() && IsFree(v, d, n) ==> v.Allocatable(n)
  }

  ghost predicate VtocOk(v: Volume, d: Sectors) {
    v.Legal() && Shaped(v, d) && CountsRight(v, d) && CopyAgrees(v, d) && OnlyAllocatableFree(v, d)
  }

  lemma {:induction false} StoredIsFree(v: Volume, d: Sectors)
    requires VtocOk(v, d)
    ensures StoredFree(v, d) == |FreeSet(v, d)|
  {
    if v.Dos25() {
      var low, high := FreeIn(v, d, 0, 720), FreeIn(v, d, 720, 1024);
      assert FreeSet(v, d) == low + high && low !! high;
    }
  }

  // ------------------------------------------------------------------
  // Bytes that hold bits, and all the others
  // ------------------------------------------------------------------

  predicate IsBitByte(v: Volume, sector: nat, at: nat)
    requires v.Legal()
  {
    || (VTOC_SECTOR - v.NumVtoc() < sector <= VTOC_SECTOR && (sector == VTOC_SECTOR ==> at >= 10) && (v.Dos25() ==> at < 100))
    || (v.Dos25() && sector == VTOC2_SECTOR && at < 122)
  }

  ghost predicate SameOutsideBits(v: Volume, d: Sectors, r: Sectors) {
    && v.Legal() && Shaped(v, d) && Shaped(v, r)
    && forall i, j :: 0 <= i < |d| && 0 <= j < |d[i]| && !IsBitByte(v, i + 1, j) ==> r[i][j] == d[i][j]
  }

  /** The bytes of a count. */
  predicate IsCountByte(v: Volume, sector: nat, at: nat) {
    (sector == VTOC_SECTOR && 3 <= at < 5) || (v.Dos25() && sector == VTOC2_SECTOR && 122 <= at < 124)
  }

  /** What the VTOC sectors hold besides bits and counts is the same on both disks. */
  ghost predicate LabelKept(v: Volume, d: Sectors, r: Sectors) {
    && v.Legal() && Shaped(v, d) && Shaped(v, r)
    && forall s, j :: 1 <= s <= v.numsec && IsVtocSector(v, s) && 0 <= j < v.seclen && !IsBitByte(v, s, j) && !IsCountByte(v, s, j)
         ==> r[s - 1][j] == d[s - 1][j]
  }

  predicate IsVtocSector(v: Volume, sector: nat)
    requires v.Legal()
  {
    VTOC_SECTOR - v.NumVtoc() < sector <= VTOC_SECTOR || (v.Dos25() && sector == VTOC2_SECTOR)
  }

  lemma {:induction false} LabelTransitive(v: Volume, d: Sectors, e: Sectors, f: Sectors)
    requires LabelKept(v, d, e) && LabelKept(v, e, f)
    ensures LabelKept(v, d, f)
  {
    forall s, j | 1 <= s <= v.numsec && IsVtocSector(v, s) && 0 <= j < v.seclen && !IsBitByte(v, s, j) && !IsCountByte(v, s, j)
      ensures f[s - 1][j] == d[s - 1][j]
    {
      assert f[s - 1][j] == e[s - 1][j];
    }
  }

  lemma {:induction false} LabelOutsideBits(v: Volume, d: Sectors, r: Sectors)
    requires SameOutsideBits(v, d, r)
    ensures LabelKept(v, d, r)
  {
    forall s, j | 1 <= s <= v.numsec && IsVtocSector(v, s) && 0 <= j < v.seclen && !IsBitByte(v, s, j)
      ensures r[s - 1][j] == d[s - 1][j]
    {
      assert r[s - 1][j] == d[s - 1][j];
    }
  }

  lemma {:induction false} SetMarkElsewhere(v: Volume, d: Sectors, n: nat, free: bool)
    requires v.Legal() && Shaped(v, d) && n < v.Capacity()
    ensures SameOutsideBits(v, d, SetMark(v, d, n, free))
  {
  }

  lemma {:induction false} SameOutsideKeepsSector(v: Volume, d: Sectors, r: Sectors, sector: nat)
    requires SameOutsideBits(v, d, r) && 1 <= sector <= v.numsec
    requires !(VTOC_SECTOR - v.NumVtoc() < sector <= VTOC_SECTOR) && !(v.Dos25() && sector == VTOC2_SECTOR)
    ensures r[sector - 1] == d[sector - 1]
  {
  }

  lemma {:induction false} SameOutsideKeepsCounts(v: Volume, d: Sectors, r: Sectors)
    requires SameOutsideBits(v, d, r)
    ensures StoredCount(v, r) == StoredCount(v, d)
    ensures v.Dos25() ==> StoredCount2(v, r) == StoredCount2(v, d)
  {
    var a, b := d[VTOC_SECTOR - 1], r[VTOC_SECTOR - 1];
    assert a[3..][0] == b[3..][0] && a[3..][1] == b[3..][1];
  }

  lemma {:induction false} SetMarkCopy(v: Volume, d: Sectors, n: nat, free: bool)
    requires v.Legal() && Shaped(v, d) && n < v.Capacity() && CopyAgrees(v, d)
    ensures CopyAgrees(v, SetMark(v, d, n, free))
  {
    if v.Dos25() {
      var r := SetMark(v, d, n, free);
      forall m | 48 <= m < 720
        ensures BitAt(v, r, SecondPlace(m)) == IsFree(v, r, m)
      {
        SetMarkCopyBit(v, d, n, free, m);
        SetMarkMarks(v, d, n, free, m);
      }
    }
  }

  lemma {:induction false} SetMarkCopyBit(v: Volume, d: Sectors, n: nat, free: bool, m: nat)
    requires v.Legal() && v.Dos25() && Shaped(v, d) && n < 1024 && 48 <= m < 720
    ensures BitAt(v, SetMark(v, d, n, free), SecondPlace(m)) == if m == n then free else BitAt(v, d, SecondPlace(m))
  {
    var r := PutBitAt(v, d, PlaceOf(v, n), free);
    PutBitAtBits(v, d, PlaceOf(v, n), free, SecondPlace(m));
    if n < 720 {
      assert PlaceOf(v, n).sector != SecondPlace(m).sector;
      if 48 <= n {
        PutBitAtBits(v, r, SecondPlace(n), free, SecondPlace(m));
      }
    } else {
      assert PlaceOf(v, n) != SecondPlace(m);
    }
  }

  // ------------------------------------------------------------------
  // MarkSectorsFree
  // ------------------------------------------------------------------

  /** Marks the sectors from `a` up to and not including `b`. */
  function MarkRange(v: Volume, d: Sectors, a: nat, b: nat): (r: Sectors)
    requires v.Legal() && Shaped(v, d) && b <= v.Capacity()
    ensures Shaped(v, r)
    decreases |d|, b
  {
    if b <= a then d else SetMark(v, MarkRange(v, d, a, b - 1), b - 1, true)
  }

  lemma {:induction false} MarkRangeMarks(v: Volume, d: Sectors, a: nat, b: nat, m: nat)
    requires v.Legal() && Shaped(v, d) && b <= v.Capacity() && m < v.Capacity()
    ensures IsFree(v, MarkRange(v, d, a, b), m) == (a <= m < b || IsFree(v, d, m))
    decreases b
  {
    if b > a {
      MarkRangeMarks(v, d, a, b - 1, m);
      SetMarkMarks(v, MarkRange(v, d, a, b - 1), b - 1, true, m);
    }
  }

  lemma {:induction false} SameOutsideTransitive(v: Volume, d: Sectors, e: Sectors, f: Sectors)
    requires SameOutsideBits(v, d, e) && SameOutsideBits(v, e, f)
    ensures SameOutsideBits(v, d, f)
  {
    forall i, j | 0 <= i < |d| && 0 <= j < |d[i]| && !IsBitByte(v, i + 1, j)
      ensures f[i][j] == d[i][j]
    {
      assert f[i][j] == e[i][j];
    }
  }

  lemma {:induction false} MarkRangeElsewhere(v: Volume, d: Sectors, a: nat, b: nat)
    requires v.Legal() && Shaped(v, d) && b <= v.Capacity()
    ensures SameOutsideBits(v, d, MarkRange(v, d, a, b))
    decreases b
  {
    if b > a {
      MarkRangeElsewhere(v, d, a, b - 1);
      OneMoreElsewhere(v, d, MarkRange(v, d, a, b - 1), b - 1, true);
    }
  }

  lemma {:induction false} OneMoreElsewhere(v: Volume, d: Sectors, r: Sectors, n: nat, free: bool)
    requires SameOutsideBits(v, d, r) && n < v.Capacity()
    ensures SameOutsideBits(v, d, SetMark(v, r, n, free))
  {
    SetMarkElsewhere(v, r, n, free);
    SameOutsideTransitive(v, d, r, SetMark(v, r, n, free));
  }

  lemma {:induction false} MarkRangeCopy(v: Volume, d: Sectors, a: nat, b: nat)
    requires v.Legal() && Shaped(v, d) && b <= v.Capacity() && CopyAgrees(v, d)
    ensures CopyAgrees(v, MarkRange(v, d, a, b))
    decreases b
  {
    if b > a {
      MarkRangeCopy(v, d, a, b - 1);
      SetMarkCopy(v, MarkRange(v, d, a, b - 1), b - 1, true);
    }
  }

  // ------------------------------------------------------------------
  // InitVTOC
  // ------------------------------------------------------------------

  /** The number of sectors free on an empty disk, as `InitVTOC` computes it. */
  function FreeTotal(v: Volume): nat
    requires v.Legal()
  {
    VtocBounds(v);
    if v.Dos25() then 1010 else v.LastSector() - 11 - v.NumVtoc()
  }

  /** The type byte of the VTOC. */
  function VtocType(v: Volume): byte
    requires v.Legal()
  {
    VtocBounds(v);
    if v.dos.Dos2x? then 2
    else if v.seclen == 128 then if v.NumVtoc() == 1 then 2 else (v.NumVtoc() + 1) / 2 + 2
    else if v.numsec < 1024 then 2 else 2 + v.NumVtoc()
  }

  function VtocHeader(v: Volume): (h: seq<byte>)
    requires v.Legal()
    ensures |h| == v.seclen
    ensures forall i :: 5 <= i < |h| ==> h[i] == 0
  {
    [VtocType(v)] + Word(FreeTotal(v)) + Word(if v.Dos25() then 707 else FreeTotal(v)) + Zeros(v.seclen - 5)
  }

  function Vtoc2Header(v: Volume): (h: seq<byte>)
    requires v.Legal() && v.Dos25()
    ensures |h| == v.seclen
    ensures forall i :: 0 <= i < 122 ==> h[i] == 0
  {
    Zeros(122) + Word(303) + Zeros(4)
  }

  /** Zeroes the sectors `first` to `first + n - 1`. */
  function ClearSectors(v: Volume, d: Sectors, first: nat, n: nat): (r: Sectors)
    requires Shaped(v, d) && 4 <= first && first + n <= v.numsec + 1
    ensures Shaped(v, r)
    ensures forall i :: 0 <= i < |d| ==> r[i] == if first - 1 <= i < first - 1 + n then Zeros(v.seclen) else d[i]
    decreases |d|, n
  {
    if n == 0 then d else ClearSectors(v, d, first, n - 1)[first + n - 2 := Zeros(v.seclen)]
  }

  /** The VTOC sectors before any sector is marked. */
  function EmptyVtoc(v: Volume, d: Sectors): (r: Sectors)
    requires v.Legal() && Shaped(v, d)
    ensures Shaped(v, r)
  {
    VtocBounds(v);
    var d1 := d[VTOC_SECTOR - 1 := VtocHeader(v)];
    if v.Dos25() then d1[VTOC2_SECTOR - 1 := Vtoc2Header(v)]
    else ClearSectors(v, d1, VTOC_SECTOR + 1 - v.NumVtoc(), v.NumVtoc() - 1)
  }

  function MarkAllocatable(v: Volume, d: Sectors): (r: Sectors)
    requires v.Legal() && Shaped(v, d)
    ensures Shaped(v, r)
  {
    VtocBounds(v);
    var d1 := MarkRange(v, d, 4, VTOC_SECTOR - v.NumVtoc() + 1);
    if v.Dos25() then MarkRange(v, MarkRange(v, d1, DIR_SECTOR + 8, 720), 721, 1024)
    else MarkRange(v, d1, DIR_SECTOR + 8, v.LastSector() + 1)
  }

  /** Three sectors of boot code; what is in them is of no concern here. */
  predicate IsBoot(boot: Sectors) {
    |boot| == 3 && |boot[0]| == |boot[1]| == |boot[2]| == 128
  }

  function WriteBoot(v: Volume, d: Sectors, boot: Sectors): (r: Sectors)
    requires v.Legal() && Shaped(v, d) && IsBoot(boot)
    ensures |r| == |d|
    ensures v.seclen == 128 || v.seclen == 256 ==> Shaped(v, r)
  {
    d[0 := boot[0]][1 := boot[1]][2 := boot[2]]
  }

  /** `InitVTOC`. */
  function InitVtoc(v: Volume, d: Sectors, boot: Sectors): (r: Sectors)
    requires v.Legal() && Shaped(v, d) && IsBoot(boot)
    ensures Shaped(v, r)
  {
    ClearSectors(v, WriteBoot(v, MarkAllocatable(v, EmptyVtoc(v, d)), boot), DIR_SECTOR, 7)
  }

  lemma {:induction false} EmptyVtocIsEmpty(v: Volume, d: Sectors, n: nat)
    requires v.Legal() && Shaped(v, d) && n < v.Capacity()
    ensures !IsFree(v, EmptyVtoc(v, d), n)
    ensures v.Dos25() && 48 <= n < 720 ==> !BitAt(v, EmptyVtoc(v, d), SecondPlace(n))
  {
    var p := PlaceOf(v, n);
    ZeroHasNoBits(p.bit);
    assert EmptyVtoc(v, d)[p.sector - 1][p.at] == 0;
  }

  lemma {:induction false} EmptyVtocCounts(v: Volume, d: Sectors)
    requires v.Legal() && Shaped(v, d)
    ensures StoredCount(v, EmptyVtoc(v, d)) == if v.Dos25() then 707 else FreeTotal(v)
    ensures v.Dos25() ==> StoredCount2(v, EmptyVtoc(v, d)) == 303
  {
    VtocBounds(v);
    var r := EmptyVtoc(v, d);
    var count := if v.Dos25() then 707 else FreeTotal(v);
    assert r[VTOC_SECTOR - 1] == VtocHeader(v);
    assert VtocHeader(v)[3..] == Word(count) + Zeros(v.seclen - 5);
    WordRoundTrip(count, Zeros(v.seclen - 5));
    if v.Dos25() {
      assert r[VTOC2_SECTOR - 1][122..] == Word(303) + Zeros(4);
    }
  }

  lemma {:induction false} TwoRangesMark(v: Volume, d: Sectors, a: nat, b: nat, n: nat)
    requires v.Legal() && Shaped(v, d) && a <= v.Capacity() && b <= v.Capacity() && n < v.Capacity()
    ensures IsFree(v, MarkRange(v, MarkRange(v, d, 4, a), DIR_SECTOR + 8, b), n)
         == (4 <= n < a || DIR_SECTOR + 8 <= n < b || IsFree(v, d, n))
  {
    MarkRangeMarks(v, d, 4, a, n);
    MarkRangeMarks(v, MarkRange(v, d, 4, a), DIR_SECTOR + 8, b, n);
  }

  /** On DOS 2.5 disks the sectors from 721 on are marked too. */
  lemma {:induction false} ThreeRangesMark(v: Volume, d: Sectors, a: nat, n: nat)
    requires v.Legal() && v.Dos25() && Shaped(v, d) && a <= v.Capacity() && n < v.Capacity()
    ensures IsFree(v, MarkRange(v, MarkRange(v, MarkRange(v, d, 4, a), DIR_SECTOR + 8, 720), 721, 1024), n)
         == (4 <= n < a || DIR_SECTOR + 8 <= n < 720 || 721 <= n < 1024 || IsFree(v, d, n))
  {
    TwoRangesMark(v, d, a, 720, n);
    MarkRangeMarks(v, MarkRange(v, MarkRange(v, d, 4, a), DIR_SECTOR + 8, 720), 721, 1024, n);
  }

  /** Exactly the allocatable sectors are free. */
  lemma {:induction false} MarkAllocatableMarks(v: Volume, d: Sectors, n: nat)
    requires v.Legal() && Shaped(v, d) && n < v.Capacity() && !IsFree(v, d, n)
    ensures IsFree(v, MarkAllocatable(v, d), n) == v.Allocatable(n)
  {
    if v.Dos25() {
      MarkAllocatableMarks25(v, d, n);
    } else {
      MarkAllocatableMarksOther(v, d, n);
    }
  }

  lemma {:induction false} MarkAllocatableMarks25(v: Volume, d: Sectors, n: nat)
    requires v.Legal() && v.Dos25() && Shaped(v, d) && n < v.Capacity() && !IsFree(v, d, n)
    ensures IsFree(v, MarkAllocatable(v, d), n) == v.Allocatable(n)
  {
    ThreeRangesMark(v, d, VTOC_SECTOR - v.NumVtoc() + 1, n);
    AllocatableRanges25(v, n);
  }

  lemma {:induction false} MarkAllocatableMarksOther(v: Volume, d: Sectors, n: nat)
    requires v.Legal() && !v.Dos25() && Shaped(v, d) && n < v.Capacity() && !IsFree(v, d, n)
    ensures IsFree(v, MarkAllocatable(v, d), n) == v.Allocatable(n)
  {
    VtocBounds(v);
    TwoRangesMark(v, d, VTOC_SECTOR - v.NumVtoc() + 1, v.LastSector() + 1, n);
    AllocatableRanges(v, n);
  }

  lemma {:induction false} AllocatableRanges25(v: Volume, n: nat)
    requires v.Legal() && v.Dos25()
    ensures v.Allocatable(n) == (4 <= n < VTOC_SECTOR - v.NumVtoc() + 1 || DIR_SECTOR + 8 <= n < 720 || 721 <= n < 1024)
  {
  }

  lemma {:induction false} AllocatableRanges(v: Volume, n: nat)
    requires v.Legal() && !v.Dos25()
    ensures v.Allocatable(n) == (4 <= n < VTOC_SECTOR - v.NumVtoc() + 1 || DIR_SECTOR + 8 <= n < v.LastSector() + 1)
  {
  }

  lemma {:induction false} MarkAllocatableElsewhere(v: Volume, d: Sectors)
    requires v.Legal() && Shaped(v, d)
    ensures SameOutsideBits(v, d, MarkAllocatable(v, d))
    ensures CopyAgrees(v, d) ==> CopyAgrees(v, MarkAllocatable(v, d))
  {
    VtocBounds(v);
    var a, b := VTOC_SECTOR - v.NumVtoc() + 1, if v.Dos25() then 720 else v.LastSector() + 1;
    var d1 := MarkRange(v, d, 4, a);
    var d2 := MarkRange(v, d1, DIR_SECTOR + 8, b);
    MarkRangeElsewhere(v, d, 4, a);
    MarkRangeElsewhere(v, d1, DIR_SECTOR + 8, b);
    SameOutsideTransitive(v, d, d1, d2);
    if v.Dos25() {
      MarkRangeElsewhere(v, d2, 721, 1024);
      SameOutsideTransitive(v, d, d2, MarkRange(v, d2, 721, 1024));
    }
    if CopyAgrees(v, d) {
      MarkRangeCopy(v, d, 4, a);
      MarkRangeCopy(v, d1, DIR_SECTOR + 8, b);
      if v.Dos25() {
        MarkRangeCopy(v, d2, 721, 1024);
      }
    }
  }

  lemma {:induction false} IntervalSize(s: set<nat>, lo: nat, hi: nat)
    requires lo <= hi && forall n :: n in s <==> lo <= n < hi
    ensures |s| == hi - lo
    decreases hi
  {
    if lo == hi {
      assert s == {};
    } else {
      IntervalSize(s - {hi - 1}, lo, hi - 1);
    }
  }

  lemma {:induction false} TwoIntervalsSize(s: set<nat>, a: nat, b: nat, c: nat, e: nat)
    requires a <= b <= c <= e && forall n :: n in s <==> a <= n < b || c <= n < e
    ensures |s| == (b - a) + (e - c)
  {
    var low, high := set n | n in s && n < b, set n | n in s && n >= b;
    assert s == low + high && low !! high;
    IntervalSize(low, a, b);
    IntervalSize(high, c, e);
  }

  /** The state of the VTOC right after it has been filled in. */
  ghost predicate FreshVtoc(v: Volume, d: Sectors) {
    && v.Legal() && Shaped(v, d) && CopyAgrees(v, d)
    && (forall n: nat :: n < v.Capacity() ==> IsFree(v, d, n) == v.Allocatable(n))
    && StoredCount(v, d) == (if v.Dos25() then 707 else FreeTotal(v))
    && (v.Dos25() ==> StoredCount2(v, d) == 303)
  }

  lemma {:induction false} FreshCountsDos25(v: Volume, d: Sectors)
    requires FreshVtoc(v, d) && v.Dos25()
    ensures |FreeIn(v, d, 0, 720)| == 707 && |FreeIn(v, d, 720, 1024)| == 303
  {
    TwoIntervalsSize(FreeIn(v, d, 0, 720), 4, 360, DIR_SECTOR + 8, 720);
    IntervalSize(FreeIn(v, d, 720, 1024), 721, 1024);
  }

  lemma {:induction false} FreshCounts(v: Volume, d: Sectors)
    requires FreshVtoc(v, d) && !v.Dos25()
    ensures |FreeIn(v, d, 0, v.Capacity())| == FreeTotal(v)
  {
    VtocBounds(v);
    TwoIntervalsSize(FreeIn(v, d, 0, v.Capacity()), 4, VTOC_SECTOR - v.NumVtoc() + 1, DIR_SECTOR + 8, v.LastSector() + 1);
  }

  /** The counts `InitVTOC` writes are the numbers of bits it sets. */
  lemma {:induction false} FreshVtocOk(v: Volume, d: Sectors)
    requires FreshVtoc(v, d)
    ensures VtocOk(v, d) && |FreeSet(v, d)| == FreeTotal(v)
  {
    if v.Dos25() {
      FreshCountsDos25(v, d);
    } else {
      FreshCounts(v, d);
    }
    StoredIsFree(v, d);
  }

  lemma {:induction false} FilledVtocIsFresh(v: Volume, d: Sectors)
    requires v.Legal() && Shaped(v, d)
    ensures FreshVtoc(v, MarkAllocatable(v, EmptyVtoc(v, d)))
  {
    var e := EmptyVtoc(v, d);
    var r := MarkAllocatable(v, e);
    forall n: nat | n < v.Capacity()
      ensures IsFree(v, r, n) == v.Allocatable(n)
    {
      EmptyVtocIsEmpty(v, d, n);
      MarkAllocatableMarks(v, e, n);
    }
    assert CopyAgrees(v, e) by {
      forall n | v.Dos25() && 48 <= n < 720
        ensures BitAt(v, e, SecondPlace(n)) == IsFree(v, e, n)
      {
        EmptyVtocIsEmpty(v, d, n);
      }
    }
    MarkAllocatableElsewhere(v, e);
    EmptyVtocCounts(v, d);
    SameOutsideKeepsCounts(v, e, r);
  }

  /** The state of the VTOC depends on the VTOC sectors only. */
  lemma {:induction false} VtocSectorsDecide(v: Volume, d: Sectors, r: Sectors)
    requires v.Legal() && Shaped(v, d) && Shaped(v, r)
    requires forall s :: 1 <= s <= v.numsec && IsVtocSector(v, s) ==> r[s - 1] == d[s - 1]
    ensures forall n: nat :: n < v.Capacity() ==> IsFree(v, r, n) == IsFree(v, d, n)
    ensures v.Dos25() ==> forall n :: 48 <= n < 720 ==> BitAt(v, r, SecondPlace(n)) == BitAt(v, d, SecondPlace(n))
    ensures StoredCount(v, r) == StoredCount(v, d)
    ensures v.Dos25() ==> StoredCount2(v, r) == StoredCount2(v, d)
  {
    assert IsVtocSector(v, VTOC_SECTOR);
    if v.Dos25() {
      assert IsVtocSector(v, VTOC2_SECTOR);
    }
    forall n: nat | n < v.Capacity()
      ensures IsFree(v, r, n) == IsFree(v, d, n)
    {
      assert IsVtocSector(v, PlaceOf(v, n).sector);
    }
  }

  predicate IsClearedDirSector(s: nat) {
    DIR_SECTOR <= s < DIR_SECTOR + 7
  }

  lemma {:induction false} InitVtocVtoc(v: Volume, d: Sectors, boot: Sectors)
    requires v.Legal() && Shaped(v, d) && IsBoot(boot)
    ensures FreshVtoc(v, InitVtoc(v, d, boot))
  {
    FilledVtocIsFresh(v, d);
    VtocSectorsDecide(v, MarkAllocatable(v, EmptyVtoc(v, d)), InitVtoc(v, d, boot));
  }

  lemma {:induction false} InitVtocElsewhere(v: Volume, d: Sectors, boot: Sectors, s: nat)
    requires v.Legal() && Shaped(v, d) && IsBoot(boot)
    requires 4 <= s <= v.numsec && !IsVtocSector(v, s) && !IsClearedDirSector(s)
    ensures InitVtoc(v, d, boot)[s - 1] == d[s - 1]
  {
    VtocBounds(v);
    var e := EmptyVtoc(v, d);
    MarkAllocatableElsewhere(v, e);
    SameOutsideKeepsSector(v, e, MarkAllocatable(v, e), s);
  }

  // ------------------------------------------------------------------
  // What the VTOC says about the disk
  // ------------------------------------------------------------------

  /** The type byte tells how many VTOC sectors there are. */
  predicate TypeTells(v: Volume, t: byte)
    requires v.Legal()
  {
    if v.dos.Dos2x? then t == 2 && v.NumVtoc() == 1
    else if v.seclen == 128 then t >= 2 && v.NumVtoc() == if t == 2 then 1 else 2 * (t - 2)
    else if v.numsec < 1024 then t == 2 && v.NumVtoc() == 1
    else t >= 3 && v.NumVtoc() == t - 2
  }

  ghost function AllocatableSet(v: Volume): set<nat>
    requires v.Legal()
  {
    set n: nat | n < v.Capacity() && v.Allocatable(n)
  }

  /** The front of sector 360, and the bytes no bit needs: type, number of sectors on the empty disk, zeros. */
  ghost predicate Labelled(v: Volume, d: Sectors) {
    && v.Legal() && Shaped(v, d)
    && TypeTells(v, d[359][0]) && WordValue(d[359][1..]) == |AllocatableSet(v)| && (forall j :: 5 <= j < 10 ==> d[359][j] == 0)
    && (v.Dos25() ==> (forall j :: 100 <= j < 128 ==> d[359][j] == 0) && (forall j :: 124 <= j < 128 ==> d[1023][j] == 0))
  }

  lemma {:induction false} LabelledKept(v: Volume, d: Sectors, r: Sectors)
    requires Labelled(v, d) && LabelKept(v, d, r)
    ensures Labelled(v, r)
  {
    var s, t := d[359], r[359];
    forall j | 0 <= j < 10 && !(3 <= j < 5)
      ensures t[j] == s[j]
    {
      LabelByte(v, d, r, 360, j);
    }
    assert s[1..][0] == t[1..][0] && s[1..][1] == t[1..][1];
    if v.Dos25() {
      forall j | 100 <= j < 128
        ensures t[j] == s[j]
      {
        LabelByte(v, d, r, 360, j);
      }
      forall j | 124 <= j < 128
        ensures r[1023][j] == d[1023][j]
      {
        LabelByte(v, d, r, 1024, j);
      }
    }
  }

  lemma {:induction false} LabelByte(v: Volume, d: Sectors, r: Sectors, s: nat, j: nat)
    requires LabelKept(v, d, r) && 1 <= s <= v.numsec && IsVtocSector(v, s) && j < v.seclen
    requires !IsBitByte(v, s, j) && !IsCountByte(v, s, j)
    ensures r[s - 1][j] == d[s - 1][j]
  {
  }

  lemma {:induction false} TypeIsRight(v: Volume)
    requires v.Legal()
    ensures TypeTells(v, VtocType(v))
  {
    if v.dos.MyDos? && v.seclen == 128 && v.NumVtoc() > 1 {
      assert v.NumVtoc() % 2 == 0;
    }
  }

  lemma {:induction false} HeaderLabelled(v: Volume, d: Sectors)
    requires v.Legal() && Shaped(v, d) && |AllocatableSet(v)| == FreeTotal(v)
    ensures Labelled(v, EmptyVtoc(v, d))
  {
    VtocBounds(v);
    TypeIsRight(v);
    var h, count := VtocHeader(v), FreeTotal(v);
    var tail := Word(if v.Dos25() then 707 else count) + Zeros(v.seclen - 5);
    assert EmptyVtoc(v, d)[359] == h;
    assert h[1..] == Word(count) + tail;
    WordRoundTrip(count, tail);
    if v.Dos25() {
      assert EmptyVtoc(v, d)[1023] == Vtoc2Header(v);
    }
  }

  lemma {:induction false} InitVtocLabelled(v: Volume, d: Sectors, boot: Sectors)
    requires v.Legal() && Shaped(v, d) && IsBoot(boot)
    ensures Labelled(v, InitVtoc(v, d, boot))
  {
    var m, r := MarkAllocatable(v, EmptyVtoc(v, d)), InitVtoc(v, d, boot);
    InitVtocVtoc(v, d, boot);
    FreshVtocOk(v, r);
    assert AllocatableSet(v) == FreeSet(v, r);
    MarkedLabelled(v, d, m);
    SameVtocSectors(v, m, r);
    LabelledKept(v, m, r);
  }

  lemma {:induction false} MarkedLabelled(v: Volume, d: Sectors, m: Sectors)
    requires v.Legal() && Shaped(v, d) && |AllocatableSet(v)| == FreeTotal(v) && m == MarkAllocatable(v, EmptyVtoc(v, d))
    ensures Labelled(v, m)
  {
    var e := EmptyVtoc(v, d);
    HeaderLabelled(v, d);
    MarkAllocatableElsewhere(v, e);
    LabelOutsideBits(v, e, m);
    LabelledKept(v, e, m);
  }

  lemma {:induction false} SameVtocSectors(v: Volume, d: Sectors, r: Sectors)
    requires v.Legal() && Shaped(v, d) && Shaped(v, r)
    requires forall s :: 1 <= s <= v.numsec && IsVtocSector(v, s) ==> r[s - 1] == d[s - 1]
    ensures LabelKept(v, d, r)
  {
  }

  /**
   `InitVTOC` on any disk and in any format: exactly the sectors outside boot,
   VTOC and root directory are free, the stored counts are the numbers of free
   bits, the type byte tells the number of VTOC sectors and the total is that of
   the free sectors, the first seven directory sectors are cleared and everything else,
   the eighth directory sector included, is as it was.
   */
  lemma {:induction false} InitVtocCorrect(v: Volume, d: Sectors, boot: Sectors)
    requires v.Legal() && Shaped(v, d) && IsBoot(boot)
    ensures var r := InitVtoc(v, d, boot);
      && VtocOk(v, r) && Labelled(v, r) && |FreeSet(v, r)| == FreeTotal(v) && FreeSet(v, r) == AllocatableSet(v)
      && (forall n: nat :: n < v.Capacity() ==> IsFree(v, r, n) == v.Allocatable(n))
      && r[0] == boot[0] && r[1] == boot[1] && r[2] == boot[2]
      && (forall s :: IsClearedDirSector(s) ==> r[s - 1] == Zeros(v.seclen))
      && (forall s :: 4 <= s <= v.numsec && !IsVtocSector(v, s) && !IsClearedDirSector(s) ==> r[s - 1] == d[s - 1])
  {
    InitVtocVtoc(v, d, boot);
    FreshVtocOk(v, InitVtoc(v, d, boot));
    InitVtocLabelled(v, d, boot);
    assert FreeSet(v, InitVtoc(v, d, boot)) == AllocatableSet(v);
    forall s | 4 <= s <= v.numsec && !IsVtocSector(v, s) && !IsClearedDirSector(s)
      ensures InitVtoc(v, d, boot)[s - 1] == d[s - 1]
    {
      InitVtocElsewhere(v, d, boot, s);
    }
  }
}
