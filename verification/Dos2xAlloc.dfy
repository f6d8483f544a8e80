/** `AllocSectors`: first fit over the VTOC bits, and whole octets for directories. */
module Dos2xAlloc {
  import opened Bytes
  import opened AtrImage
  import opened Dos2xVolume
  import opened Dos2xInit

  /** The allocator at work: the disk so far, the sectors taken so far, how many are still wanted. */
  datatype Search = Search(disk: Sectors, taken: seq<nat>, wanted: nat)

  /** Looks at one bit. */
  function TakeBit(v: Volume, a: Search, n: nat): (r: Search)
    requires v.Legal() && Shaped(v, a.disk) && n < v.Capacity()
    ensures Shaped(v, r.disk)
  {
    if a.wanted == 0 || !IsFree(v, a.disk, n) then a
    else Search(SetMark(v, a.disk, n, false), a.taken + [n], a.wanted - 1)
  }

  /** Looks at the bits of the sectors below `n`, in ascending order. */
  function TakeBelow(v: Volume, a: Search, n: nat): (r: Search)
    requires v.Legal() && Shaped(v, a.disk) && n <= v.Capacity()
    ensures Shaped(v, r.disk)
    decreases |a.disk|, n
  {
    if n == 0 then a else TakeBit(v, TakeBelow(v, a, n - 1), n - 1)
  }

  ghost predicate Increasing(s: seq<nat>) {
    forall i, j :: 0 <= i < j < |s| ==> s[i] < s[j]
  }

  /**
   After looking at the bits below `n`, starting from disk `d` with `wanted`
   sectors to find: what was taken is the lowest free sectors, in order; they and
   no others are now used; and the search stops early only when it has them all.
   */
  ghost predicate Searched(v: Volume, d: Sectors, wanted: nat, a: Search, n: nat)
    requires v.Legal() && Shaped(v, d) && n <= v.Capacity()
  {
    && Shaped(v, a.disk) && SameOutsideBits(v, d, a.disk)
    && |a.taken| + a.wanted == wanted
    && Increasing(a.taken)
    && (forall i :: 0 <= i < |a.taken| ==> a.taken[i] < n && IsFree(v, d, a.taken[i]))
    && (forall m: nat :: m < v.Capacity() ==> IsFree(v, a.disk, m) == (IsFree(v, d, m) && m !in a.taken))
    && (forall m: nat :: m < n && IsFree(v, a.disk, m) ==> a.wanted == 0 && forall i :: 0 <= i < |a.taken| ==> a.taken[i] < m)
    && (CopyAgrees(v, d) ==> CopyAgrees(v, a.disk))
  }

  lemma {:induction false} BitPassedOver(v: Volume, d: Sectors, wanted: nat, a: Search, n: nat)
    requires v.Legal() && Shaped(v, d) && n < v.Capacity() && Searched(v, d, wanted, a, n)
    requires a.wanted == 0 || !IsFree(v, a.disk, n)
    ensures Searched(v, d, wanted, a, n + 1)
  {
  }

  lemma {:induction false} BitTaken(v: Volume, d: Sectors, wanted: nat, a: Search, n: nat)
    requires v.Legal() && Shaped(v, d) && n < v.Capacity() && Searched(v, d, wanted, a, n)
    requires a.wanted > 0 && IsFree(v, a.disk, n)
    ensures Searched(v, d, wanted, Search(SetMark(v, a.disk, n, false), a.taken + [n], a.wanted - 1), n + 1)
  {
    var disk := SetMark(v, a.disk, n, false);
    SetMarkElsewhere(v, a.disk, n, false);
    SameOutsideTransitive(v, d, a.disk, disk);
    if CopyAgrees(v, d) {
      SetMarkCopy(v, a.disk, n, false);
    }
    TakenBits(v, d, a.disk, a.taken, n);
    assert forall m: nat :: m < n ==> !IsFree(v, a.disk, m);
    assert forall m: nat :: m < n + 1 ==> !IsFree(v, disk, m);
  }

  lemma {:induction false} TakeBitSearched(v: Volume, d: Sectors, wanted: nat, a: Search, n: nat, r: Search, next: nat)
    requires v.Legal() && Shaped(v, d) && n < v.Capacity() && next == n + 1
    requires Searched(v, d, wanted, a, n) && r == TakeBit(v, a, n)
    ensures Searched(v, d, wanted, r, next)
  {
    if a.wanted == 0 || !IsFree(v, a.disk, n) {
      BitPassedOver(v, d, wanted, a, n);
    } else {
      BitTaken(v, d, wanted, a, n);
    }
  }

  lemma {:induction false} TakenBits(v: Volume, d: Sectors, e: Sectors, taken: seq<nat>, n: nat)
    requires v.Legal() && Shaped(v, d) && Shaped(v, e) && n < v.Capacity()
    requires forall m: nat :: m < v.Capacity() ==> IsFree(v, e, m) == (IsFree(v, d, m) && m !in taken)
    ensures forall m: nat :: m < v.Capacity() ==> IsFree(v, SetMark(v, e, n, false), m) == (IsFree(v, d, m) && m !in taken + [n])
  {
    forall m: nat | m < v.Capacity()
      ensures IsFree(v, SetMark(v, e, n, false), m) == (IsFree(v, d, m) && m !in taken + [n])
    {
      SetMarkMarks(v, e, n, false, m);
    }
  }

  lemma {:induction false} NothingSearched(v: Volume, d: Sectors, wanted: nat)
    requires v.Legal() && Shaped(v, d)
    ensures Searched(v, d, wanted, Search(d, [], wanted), 0)
  {
  }

  lemma {:induction false} TakeBelowSearched(v: Volume, d: Sectors, wanted: nat, start: Search, n: nat)
    requires v.Legal() && Shaped(v, d) && Searched(v, d, wanted, start, 0) && n <= v.Capacity()
    ensures Searched(v, d, wanted, TakeBelow(v, start, n), n)
    decreases n
  {
    if n > 0 {
      TakeBelowSearched(v, d, wanted, start, n - 1);
      TakeBitSearched(v, d, wanted, TakeBelow(v, start, n - 1), n - 1, TakeBelow(v, start, n), n);
    }
  }

  /** Once nothing is wanted the rest of the bits makes no difference. */
  lemma {:induction false} NothingWanted(v: Volume, a: Search, m: nat, n: nat)
    requires v.Legal() && Shaped(v, a.disk) && m <= n <= v.Capacity()
    requires TakeBelow(v, a, m).wanted == 0
    ensures TakeBelow(v, a, n) == TakeBelow(v, a, m)
    decreases n
  {
    if m < n {
      NothingWanted(v, a, m, n - 1);
    }
  }

  function Elements(s: seq<nat>): (r: set<nat>)
    ensures forall x :: x in r <==> x in s
  {
    set x | x in s
  }

  lemma {:induction false} IncreasingSize(s: seq<nat>)
    requires Increasing(s)
    ensures |Elements(s)| == |s|
  {
    if |s| == 0 {
      assert Elements(s) == {};
    } else {
      var init := s[..|s| - 1];
      IncreasingSize(init);
      assert Elements(s) == Elements(init) + {s[|s| - 1]};
      assert s[|s| - 1] !in Elements(init);
    }
  }

  // ------------------------------------------------------------------
  // The stored counts
  // ------------------------------------------------------------------

  /** `freesec -= taken` on the 16-bit number at byte `at` of a sector. */
  function Deduct(s: seq<byte>, at: nat, taken: nat): (r: seq<byte>)
    requires at + 2 <= |s|
    ensures |r| == |s|
    ensures forall i :: 0 <= i < |s| && i != at && i != at + 1 ==> r[i] == s[i]
  {
    var left := (WordValue(s[at..]) - taken) % 0x1_0000;
    s[at := left % 256][at + 1 := left / 256]
  }

  lemma {:induction false} DeductValue(s: seq<byte>, at: nat, taken: nat)
    requires at + 2 <= |s| && taken <= WordValue(s[at..])
    ensures WordValue(Deduct(s, at, taken)[at..]) == WordValue(s[at..]) - taken
  {
    var left := WordValue(s[at..]) - taken;
    assert left % 0x1_0000 == left;
  }

  /** How many of the sectors lie below 720. */
  function CountBelow720(s: seq<nat>): (c: nat)
    ensures c <= |s|
  {
    if s == [] then 0 else CountBelow720(s[..|s| - 1]) + if s[|s| - 1] < 720 then 1 else 0
  }

  /** Takes the allocated sectors off the counts. */
  function DeductCounts(v: Volume, d: Sectors, low: nat, high: nat): (r: Sectors)
    requires v.Legal() && Shaped(v, d)
    ensures Shaped(v, r)
  {
    var r := d[VTOC_SECTOR - 1 := Deduct(d[VTOC_SECTOR - 1], 3, low)];
    if v.Dos25() then r[VTOC2_SECTOR - 1 := Deduct(r[VTOC2_SECTOR - 1], 122, high)] else r
  }

  lemma {:induction false} DeductCountsBits(v: Volume, d: Sectors, low: nat, high: nat)
    requires v.Legal() && Shaped(v, d)
    ensures var r := DeductCounts(v, d, low, high);
      && (forall n: nat :: n < v.Capacity() ==> IsFree(v, r, n) == IsFree(v, d, n))
      && (CopyAgrees(v, d) ==> CopyAgrees(v, r))
  {
    var r := DeductCounts(v, d, low, high);
    forall n: nat | n < v.Capacity()
      ensures IsFree(v, r, n) == IsFree(v, d, n)
    {
      var p := PlaceOf(v, n);
      assert r[p.sector - 1][p.at] == d[p.sector - 1][p.at];
    }
    if v.Dos25() && CopyAgrees(v, d) {
      forall n | 48 <= n < 720
        ensures BitAt(v, r, SecondPlace(n)) == IsFree(v, r, n)
      {
        var p := SecondPlace(n);
        assert r[p.sector - 1][p.at] == d[p.sector - 1][p.at];
      }
    }
  }

  // ------------------------------------------------------------------
  // Files
  // ------------------------------------------------------------------

  datatype Allocation = Allocation(ok: bool, disk: Sectors, sectors: seq<nat>)

  /** `AllocSectors(num, ..., false)`. */
  function AllocFile(v: Volume, d: Sectors, num: nat): (r: Allocation)
    requires v.Legal() && Shaped(v, d)
    ensures Shaped(v, r.disk)
  {
    if num > StoredFree(v, d) then Allocation(false, d, [])
    else
      var a := TakeBelow(v, Search(d, [], num), v.Capacity());
      var low := if v.Dos25() then CountBelow720(a.taken) else |a.taken|;
      Allocation(a.wanted == 0, DeductCounts(v, a.disk, low, |a.taken| - low), a.taken)
  }

  /** The sectors taken from one part of the disk, counted. */
  ghost function TakenIn(s: seq<nat>, lo: nat, hi: nat): set<nat> {
    set n | n in s && lo <= n < hi
  }

  lemma {:induction false} CountBelow720Counts(s: seq<nat>)
    requires Increasing(s)
    ensures |TakenIn(s, 0, 720)| == CountBelow720(s)
  {
    if s == [] {
      assert TakenIn(s, 0, 720) == {};
    } else {
      var init, last := s[..|s| - 1], s[|s| - 1];
      CountBelow720Counts(init);
      TakenInStep(s, 720);
    }
  }

  lemma {:induction false} TakenInStep(s: seq<nat>, hi: nat)
    requires Increasing(s) && s != []
    ensures var init, last := s[..|s| - 1], s[|s| - 1];
      |TakenIn(s, 0, hi)| == |TakenIn(init, 0, hi)| + if last < hi then 1 else 0
  {
    var init, last := s[..|s| - 1], s[|s| - 1];
    assert s == init + [last] && last !in init;
    if last < hi {
      assert TakenIn(s, 0, hi) == TakenIn(init, 0, hi) + {last};
    } else {
      assert TakenIn(s, 0, hi) == TakenIn(init, 0, hi);
    }
  }

  /** The rest of the taken sectors are the high ones. */
  lemma {:induction false} CountAbove720(s: seq<nat>, hi: nat)
    requires Increasing(s) && 720 <= hi && forall i :: 0 <= i < |s| ==> s[i] < hi
    ensures |TakenIn(s, 720, hi)| == |s| - CountBelow720(s)
  {
    CountBelow720Counts(s);
    IncreasingSize(s);
    assert Elements(s) == TakenIn(s, 0, 720) + TakenIn(s, 720, hi);
  }

  lemma {:induction false} CountAll(s: seq<nat>, hi: nat)
    requires Increasing(s) && forall i :: 0 <= i < |s| ==> s[i] < hi
    ensures |TakenIn(s, 0, hi)| == |s|
  {
    IncreasingSize(s);
    assert Elements(s) == TakenIn(s, 0, hi);
  }

  /** The free sectors after a search, in any part of the disk. */
  lemma {:induction false} SearchedFree(v: Volume, d: Sectors, wanted: nat, a: Search, n: nat, lo: nat, hi: nat)
    requires v.Legal() && Shaped(v, d) && n <= v.Capacity() && hi <= v.Capacity()
    requires Searched(v, d, wanted, a, n)
    ensures FreeIn(v, a.disk, lo, hi) == FreeIn(v, d, lo, hi) - TakenIn(a.taken, lo, hi)
    ensures TakenIn(a.taken, lo, hi) <= FreeIn(v, d, lo, hi)
    ensures |FreeIn(v, a.disk, lo, hi)| == |FreeIn(v, d, lo, hi)| - |TakenIn(a.taken, lo, hi)|
  {
    assert FreeIn(v, a.disk, lo, hi) == FreeIn(v, d, lo, hi) - TakenIn(a.taken, lo, hi);
    assert TakenIn(a.taken, lo, hi) <= FreeIn(v, d, lo, hi);
  }

  /** With enough sectors free, the search finds as many as it wants. */
  lemma {:induction false} SearchSucceeds(v: Volume, d: Sectors, wanted: nat, a: Search)
    requires v.Legal() && Shaped(v, d) && wanted <= |FreeSet(v, d)|
    requires Searched(v, d, wanted, a, v.Capacity())
    ensures a.wanted == 0
  {
    if a.wanted > 0 {
      SearchedFree(v, d, wanted, a, v.Capacity(), 0, v.Capacity());
      assert FreeIn(v, a.disk, 0, v.Capacity()) == {};
      CountAll(a.taken, v.Capacity());
    }
  }

  /** What an allocation leaves: a good VTOC again, in which exactly the sectors handed out are no longer free. */
  ghost predicate Took(v: Volume, d: Sectors, r: Allocation) {
    && VtocOk(v, d) && VtocOk(v, r.disk)
    && (forall i :: 0 <= i < |r.sectors| ==> r.sectors[i] < v.Capacity() && IsFree(v, d, r.sectors[i]))
    && (forall m: nat :: m < v.Capacity() ==> IsFree(v, r.disk, m) == (IsFree(v, d, m) && m !in r.sectors))
    && FreeSet(v, r.disk) == FreeSet(v, d) - Elements(r.sectors)
    && Increasing(r.sectors)
    && (forall s :: 1 <= s <= v.numsec && !IsVtocSector(v, s) ==> r.disk[s - 1] == d[s - 1])
    && LabelKept(v, d, r.disk)
  }

  /** Deducting changes counts only. */
  lemma {:induction false} DeductCountsLabel(v: Volume, d: Sectors, low: nat, high: nat)
    requires v.Legal() && Shaped(v, d)
    ensures LabelKept(v, d, DeductCounts(v, d, low, high))
  {
  }

  lemma {:induction false} DeductCountsElsewhere(v: Volume, d: Sectors, low: nat, high: nat, s: nat)
    requires v.Legal() && Shaped(v, d) && 1 <= s <= v.numsec && !IsVtocSector(v, s)
    ensures DeductCounts(v, d, low, high)[s - 1] == d[s - 1]
  {
  }

  lemma {:induction false} DeductCountsValues(v: Volume, d: Sectors, low: nat, high: nat)
    requires v.Legal() && Shaped(v, d) && low <= StoredCount(v, d)
    requires v.Dos25() ==> high <= StoredCount2(v, d)
    ensures StoredCount(v, DeductCounts(v, d, low, high)) == StoredCount(v, d) - low
    ensures v.Dos25() ==> StoredCount2(v, DeductCounts(v, d, low, high)) == StoredCount2(v, d) - high
  {
    DeductValue(d[VTOC_SECTOR - 1], 3, low);
    if v.Dos25() {
      DeductValue(d[VTOC2_SECTOR - 1], 122, high);
    }
  }

  lemma {:induction false} SameBitsSameFree(v: Volume, d: Sectors, r: Sectors, lo: nat, hi: nat)
    requires v.Legal() && Shaped(v, d) && Shaped(v, r) && hi <= v.Capacity()
    requires forall n: nat :: n < v.Capacity() ==> IsFree(v, r, n) == IsFree(v, d, n)
    ensures FreeIn(v, r, lo, hi) == FreeIn(v, d, lo, hi)
  {
  }

  /** After a search the deducted counts are right again. */
  lemma {:induction false} DeductedCountsRight(v: Volume, d: Sectors, wanted: nat, a: Search, low: nat)
    requires VtocOk(v, d) && Searched(v, d, wanted, a, v.Capacity())
    requires low == if v.Dos25() then CountBelow720(a.taken) else |a.taken|
    ensures CountsRight(v, DeductCounts(v, a.disk, low, |a.taken| - low))
  {
    if v.Dos25() {
      BothCountsRight(v, d, wanted, a, low);
    } else {
      OneCountRight(v, d, wanted, a);
    }
  }

  lemma {:induction false} OneCountRight(v: Volume, d: Sectors, wanted: nat, a: Search)
    requires VtocOk(v, d) && Searched(v, d, wanted, a, v.Capacity()) && !v.Dos25()
    ensures CountsRight(v, DeductCounts(v, a.disk, |a.taken|, 0))
  {
    SameOutsideKeepsCounts(v, d, a.disk);
    SearchedFree(v, d, wanted, a, v.Capacity(), 0, LowEnd(v));
    CountAll(a.taken, v.Capacity());
    DeductCountsValues(v, a.disk, |a.taken|, 0);
    DeductCountsBits(v, a.disk, |a.taken|, 0);
    SameBitsSameFree(v, a.disk, DeductCounts(v, a.disk, |a.taken|, 0), 0, LowEnd(v));
  }

  lemma {:induction false} BothCountsRight(v: Volume, d: Sectors, wanted: nat, a: Search, low: nat)
    requires VtocOk(v, d) && Searched(v, d, wanted, a, v.Capacity()) && v.Dos25() && low == CountBelow720(a.taken)
    ensures CountsRight(v, DeductCounts(v, a.disk, low, |a.taken| - low))
  {
    SearchedCounts(v, d, wanted, a, low);
    CountsDeducted(v, a.disk, low, |a.taken| - low);
  }

  lemma {:induction false} SearchedCounts(v: Volume, d: Sectors, wanted: nat, a: Search, low: nat)
    requires VtocOk(v, d) && Searched(v, d, wanted, a, v.Capacity()) && v.Dos25() && low == CountBelow720(a.taken)
    ensures StoredCount(v, a.disk) == |FreeIn(v, a.disk, 0, 720)| + low
    ensures StoredCount2(v, a.disk) == |FreeIn(v, a.disk, 720, 1024)| + |a.taken| - low
  {
    SameOutsideKeepsCounts(v, d, a.disk);
    SearchedFree(v, d, wanted, a, v.Capacity(), 0, 720);
    CountBelow720Counts(a.taken);
    SearchedFree(v, d, wanted, a, v.Capacity(), 720, 1024);
    CountAbove720(a.taken, 1024);
  }

  lemma {:induction false} CountsDeducted(v: Volume, d: Sectors, low: nat, high: nat)
    requires v.Legal() && Shaped(v, d) && v.Dos25()
    requires StoredCount(v, d) == |FreeIn(v, d, 0, 720)| + low && StoredCount2(v, d) == |FreeIn(v, d, 720, 1024)| + high
    ensures CountsRight(v, DeductCounts(v, d, low, high))
  {
    var r := DeductCounts(v, d, low, high);
    DeductCountsValues(v, d, low, high);
    DeductCountsBits(v, d, low, high);
    SameBitsSameFree(v, d, r, 0, 720);
    SameBitsSameFree(v, d, r, 720, 1024);
  }

  /** The bits after a search and the deduction. */
  ghost predicate BitsTaken(v: Volume, d: Sectors, r: Sectors, taken: seq<nat>)
    requires v.Legal() && Shaped(v, d) && Shaped(v, r)
  {
    forall m: nat :: m < v.Capacity() ==> IsFree(v, r, m) == (IsFree(v, d, m) && m !in taken)
  }

  lemma {:induction false} SearchBits(v: Volume, d: Sectors, wanted: nat, a: Search, low: nat)
    requires VtocOk(v, d) && Searched(v, d, wanted, a, v.Capacity()) && low <= |a.taken|
    ensures var r := DeductCounts(v, a.disk, low, |a.taken| - low);
      BitsTaken(v, d, r, a.taken) && CopyAgrees(v, r) && OnlyAllocatableFree(v, r)
  {
    DeductCountsBits(v, a.disk, low, |a.taken| - low);
  }

  lemma {:induction false} SearchElsewhere(v: Volume, d: Sectors, wanted: nat, a: Search, low: nat, s: nat)
    requires v.Legal() && Shaped(v, d)
    requires Searched(v, d, wanted, a, v.Capacity()) && low <= |a.taken|
    requires 1 <= s <= v.numsec && !IsVtocSector(v, s)
    ensures DeductCounts(v, a.disk, low, |a.taken| - low)[s - 1] == d[s - 1]
  {
    DeductCountsElsewhere(v, a.disk, low, |a.taken| - low, s);
    SameOutsideKeepsSector(v, d, a.disk, s);
  }

  /** What the bits say about the set of free sectors. */
  lemma {:induction false} BitsTakenSet(v: Volume, d: Sectors, r: Sectors, taken: seq<nat>)
    requires v.Legal() && Shaped(v, d) && Shaped(v, r) && BitsTaken(v, d, r, taken)
    ensures FreeSet(v, r) == FreeSet(v, d) - Elements(taken)
  {
  }

  lemma {:induction false} SearchVtocOk(v: Volume, d: Sectors, wanted: nat, a: Search, low: nat)
    requires VtocOk(v, d) && Searched(v, d, wanted, a, v.Capacity())
    requires low == if v.Dos25() then CountBelow720(a.taken) else |a.taken|
    ensures VtocOk(v, DeductCounts(v, a.disk, low, |a.taken| - low))
  {
    DeductedCountsRight(v, d, wanted, a, low);
    SearchBits(v, d, wanted, a, low);
  }

  lemma {:induction false} SearchTook(v: Volume, d: Sectors, wanted: nat, a: Search, low: nat)
    requires VtocOk(v, d) && Searched(v, d, wanted, a, v.Capacity())
    requires low == if v.Dos25() then CountBelow720(a.taken) else |a.taken|
    ensures Took(v, d, Allocation(true, DeductCounts(v, a.disk, low, |a.taken| - low), a.taken))
  {
    var r := DeductCounts(v, a.disk, low, |a.taken| - low);
    SearchVtocOk(v, d, wanted, a, low);
    SearchBits(v, d, wanted, a, low);
    forall s | 1 <= s <= v.numsec && !IsVtocSector(v, s)
      ensures r[s - 1] == d[s - 1]
    {
      SearchElsewhere(v, d, wanted, a, low, s);
    }
    LabelOutsideBits(v, d, a.disk);
    DeductCountsLabel(v, a.disk, low, |a.taken| - low);
    LabelTransitive(v, d, a.disk, r);
    TookWhen(v, d, Allocation(true, r, a.taken));
  }

  /** No sector left free comes before one that was handed out. */
  ghost predicate FirstFit(v: Volume, r: Allocation)
    requires v.Legal() && Shaped(v, r.disk)
  {
    forall m: nat, i :: m < v.Capacity() && IsFree(v, r.disk, m) && 0 <= i < |r.sectors| ==> r.sectors[i] < m
  }

  lemma {:induction false} SearchFirstFit(v: Volume, d: Sectors, wanted: nat, a: Search, low: nat)
    requires VtocOk(v, d) && Searched(v, d, wanted, a, v.Capacity()) && low <= |a.taken|
    ensures FirstFit(v, Allocation(true, DeductCounts(v, a.disk, low, |a.taken| - low), a.taken))
  {
    DeductCountsBits(v, a.disk, low, |a.taken| - low);
  }

  /**
   The contract of the allocator for files.  While the counts are right, a
   request succeeds exactly when that many sectors are free; it hands out the
   lowest free ones in ascending order, marks these and no others as used, and
   keeps counts and copies right.  Otherwise the disk is left as it was.
   */
  lemma {:induction false} AllocFileCorrect(v: Volume, d: Sectors, num: nat)
    requires VtocOk(v, d)
    ensures var r := AllocFile(v, d, num);
      && (r.ok <==> num <= |FreeSet(v, d)|)
      && (r.ok ==> HandedOut(v, d, num, r))
      && (!r.ok ==> r.disk == d)
  {
    StoredIsFree(v, d);
    if num <= StoredFree(v, d) {
      AllocFileHandsOut(v, d, num);
    }
  }

  /** A served request: the lowest `num` free sectors, and a VTOC that knows. */
  ghost predicate HandedOut(v: Volume, d: Sectors, num: nat, r: Allocation) {
    Took(v, d, r) && |r.sectors| == num && FirstFit(v, r)
  }

  lemma {:induction false} AllocFileHandsOut(v: Volume, d: Sectors, num: nat)
    requires VtocOk(v, d) && num <= |FreeSet(v, d)|
    ensures AllocFile(v, d, num).ok && HandedOut(v, d, num, AllocFile(v, d, num))
  {
    StoredIsFree(v, d);
    var a := TakeBelow(v, Search(d, [], num), v.Capacity());
    var low := if v.Dos25() then CountBelow720(a.taken) else |a.taken|;
    NothingSearched(v, d, num);
    TakeBelowSearched(v, d, num, Search(d, [], num), v.Capacity());
    AllocFileSearch(v, d, num, a, low);
    AllocFileUnfolds(v, d, num, a, low);
  }

  lemma {:induction false} AllocFileUnfolds(v: Volume, d: Sectors, num: nat, a: Search, low: nat)
    requires v.Legal() && Shaped(v, d) && num <= StoredFree(v, d)
    requires a == TakeBelow(v, Search(d, [], num), v.Capacity()) && a.wanted == 0
    requires low == if v.Dos25() then CountBelow720(a.taken) else |a.taken|
    ensures low <= |a.taken| && AllocFile(v, d, num) == Allocation(true, DeductCounts(v, a.disk, low, |a.taken| - low), a.taken)
  {
  }

  lemma {:induction false} AllocFileSearch(v: Volume, d: Sectors, num: nat, a: Search, low: nat)
    requires VtocOk(v, d) && Searched(v, d, num, a, v.Capacity()) && num <= |FreeSet(v, d)|
    requires low == if v.Dos25() then CountBelow720(a.taken) else |a.taken|
    ensures a.wanted == 0 && |a.taken| == num
    ensures var r := Allocation(true, DeductCounts(v, a.disk, low, |a.taken| - low), a.taken);
      Took(v, d, r) && FirstFit(v, r)
  {
    SearchSucceeds(v, d, num, a);
    SearchTook(v, d, num, a, low);
    SearchFirstFit(v, d, num, a, low);
  }

  /** Handed-out sectors are never boot, VTOC or root directory sectors, nor 720 on DOS 2.5. */
  lemma {:induction false} TookAllocatable(v: Volume, d: Sectors, r: Allocation, i: nat)
    requires Took(v, d, r) && i < |r.sectors|
    ensures v.Allocatable(r.sectors[i]) && r.sectors[i] <= v.LastSector()
    ensures 4 <= r.sectors[i] && !IsVtocSector(v, r.sectors[i])
    ensures !(DIR_SECTOR <= r.sectors[i] < DIR_SECTOR + 8)
  {
    VtocBounds(v);
  }

  // ------------------------------------------------------------------
  // Directories
  // ------------------------------------------------------------------

  /** Byte `q` of the VTOC, counted from the start of sector 360 through the sectors below it. */
  function VtocByte(v: Volume, d: Sectors, q: nat): byte
    requires v.Legal() && Shaped(v, d) && !v.Dos25() && 10 <= q < (v.Capacity() + 80) / 8
  {
    var p := MainPlace(v, (q - 10) * 8);
    d[p.sector - 1][p.at]
  }

  function VtocBytes(v: Volume): nat
    requires v.Legal()
  {
    (v.Capacity() + 80) / 8
  }

  /** The first whole free octet whose VTOC byte is at `q` or later. */
  function FindOctet(v: Volume, d: Sectors, q: nat): (r: Option<nat>)
    requires v.Legal() && Shaped(v, d) && !v.Dos25() && 10 <= q <= VtocBytes(v)
    ensures r.Some? ==> q <= r.value < VtocBytes(v) && VtocByte(v, d, r.value) == 255
    ensures r.Some? ==> forall i :: q <= i < r.value ==> VtocByte(v, d, i) != 255
    ensures r.None? ==> forall i :: q <= i < VtocBytes(v) ==> VtocByte(v, d, i) != 255
    decreases VtocBytes(v) - q
  {
    if q == VtocBytes(v) then None
    else if VtocByte(v, d, q) == 255 then Some(q)
    else FindOctet(v, d, q + 1)
  }

  function Octet(first: nat): (s: seq<nat>)
    ensures Increasing(s) && |s| == 8
    ensures forall n :: n in s <==> first <= n < first + 8
  {
    [first, first + 1, first + 2, first + 3, first + 4, first + 5, first + 6, first + 7]
  }

  /** The byte of the VTOC at which the octets for directories begin: sector 368. */
  const DIR_OCTETS := 56

  function TakeOctet(v: Volume, d: Sectors, q: nat): (r: Sectors)
    requires v.Legal() && Shaped(v, d) && !v.Dos25() && 10 <= q < VtocBytes(v)
    ensures Shaped(v, r)
  {
    var p := MainPlace(v, (q - 10) * 8);
    var s: seq<byte> := d[p.sector - 1];
    d[p.sector - 1 := s[p.at := 0]]
  }

  /** The disk after the octet at VTOC byte `q` has been handed out. */
  function DirectoryDisk(v: Volume, d: Sectors, q: nat): (r: Sectors)
    requires v.Legal() && Shaped(v, d) && !v.Dos25() && 10 <= q < VtocBytes(v)
    ensures Shaped(v, r)
  {
    DeductCounts(v, TakeOctet(v, d, q), 8, 0)
  }

  /** Hands out the octet that was found; without one the counts are still written back. */
  function HandOutOctet(v: Volume, d: Sectors, found: Option<nat>): (r: Allocation)
    requires v.Legal() && Shaped(v, d) && !v.Dos25() && (found.Some? ==> 10 <= found.value < VtocBytes(v))
    ensures Shaped(v, r.disk)
  {
    match found
    case None => Allocation(false, DeductCounts(v, d, 0, 0), [])
    case Some(q) => Allocation(true, DirectoryDisk(v, d, q), Octet(8 * (q - 10)))
  }

  /** `AllocSectors(8, ..., true)`. */
  function AllocDirectory(v: Volume, d: Sectors): (r: Allocation)
    requires v.Legal() && Shaped(v, d)
    ensures Shaped(v, r.disk)
  {
    if 8 > StoredFree(v, d) || !v.dos.MyDos? then Allocation(false, d, [])
    else HandOutOctet(v, d, FindOctet(v, d, DIR_OCTETS))
  }

  /** The sectors of the octet at VTOC byte `q` are the bits of that byte. */
  lemma {:induction false} OctetBits(v: Volume, d: Sectors, q: nat, n: nat)
    requires v.Legal() && Shaped(v, d) && !v.Dos25() && 10 <= q < VtocBytes(v)
    requires 8 * (q - 10) <= n < 8 * (q - 10) + 8
    ensures n < v.Capacity() && IsFree(v, d, n) == TestBit(VtocByte(v, d, q), n % 8)
  {
    OctetIndex(q, n);
    SameByte(v, q, n);
  }

  lemma {:induction false} OctetIndex(q: nat, n: nat)
    requires 10 <= q && 8 * (q - 10) <= n < 8 * (q - 10) + 8
    ensures n / 8 + 10 == q && (q - 10) * 8 / 8 + 10 == q
  {
  }

  lemma {:induction false} SameByte(v: Volume, q: nat, n: nat)
    requires v.Legal() && !v.Dos25() && 10 <= q < VtocBytes(v) && n < v.Capacity()
    requires n / 8 + 10 == q && (q - 10) * 8 / 8 + 10 == q
    ensures MainPlace(v, n) == MainPlace(v, (q - 10) * 8).(bit := n % 8)
  {
  }

  lemma {:induction false} OctetBit(v: Volume, d: Sectors, q: nat, t: nat)
    requires v.Legal() && Shaped(v, d) && !v.Dos25() && 10 <= q < VtocBytes(v) && t < 8
    ensures var n := 8 * (q - 10) + t;
      n < v.Capacity() && IsFree(v, d, n) == TestBit(VtocByte(v, d, q), t)
  {
    var n := 8 * (q - 10) + t;
    assert n % 8 == t;
    OctetBits(v, d, q, n);
  }

  ghost predicate OctetFree(v: Volume, d: Sectors, q: nat)
    requires v.Legal() && Shaped(v, d) && !v.Dos25() && 10 <= q < VtocBytes(v)
  {
    forall n :: 8 * (q - 10) <= n < 8 * (q - 10) + 8 ==> IsFree(v, d, n)
  }

  lemma {:induction false} OctetFreeIff(v: Volume, d: Sectors, q: nat)
    requires v.Legal() && Shaped(v, d) && !v.Dos25() && 10 <= q < VtocBytes(v)
    ensures OctetFree(v, d, q) <==> VtocByte(v, d, q) == 255
  {
    var b := VtocByte(v, d, q);
    AllOnes(b, 8);
    if OctetFree(v, d, q) {
      forall t | 0 <= t < 8
        ensures TestBit(b, t)
      {
        OctetBit(v, d, q, t);
      }
    }
    if b == 255 {
      forall n | 8 * (q - 10) <= n < 8 * (q - 10) + 8
        ensures IsFree(v, d, n)
      {
        OctetBits(v, d, q, n);
      }
    }
  }

  /** Zeroing the byte of an octet takes its eight sectors and no other. */
  lemma {:induction false} TakeOctetBits(v: Volume, d: Sectors, q: nat, n: nat)
    requires v.Legal() && Shaped(v, d) && !v.Dos25() && 10 <= q < VtocBytes(v) && n < v.Capacity()
    ensures IsFree(v, TakeOctet(v, d, q), n) == (IsFree(v, d, n) && n !in Octet(8 * (q - 10)))
  {
    var r := TakeOctet(v, d, q);
    if n in Octet(8 * (q - 10)) {
      OctetBits(v, r, q, n);
      ZeroHasNoBits(n % 8);
    } else {
      OtherByte(v, q, n);
    }
  }

  lemma {:induction false} OtherByte(v: Volume, q: nat, n: nat)
    requires v.Legal() && !v.Dos25() && 10 <= q < VtocBytes(v) && n < v.Capacity()
    requires n / 8 + 10 != q
    ensures var a, b := MainPlace(v, (q - 10) * 8), MainPlace(v, n); a.sector != b.sector || a.at != b.at
  {
  }

  lemma {:induction false} TakeOctetCounts(v: Volume, d: Sectors, q: nat)
    requires VtocOk(v, d) && !v.Dos25() && DIR_OCTETS <= q < VtocBytes(v)
    ensures StoredCount(v, TakeOctet(v, d, q)) == StoredCount(v, d)
  {
    var p := MainPlace(v, (q - 10) * 8);
    var r := TakeOctet(v, d, q);
    assert r[VTOC_SECTOR - 1][3..][0] == d[VTOC_SECTOR - 1][3..][0];
    assert r[VTOC_SECTOR - 1][3..][1] == d[VTOC_SECTOR - 1][3..][1];
  }

  lemma {:induction false} TakeOctetElsewhere(v: Volume, d: Sectors, q: nat, s: nat)
    requires v.Legal() && Shaped(v, d) && !v.Dos25() && 10 <= q < VtocBytes(v)
    requires 1 <= s <= v.numsec && !IsVtocSector(v, s)
    ensures TakeOctet(v, d, q)[s - 1] == d[s - 1]
  {
  }

  lemma {:induction false} DirectoryBits(v: Volume, d: Sectors, q: nat)
    requires VtocOk(v, d) && !v.Dos25() && DIR_OCTETS <= q < VtocBytes(v)
    ensures var r := DeductCounts(v, TakeOctet(v, d, q), 8, 0);
      BitsTaken(v, d, r, Octet(8 * (q - 10))) && CopyAgrees(v, r) && OnlyAllocatableFree(v, r)
  {
    var t := TakeOctet(v, d, q);
    var r := DeductCounts(v, t, 8, 0);
    DeductCountsBits(v, t, 8, 0);
    forall n: nat | n < v.Capacity()
      ensures IsFree(v, r, n) == (IsFree(v, d, n) && n !in Octet(8 * (q - 10)))
    {
      TakeOctetBits(v, d, q, n);
    }
  }

  /** Removing `k` distinct elements makes a set smaller by `k`. */
  lemma {:induction false} RemovedSize(s: set<nat>, r: seq<nat>)
    requires Increasing(r) && Elements(r) <= s
    ensures |s - Elements(r)| == |s| - |r|
  {
    IncreasingSize(r);
  }

  lemma {:induction false} DirectoryElsewhere(v: Volume, d: Sectors, q: nat, s: nat)
    requires v.Legal() && Shaped(v, d) && !v.Dos25() && 10 <= q < VtocBytes(v)
    requires 1 <= s <= v.numsec && !IsVtocSector(v, s)
    ensures DeductCounts(v, TakeOctet(v, d, q), 8, 0)[s - 1] == d[s - 1]
  {
    DeductCountsElsewhere(v, TakeOctet(v, d, q), 8, 0, s);
    TakeOctetElsewhere(v, d, q, s);
  }

  lemma {:induction false} OctetMembers(v: Volume, d: Sectors, q: nat, i: nat)
    requires v.Legal() && Shaped(v, d) && !v.Dos25() && 10 <= q < VtocBytes(v) && OctetFree(v, d, q) && i < 8
    ensures Octet(8 * (q - 10))[i] < v.Capacity() && IsFree(v, d, Octet(8 * (q - 10))[i])
  {
    OctetBits(v, d, q, Octet(8 * (q - 10))[i]);
  }

  lemma {:induction false} DirectoryVtocOk(v: Volume, d: Sectors, q: nat)
    requires VtocOk(v, d) && !v.Dos25() && DIR_OCTETS <= q < VtocBytes(v) && OctetFree(v, d, q)
    ensures VtocOk(v, DirectoryDisk(v, d, q))
    ensures FreeSet(v, DirectoryDisk(v, d, q)) == FreeSet(v, d) - Elements(Octet(8 * (q - 10)))
    ensures BitsTaken(v, d, DirectoryDisk(v, d, q), Octet(8 * (q - 10)))
  {
    DirectoryBits(v, d, q);
    BitsTakenSet(v, d, DirectoryDisk(v, d, q), Octet(8 * (q - 10)));
    DirectoryCounts(v, d, q, DirectoryDisk(v, d, q));
  }

  lemma {:induction false} TookWhen(v: Volume, d: Sectors, r: Allocation)
    requires VtocOk(v, d) && VtocOk(v, r.disk) && Increasing(r.sectors)
    requires BitsTaken(v, d, r.disk, r.sectors)
    requires forall i :: 0 <= i < |r.sectors| ==> r.sectors[i] < v.Capacity() && IsFree(v, d, r.sectors[i])
    requires forall s :: 1 <= s <= v.numsec && !IsVtocSector(v, s) ==> r.disk[s - 1] == d[s - 1]
    requires LabelKept(v, d, r.disk)
    ensures Took(v, d, r)
  {
    BitsTakenSet(v, d, r.disk, r.sectors);
  }

  lemma {:induction false} TakeOctetLabel(v: Volume, d: Sectors, q: nat)
    requires v.Legal() && Shaped(v, d) && !v.Dos25() && 10 <= q < VtocBytes(v)
    ensures LabelKept(v, d, TakeOctet(v, d, q))
  {
  }

  lemma {:induction false} DirectoryTook(v: Volume, d: Sectors, q: nat)
    requires VtocOk(v, d) && !v.Dos25() && DIR_OCTETS <= q < VtocBytes(v) && OctetFree(v, d, q)
    ensures Took(v, d, Allocation(true, DirectoryDisk(v, d, q), Octet(8 * (q - 10))))
  {
    DirectoryVtocOk(v, d, q);
    OctetsMembers(v, d, q);
    DirectoryAllElsewhere(v, d, q);
    TakeOctetLabel(v, d, q);
    DeductCountsLabel(v, TakeOctet(v, d, q), 8, 0);
    LabelTransitive(v, d, TakeOctet(v, d, q), DirectoryDisk(v, d, q));
    TookWhen(v, d, Allocation(true, DirectoryDisk(v, d, q), Octet(8 * (q - 10))));
  }

  lemma {:induction false} OctetsMembers(v: Volume, d: Sectors, q: nat)
    requires v.Legal() && Shaped(v, d) && !v.Dos25() && 10 <= q < VtocBytes(v) && OctetFree(v, d, q)
    ensures var s := Octet(8 * (q - 10));
      forall i :: 0 <= i < 8 ==> s[i] < v.Capacity() && IsFree(v, d, s[i])
  {
    var s := Octet(8 * (q - 10));
    forall i: nat | i < 8
      ensures s[i] < v.Capacity() && IsFree(v, d, s[i])
    {
      OctetMembers(v, d, q, i);
    }
  }

  lemma {:induction false} DirectoryAllElsewhere(v: Volume, d: Sectors, q: nat)
    requires v.Legal() && Shaped(v, d) && !v.Dos25() && 10 <= q < VtocBytes(v)
    ensures var r := DirectoryDisk(v, d, q);
      forall s :: 1 <= s <= v.numsec && !IsVtocSector(v, s) ==> r[s - 1] == d[s - 1]
  {
    forall s: nat | 1 <= s <= v.numsec && !IsVtocSector(v, s)
      ensures DirectoryDisk(v, d, q)[s - 1] == d[s - 1]
    {
      DirectoryElsewhere(v, d, q, s);
    }
  }

  lemma {:induction false} DirectoryCounts(v: Volume, d: Sectors, q: nat, r: Sectors)
    requires VtocOk(v, d) && !v.Dos25() && DIR_OCTETS <= q < VtocBytes(v) && OctetFree(v, d, q)
    requires r == DeductCounts(v, TakeOctet(v, d, q), 8, 0)
    requires FreeSet(v, r) == FreeSet(v, d) - Elements(Octet(8 * (q - 10)))
    ensures CountsRight(v, r)
    ensures 8 <= |FreeSet(v, d)|
  {
    var s := Octet(8 * (q - 10));
    forall n | n in Elements(s)
      ensures n in FreeSet(v, d)
    {
      OctetBits(v, d, q, n);
    }
    RemovedSize(FreeSet(v, d), s);
    TakeOctetCounts(v, d, q);
    DeductCountsValues(v, TakeOctet(v, d, q), 8, 0);
  }

  lemma {:induction false} DeductNothing(v: Volume, d: Sectors)
    requires v.Legal() && Shaped(v, d)
    ensures DeductCounts(v, d, 0, 0) == d
  {
    DeductZero(d[VTOC_SECTOR - 1], 3);
    if v.Dos25() {
      DeductZero(d[VTOC2_SECTOR - 1], 122);
    }
  }

  lemma {:induction false} DeductZero(s: seq<byte>, at: nat)
    requires at + 2 <= |s|
    ensures Deduct(s, at, 0) == s
  {
    var lo: nat, hi: nat := s[at], s[at + 1];
    assert WordValue(s[at..]) == lo + 256 * hi;
    assert (lo + 256 * hi) % 0x1_0000 == lo + 256 * hi;
  }

  /** The search finds the first free octet. */
  lemma {:induction false} FindOctetFinds(v: Volume, d: Sectors)
    requires v.Legal() && Shaped(v, d) && !v.Dos25()
    ensures DIR_OCTETS <= VtocBytes(v)
    ensures match FindOctet(v, d, DIR_OCTETS)
      case None => forall q :: DIR_OCTETS <= q < VtocBytes(v) ==> !OctetFree(v, d, q)
      case Some(q) => DIR_OCTETS <= q < VtocBytes(v) && OctetFree(v, d, q) && IsFirstOctet(v, d, Octet(8 * (q - 10)))
  {
    forall q | DIR_OCTETS <= q < VtocBytes(v)
      ensures OctetFree(v, d, q) <==> VtocByte(v, d, q) == 255
    {
      OctetFreeIff(v, d, q);
    }
  }

  lemma {:induction false} OctetCounted(v: Volume, d: Sectors, q: nat)
    requires VtocOk(v, d) && !v.Dos25() && DIR_OCTETS <= q < VtocBytes(v) && OctetFree(v, d, q)
    ensures 8 <= StoredFree(v, d)
  {
    DirectoryRoom(v, d, q);
    StoredIsFree(v, d);
  }

  /**
   The contract of the allocator for directories, on a MyDOS disk with right
   counts: it succeeds exactly when some aligned octet from sector 368 on is
   wholly free, hands out the first such octet, and takes nothing else; otherwise
   the disk is left as it was.
   */
  lemma {:induction false} AllocDirectoryCorrect(v: Volume, d: Sectors)
    requires VtocOk(v, d) && v.dos.MyDos?
    ensures var r := AllocDirectory(v, d);
      && (r.ok <==> exists q :: DIR_OCTETS <= q < VtocBytes(v) && OctetFree(v, d, q))
      && (r.ok ==> Took(v, d, r) && IsFirstOctet(v, d, r.sectors))
      && (!r.ok ==> r.disk == d)
  {
    FindOctetFinds(v, d);
    match FindOctet(v, d, DIR_OCTETS)
    case None =>
      DeductNothing(v, d);
    case Some(q) =>
      FoundOctetTaken(v, d, q);
  }

  lemma {:induction false} FoundOctetTaken(v: Volume, d: Sectors, q: nat)
    requires VtocOk(v, d) && v.dos.MyDos? && DIR_OCTETS <= q < VtocBytes(v) && OctetFree(v, d, q)
    requires FindOctet(v, d, DIR_OCTETS) == Some(q)
    ensures var r := AllocDirectory(v, d); r.ok && r.sectors == Octet(8 * (q - 10)) && Took(v, d, r)
  {
    FoundOctetHandedOut(v, d, q);
    DirectoryTook(v, d, q);
  }

  lemma {:induction false} FoundOctetHandedOut(v: Volume, d: Sectors, q: nat)
    requires VtocOk(v, d) && v.dos.MyDos? && DIR_OCTETS <= q < VtocBytes(v) && OctetFree(v, d, q)
    requires FindOctet(v, d, DIR_OCTETS) == Some(q)
    ensures AllocDirectory(v, d) == Allocation(true, DirectoryDisk(v, d, q), Octet(8 * (q - 10)))
  {
    OctetCounted(v, d, q);
    assert AllocDirectory(v, d) == HandOutOctet(v, d, Some(q));
  }

  ghost predicate IsFirstOctet(v: Volume, d: Sectors, s: seq<nat>)
    requires v.Legal() && Shaped(v, d) && !v.Dos25()
  {
    exists q :: DIR_OCTETS <= q < VtocBytes(v) && OctetFree(v, d, q) && s == Octet(8 * (q - 10))
      && forall i :: DIR_OCTETS <= i < q ==> !OctetFree(v, d, i)
  }

  lemma {:induction false} DirectoryRoom(v: Volume, d: Sectors, q: nat)
    requires VtocOk(v, d) && !v.Dos25() && DIR_OCTETS <= q < VtocBytes(v) && OctetFree(v, d, q)
    ensures 8 <= |FreeSet(v, d)|
  {
    var r := DeductCounts(v, TakeOctet(v, d, q), 8, 0);
    DirectoryBits(v, d, q);
    BitsTakenSet(v, d, r, Octet(8 * (q - 10)));
    DirectoryCounts(v, d, q, r);
  }
}
