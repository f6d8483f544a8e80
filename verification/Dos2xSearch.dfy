/**
 The inner loops of `AllocSectors`, which work on copies of the VTOC sectors
 before these are written back.
 */
module Dos2xSearch {
  import opened Bytes
  import opened AtrImage
  import opened Dos2xVolume
  import opened Dos2xInit
  import opened Dos2xAlloc

  /** The disk as it will be once the buffer has been written to its sector. */
  function Overlay(d: Sectors, sector: nat, buf: seq<byte>): Sectors
    requires 1 <= sector <= |d|
  {
    d[sector - 1 := buf]
  }

  // ------------------------------------------------------------------
  // The states of a search
  // ------------------------------------------------------------------

  /** All states of a search, one for each bit looked at. */
  ghost function States(v: Volume, start: Search): (t: seq<Search>)
    requires v.Legal() && Shaped(v, start.disk)
    ensures |t| == v.Capacity() + 1
  {
    seq(v.Capacity() + 1, n requires 0 <= n <= v.Capacity() => TakeBelow(v, start, n))
  }

  ghost predicate StepOk(v: Volume, t: seq<Search>, n: nat) {
    && v.Legal() && n < v.Capacity() && n + 1 < |t| && Shaped(v, t[n].disk)
    && t[n + 1] == TakeBit(v, t[n], n)
  }

  ghost predicate Trace(v: Volume, t: seq<Search>) {
    v.Legal() && |t| == v.Capacity() + 1 && forall n: nat :: n < v.Capacity() ==> StepOk(v, t, n)
  }

  lemma {:induction false} StatesTrace(v: Volume, start: Search)
    requires v.Legal() && Shaped(v, start.disk)
    ensures Trace(v, States(v, start)) && States(v, start)[0] == start
    ensures States(v, start)[v.Capacity()] == TakeBelow(v, start, v.Capacity())
  {
    var t := States(v, start);
    forall n: nat | n < v.Capacity()
      ensures StepOk(v, t, n)
    {
      assert t[n] == TakeBelow(v, start, n) && t[n + 1] == TakeBelow(v, start, n + 1);
    }
  }

  /** Once nothing is wanted the search does not change any more. */
  lemma {:induction false} Idle(v: Volume, t: seq<Search>, m: nat, n: nat)
    requires Trace(v, t) && m <= n < |t| && t[m].wanted == 0
    ensures t[n] == t[m]
    decreases n
  {
    if m < n {
      Idle(v, t, m, n - 1);
      assert StepOk(v, t, n - 1);
    }
  }

  // ------------------------------------------------------------------
  // Disks with one bitmap
  // ------------------------------------------------------------------

  /** The sector with a given bit in the VTOC: `vtoc` sectors below 360, byte `b`, bit `s`. */
  function SectorNumber(v: Volume, vtoc: nat, b: nat, s: nat): int {
    8 * ((if v.seclen == 128 then vtoc * 128 else vtoc * 256) + b - 10) + s
  }

  lemma {:induction false} SectorNumberPlace(v: Volume, vtoc: nat, b: nat, s: nat)
    requires v.Legal() && !v.Dos25() && vtoc < v.NumVtoc() && b < v.seclen && s < 8 && (vtoc == 0 ==> b >= 10)
    ensures 0 <= SectorNumber(v, vtoc, b, s) < v.Capacity()
    ensures MainPlace(v, SectorNumber(v, vtoc, b, s)) == Place(VTOC_SECTOR - vtoc, b, s)
  {
  }

  /** The search is at sector `n`, with the changes so far in `buf`. */
  ghost predicate At(t: seq<Search>, d: Sectors, sector: nat, buf: seq<byte>, n: nat, num: nat, secnums: seq<nat>) {
    1 <= sector <= |d| && n < |t| && t[n] == Search(Overlay(d, sector, buf), secnums, num)
  }

  predicate IsBuffer(v: Volume, d: Sectors, sector: nat, buf: seq<byte>) {
    v.Legal() && Shaped(v, d) && 4 <= sector <= v.numsec && |buf| == v.seclen
  }

  /** One bit, looked at in the buffer. */
  lemma {:induction false} BitInBuffer(
      v: Volume, t: seq<Search>, d: Sectors, p: Place, buf: seq<byte>, n: nat, num: nat, secnums: seq<nat>)
    requires Trace(v, t) && At(t, d, p.sector, buf, n, num, secnums) && IsBuffer(v, d, p.sector, buf)
    requires n < v.Capacity() && !v.Dos25() && p == MainPlace(v, n)
    ensures if num > 0 && TestBit(buf[p.at], p.bit)
            then At(t, d, p.sector, buf[p.at := PutByteBit(buf[p.at], p.bit, false)], n + 1, num - 1, secnums + [n])
            else At(t, d, p.sector, buf, n + 1, num, secnums)
  {
    assert StepOk(v, t, n);
    var a := t[n];
    assert IsFree(v, a.disk, n) == TestBit(buf[p.at], p.bit);
    if num > 0 && TestBit(buf[p.at], p.bit) {
      var buf2 := buf[p.at := PutByteBit(buf[p.at], p.bit, false)];
      assert SetMark(v, a.disk, n, false) == Overlay(d, p.sector, buf2);
    }
  }

  /** Byte `b` of the VTOC sector `vtoc` below 360 begins with the bit of sector `first`. */
  predicate ByteAt(v: Volume, vtoc: nat, b: nat, first: nat) {
    && v.Legal() && !v.Dos25() && vtoc < v.NumVtoc() && b < v.seclen && (vtoc == 0 ==> b >= 10)
    && first == SectorNumber(v, vtoc, b, 0)
  }

  lemma {:induction false} ByteFits(v: Volume, vtoc: nat, b: nat, first: nat)
    requires ByteAt(v, vtoc, b, first)
    ensures first + 8 <= v.Capacity() && VTOC_SECTOR - vtoc >= 4
  {
    VtocBounds(v);
    SectorNumberPlace(v, vtoc, b, 7);
  }

  /** One bit of a byte: taken if it is set. */
  method TakeBitOf(
      ghost v: Volume, ghost t: seq<Search>, ghost d: Sectors, ghost vtoc: nat, ghost first: nat,
      buf: seq<byte>, b: nat, s: nat, n: nat, num: nat, secnums: seq<nat>)
    returns (buf2: seq<byte>, num2: nat, secnums2: seq<nat>)
    requires Trace(v, t) && ByteAt(v, vtoc, b, first) && s < 8 && num > 0 && n == first + s
    requires At(t, d, VTOC_SECTOR - vtoc, buf, n, num, secnums) && IsBuffer(v, d, VTOC_SECTOR - vtoc, buf)
    ensures At(t, d, VTOC_SECTOR - vtoc, buf2, n + 1, num2, secnums2)
    ensures |buf2| == |buf| && num2 <= num && (num2 == num ==> buf2 == buf)
  {
    SectorNumberPlace(v, vtoc, b, s);
    BitInBuffer(v, t, d, Place(VTOC_SECTOR - vtoc, b, s), buf, n, num, secnums);
    if TestBit(buf[b], s) {
      buf2, num2, secnums2 := buf[b := PutByteBit(buf[b], s, false)], num - 1, secnums + [n];
    } else {
      buf2, num2, secnums2 := buf, num, secnums;
    }
  }

  /** The loop over the bits of one byte. */
  method TakeFromByte(
      ghost v: Volume, ghost t: seq<Search>, ghost d: Sectors, ghost vtoc: nat,
      buf: seq<byte>, b: nat, first: nat, num: nat, secnums: seq<nat>)
    returns (buf2: seq<byte>, num2: nat, secnums2: seq<nat>)
    requires Trace(v, t) && ByteAt(v, vtoc, b, first)
    requires At(t, d, VTOC_SECTOR - vtoc, buf, first, num, secnums) && IsBuffer(v, d, VTOC_SECTOR - vtoc, buf)
    ensures At(t, d, VTOC_SECTOR - vtoc, buf2, first + 8, num2, secnums2)
    ensures |buf2| == |buf| && num2 <= num && (num2 == num ==> buf2 == buf)
  {
    buf2, num2, secnums2 := buf, num, secnums;
    ByteFits(v, vtoc, b, first);
    var s := 0;
    while num2 > 0 && s < 8
      invariant 0 <= s <= 8 && |buf2| == |buf| && num2 <= num && (num2 == num ==> buf2 == buf)
      invariant At(t, d, VTOC_SECTOR - vtoc, buf2, first + s, num2, secnums2)
    {
      buf2, num2, secnums2 := TakeBitOf(v, t, d, vtoc, first, buf2, b, s, first + s, num2, secnums2);
      s := s + 1;
    }
    if s < 8 {
      Idle(v, t, first + s, first + 8);
    }
  }

  /** A byte without bits has nothing to take. */
  lemma {:induction false} ZeroByte(
      v: Volume, t: seq<Search>, d: Sectors, vtoc: nat, buf: seq<byte>, b: nat, first: nat, s: nat, num: nat, secnums: seq<nat>)
    requires Trace(v, t) && ByteAt(v, vtoc, b, first) && s <= 8
    requires At(t, d, VTOC_SECTOR - vtoc, buf, first, num, secnums) && IsBuffer(v, d, VTOC_SECTOR - vtoc, buf)
    requires buf[b] == 0
    ensures At(t, d, VTOC_SECTOR - vtoc, buf, first + s, num, secnums)
    decreases s
  {
    if s > 0 {
      ZeroByte(v, t, d, vtoc, buf, b, first, s - 1, num, secnums);
      SectorNumberPlace(v, vtoc, b, s - 1);
      BitInBuffer(v, t, d, Place(VTOC_SECTOR - vtoc, b, s - 1), buf, first + s - 1, num, secnums);
      ZeroHasNoBits(s - 1);
    }
  }

  /** The loop over the bytes of one VTOC sector. */
  method TakeFromSector(
      v: Volume, ghost t: seq<Search>, ghost d: Sectors, ghost vtoc: nat,
      buf: seq<byte>, base: nat, sectorBase: nat, num: nat, secnums: seq<nat>)
    returns (buf2: seq<byte>, num2: nat, secnums2: seq<nat>, changed: bool)
    requires Trace(v, t) && !v.Dos25() && vtoc < v.NumVtoc()
    requires base == (if vtoc == 0 then 10 else 0) && sectorBase == SectorNumber(v, vtoc, base, 0)
    requires At(t, d, VTOC_SECTOR - vtoc, buf, sectorBase, num, secnums) && IsBuffer(v, d, VTOC_SECTOR - vtoc, buf)
    ensures At(t, d, VTOC_SECTOR - vtoc, buf2, SectorNumber(v, vtoc, v.seclen, 0), num2, secnums2)
    ensures |buf2| == |buf| && (!changed ==> buf2 == buf)
  {
    buf2, num2, secnums2, changed := buf, num, secnums, false;
    var b := base;
    while num2 > 0 && b < v.seclen
      invariant base <= b <= v.seclen && |buf2| == |buf| && (!changed ==> buf2 == buf)
      invariant At(t, d, VTOC_SECTOR - vtoc, buf2, sectorBase + 8 * (b - base), num2, secnums2)
    {
      var first := sectorBase + 8 * (b - base);
      if buf2[b] != 0 {
        var was := num2;
        buf2, num2, secnums2 := TakeFromByte(v, t, d, vtoc, buf2, b, first, num2, secnums2);
        changed := changed || num2 < was;
      } else {
        ZeroByte(v, t, d, vtoc, buf2, b, first, 8, num2, secnums2);
      }
      b := b + 1;
    }
    LastByte(v, vtoc);
    Idle2(v, t, sectorBase + 8 * (b - base), SectorNumber(v, vtoc, v.seclen, 0));
  }

  lemma {:induction false} LastByte(v: Volume, vtoc: nat)
    requires v.Legal() && !v.Dos25() && vtoc < v.NumVtoc()
    ensures 0 <= SectorNumber(v, vtoc, v.seclen, 0) <= v.Capacity()
    ensures vtoc + 1 == v.NumVtoc() ==> SectorNumber(v, vtoc, v.seclen, 0) == v.Capacity()
    ensures vtoc + 1 < v.NumVtoc() ==> SectorNumber(v, vtoc, v.seclen, 0) == SectorNumber(v, vtoc + 1, 0, 0)
  {
  }

  lemma {:induction false} Idle2(v: Volume, t: seq<Search>, m: nat, n: nat)
    requires Trace(v, t) && m <= n < |t| && (t[m].wanted == 0 || m == n)
    ensures t[n] == t[m]
  {
    if m < n {
      Idle(v, t, m, n);
    }
  }

  // ------------------------------------------------------------------
  // Directories
  // ------------------------------------------------------------------

  /** The position of a byte in the VTOC as a whole. */
  function BytePosition(v: Volume, vtoc: nat, b: nat): nat {
    (if v.seclen == 128 then vtoc * 128 else vtoc * 256) + b
  }

  lemma {:induction false} BytePositionByte(v: Volume, d: Sectors, vtoc: nat, b: nat)
    requires v.Legal() && Shaped(v, d) && !v.Dos25() && vtoc < v.NumVtoc() && b < v.seclen && (vtoc == 0 ==> b >= 10)
    ensures 10 <= BytePosition(v, vtoc, b) < VtocBytes(v)
    ensures VtocByte(v, d, BytePosition(v, vtoc, b)) == d[VTOC_SECTOR - vtoc - 1][b]
    ensures MainPlace(v, (BytePosition(v, vtoc, b) - 10) * 8) == Place(VTOC_SECTOR - vtoc, b, 0)
  {
    SectorNumberPlace(v, vtoc, b, 0);
  }

  /** The bytes of the VTOC from `q` to `r` are not all ones. */
  ghost predicate NoneWhole(v: Volume, d: Sectors, q: nat, r: nat)
    requires v.Legal() && Shaped(v, d) && !v.Dos25() && 10 <= q <= r <= VtocBytes(v)
  {
    forall i :: q <= i < r ==> VtocByte(v, d, i) != 255
  }

  /** The search finds the first byte of ones. */
  ghost predicate FirstWhole(v: Volume, d: Sectors, q: nat, x: Option<nat>)
    requires v.Legal() && Shaped(v, d) && !v.Dos25() && 10 <= q <= VtocBytes(v)
  {
    if x.None? then NoneWhole(v, d, q, VtocBytes(v))
    else q <= x.value < VtocBytes(v) && VtocByte(v, d, x.value) == 255 && NoneWhole(v, d, q, x.value)
  }

  lemma {:induction false} FirstWholeIsUnique(v: Volume, d: Sectors, q: nat, x: Option<nat>, y: Option<nat>)
    requires v.Legal() && Shaped(v, d) && !v.Dos25() && 10 <= q <= VtocBytes(v)
    requires FirstWhole(v, d, q, x) && FirstWhole(v, d, q, y)
    ensures x == y
  {
  }

  lemma {:induction false} FirstWholeLater(v: Volume, d: Sectors, q: nat, r: nat, x: Option<nat>)
    requires v.Legal() && Shaped(v, d) && !v.Dos25() && 10 <= q <= r <= VtocBytes(v)
    requires NoneWhole(v, d, q, r) && FirstWhole(v, d, q, x)
    ensures FirstWhole(v, d, r, x)
  {
  }

  lemma {:induction false} PassSector(v: Volume, d: Sectors, vtoc: nat, buf: seq<byte>, from: nat, b: nat)
    requires v.Legal() && Shaped(v, d) && !v.Dos25() && vtoc < v.NumVtoc() && from <= b <= v.seclen && (vtoc == 0 ==> from >= 10)
    requires buf == d[VTOC_SECTOR - vtoc - 1] && forall i :: from <= i < b ==> buf[i] != 255
    ensures 10 <= BytePosition(v, vtoc, from) <= BytePosition(v, vtoc, b) <= VtocBytes(v)
    ensures NoneWhole(v, d, BytePosition(v, vtoc, from), BytePosition(v, vtoc, b))
  {
    var q, r := BytePosition(v, vtoc, from), BytePosition(v, vtoc, b);
    LastPosition(v, vtoc);
    forall i | q <= i < r
      ensures VtocByte(v, d, i) != 255
    {
      BytePositionByte(v, d, vtoc, from + (i - q));
    }
  }

  /** The search for a whole byte of ones in one VTOC sector. */
  method FindInSector(v: Volume, ghost d: Sectors, ghost vtoc: nat, buf: seq<byte>, from: nat) returns (b: nat)
    requires v.Legal() && Shaped(v, d) && !v.Dos25() && vtoc < v.NumVtoc() && from <= v.seclen && (vtoc == 0 ==> from >= 10)
    requires buf == d[VTOC_SECTOR - vtoc - 1]
    ensures from <= b <= v.seclen
    ensures forall i :: from <= i < b ==> buf[i] != 255
    ensures b < v.seclen ==> buf[b] == 255
  {
    b := from;
    while b < v.seclen && buf[b] != 255
      invariant from <= b <= v.seclen
      invariant forall i :: from <= i < b ==> buf[i] != 255
    {
      b := b + 1;
    }
  }

  lemma {:induction false} LastPosition(v: Volume, vtoc: nat)
    requires v.Legal() && !v.Dos25() && vtoc < v.NumVtoc()
    ensures BytePosition(v, vtoc, v.seclen) <= VtocBytes(v)
    ensures vtoc + 1 == v.NumVtoc() ==> BytePosition(v, vtoc, v.seclen) == VtocBytes(v)
    ensures BytePosition(v, vtoc, v.seclen) == BytePosition(v, vtoc + 1, 0)
  {
  }

  // ------------------------------------------------------------------
  // DOS 2.5: two bitmaps
  // ------------------------------------------------------------------

  /** The disk with both buffers written back. */
  function Overlay2(d: Sectors, buf: seq<byte>, buf2: seq<byte>): Sectors
    requires |d| >= VTOC2_SECTOR
  {
    d[VTOC_SECTOR - 1 := buf][VTOC2_SECTOR - 1 := buf2]
  }

  lemma {:induction false} NothingOverlaid(d: Sectors)
    requires |d| >= VTOC2_SECTOR
    ensures Overlay2(d, d[VTOC_SECTOR - 1], d[VTOC2_SECTOR - 1]) == d
  {
  }

  ghost predicate At2(t: seq<Search>, d: Sectors, buf: seq<byte>, buf2: seq<byte>, n: nat, num: nat, secnums: seq<nat>) {
    |d| >= VTOC2_SECTOR && n < |t| && t[n] == Search(Overlay2(d, buf, buf2), secnums, num)
  }

  predicate AreBuffers(v: Volume, d: Sectors, buf: seq<byte>, buf2: seq<byte>) {
    v.Legal() && v.Dos25() && Shaped(v, d) && |buf| == 128 && |buf2| == 128
  }

  /** Marking a sector below 720 used, in the buffers. */
  function ClearLow(buf2: seq<byte>, n: nat): (r: seq<byte>)
    requires |buf2| == 128 && n < 720
    ensures |r| == 128
  {
    if n < 48 then buf2 else buf2[n / 8 - 6 := PutByteBit(buf2[n / 8 - 6], n % 8, false)]
  }

  lemma {:induction false} LowBit(
      v: Volume, t: seq<Search>, d: Sectors, buf: seq<byte>, buf2: seq<byte>, n: nat, num: nat, secnums: seq<nat>)
    requires Trace(v, t) && At2(t, d, buf, buf2, n, num, secnums) && AreBuffers(v, d, buf, buf2) && n < 720
    ensures var b, s := n / 8 + 10, n % 8;
      if num > 0 && TestBit(buf[b], s)
      then At2(t, d, buf[b := PutByteBit(buf[b], s, false)], ClearLow(buf2, n), n + 1, num - 1, secnums + [n])
      else At2(t, d, buf, buf2, n + 1, num, secnums)
  {
    assert StepOk(v, t, n);
    var b, s := n / 8 + 10, n % 8;
    assert MainPlace(v, n) == Place(VTOC_SECTOR, b, s);
    if num > 0 && TestBit(buf[b], s) {
      assert SetMark(v, t[n].disk, n, false) == Overlay2(d, buf[b := PutByteBit(buf[b], s, false)], ClearLow(buf2, n));
    }
  }

  lemma {:induction false} HighBit(
      v: Volume, t: seq<Search>, d: Sectors, buf: seq<byte>, buf2: seq<byte>, n: nat, num: nat, secnums: seq<nat>)
    requires Trace(v, t) && At2(t, d, buf, buf2, n, num, secnums) && AreBuffers(v, d, buf, buf2) && 720 <= n < 1024
    ensures var b, s := n / 8 - 6, n % 8;
      if num > 0 && TestBit(buf2[b], s)
      then At2(t, d, buf, buf2[b := PutByteBit(buf2[b], s, false)], n + 1, num - 1, secnums + [n])
      else At2(t, d, buf, buf2, n + 1, num, secnums)
  {
    assert StepOk(v, t, n);
    var b, s := n / 8 - 6, n % 8;
    if num > 0 && TestBit(buf2[b], s) {
      assert SetMark(v, t[n].disk, n, false) == Overlay2(d, buf, buf2[b := PutByteBit(buf2[b], s, false)]);
    }
  }

  /** How many of the numbers are below 720 when one more comes. */
  lemma {:induction false} CountOneMore(secnums: seq<nat>, n: nat)
    ensures CountBelow720(secnums + [n]) == CountBelow720(secnums) + if n < 720 then 1 else 0
  {
    assert (secnums + [n])[..|secnums|] == secnums;
  }

  /** The loop over the bits of one byte of the first VTOC. */
  method TakeLowByte(
      ghost v: Volume, ghost t: seq<Search>, ghost d: Sectors,
      buf: seq<byte>, buf2: seq<byte>, b: nat, num: nat, secnums: seq<nat>)
    returns (bufR: seq<byte>, buf2R: seq<byte>, numR: nat, secnumsR: seq<nat>)
    requires Trace(v, t) && AreBuffers(v, d, buf, buf2) && 10 <= b < 100
    requires At2(t, d, buf, buf2, 8 * (b - 10), num, secnums) && CountBelow720(secnums) == |secnums|
    ensures At2(t, d, bufR, buf2R, 8 * (b - 10) + 8, numR, secnumsR) && AreBuffers(v, d, bufR, buf2R)
    ensures CountBelow720(secnumsR) == |secnumsR|
  {
    bufR, buf2R, numR, secnumsR := buf, buf2, num, secnums;
    var s := 0;
    while numR > 0 && s < 8
      invariant 0 <= s <= 8 && AreBuffers(v, d, bufR, buf2R) && CountBelow720(secnumsR) == |secnumsR|
      invariant At2(t, d, bufR, buf2R, 8 * (b - 10) + s, numR, secnumsR)
      decreases 8 - s
    {
      bufR, buf2R, numR, secnumsR := TakeLowBit(v, t, d, bufR, buf2R, b, s, numR, secnumsR);
      s := s + 1;
    }
    Idle2(v, t, 8 * (b - 10) + s, 8 * (b - 10) + 8);
  }

  method TakeLowBit(
      ghost v: Volume, ghost t: seq<Search>, ghost d: Sectors,
      buf: seq<byte>, buf2: seq<byte>, b: nat, s: nat, num: nat, secnums: seq<nat>)
    returns (bufR: seq<byte>, buf2R: seq<byte>, numR: nat, secnumsR: seq<nat>)
    requires Trace(v, t) && AreBuffers(v, d, buf, buf2) && 10 <= b < 100 && s < 8 && num > 0
    requires At2(t, d, buf, buf2, 8 * (b - 10) + s, num, secnums) && CountBelow720(secnums) == |secnums|
    ensures At2(t, d, bufR, buf2R, 8 * (b - 10) + s + 1, numR, secnumsR) && AreBuffers(v, d, bufR, buf2R)
    ensures CountBelow720(secnumsR) == |secnumsR|
  {
    bufR, buf2R, numR, secnumsR := buf, buf2, num, secnums;
    var n := 8 * (b - 10) + s;
    assert n / 8 == b - 10 && n % 8 == s;
    LowBit(v, t, d, buf, buf2, n, num, secnums);
    if TestBit(buf[b], s) {
      bufR := buf[b := PutByteBit(buf[b], s, false)];
      if b >= 16 {
        buf2R := buf2[b - 16 := PutByteBit(buf2[b - 16], s, false)];
      }
      CountOneMore(secnums, n);
      numR, secnumsR := num - 1, secnums + [n];
    }
  }

  /** The loop over the bits of one byte of the second VTOC. */
  method TakeHighByte(
      ghost v: Volume, ghost t: seq<Search>, ghost d: Sectors, ghost low: nat,
      ghost buf: seq<byte>, buf2: seq<byte>, b: nat, num: nat, secnums: seq<nat>)
    returns (buf2R: seq<byte>, numR: nat, secnumsR: seq<nat>)
    requires Trace(v, t) && AreBuffers(v, d, buf, buf2) && 84 <= b < 122
    requires At2(t, d, buf, buf2, 8 * (b + 6), num, secnums) && CountBelow720(secnums) == low
    ensures At2(t, d, buf, buf2R, 8 * (b + 6) + 8, numR, secnumsR) && AreBuffers(v, d, buf, buf2R)
    ensures CountBelow720(secnumsR) == low
  {
    buf2R, numR, secnumsR := buf2, num, secnums;
    var s := 0;
    while numR > 0 && s < 8
      invariant 0 <= s <= 8 && AreBuffers(v, d, buf, buf2R) && CountBelow720(secnumsR) == low
      invariant At2(t, d, buf, buf2R, 8 * (b + 6) + s, numR, secnumsR)
      decreases 8 - s
    {
      buf2R, numR, secnumsR := TakeHighBit(v, t, d, low, buf, buf2R, b, s, numR, secnumsR);
      s := s + 1;
    }
    Idle2(v, t, 8 * (b + 6) + s, 8 * (b + 6) + 8);
  }

  method TakeHighBit(
      ghost v: Volume, ghost t: seq<Search>, ghost d: Sectors, ghost low: nat,
      ghost buf: seq<byte>, buf2: seq<byte>, b: nat, s: nat, num: nat, secnums: seq<nat>)
    returns (buf2R: seq<byte>, numR: nat, secnumsR: seq<nat>)
    requires Trace(v, t) && AreBuffers(v, d, buf, buf2) && 84 <= b < 122 && s < 8 && num > 0
    requires At2(t, d, buf, buf2, 8 * (b + 6) + s, num, secnums) && CountBelow720(secnums) == low
    ensures At2(t, d, buf, buf2R, 8 * (b + 6) + s + 1, numR, secnumsR) && AreBuffers(v, d, buf, buf2R)
    ensures CountBelow720(secnumsR) == low
  {
    buf2R, numR, secnumsR := buf2, num, secnums;
    var n := 8 * (b + 6) + s;
    assert n / 8 == b + 6 && n % 8 == s;
    HighBit(v, t, d, buf, buf2, n, num, secnums);
    if TestBit(buf2[b], s) {
      buf2R := buf2[b := PutByteBit(buf2[b], s, false)];
      CountOneMore(secnums, n);
      numR, secnumsR := num - 1, secnums + [n];
    }
  }

  lemma {:induction false} ZeroLowByte(
      v: Volume, t: seq<Search>, d: Sectors, buf: seq<byte>, buf2: seq<byte>, b: nat, s: nat, num: nat, secnums: seq<nat>)
    requires Trace(v, t) && AreBuffers(v, d, buf, buf2) && 10 <= b < 100 && s <= 8 && buf[b] == 0
    requires At2(t, d, buf, buf2, 8 * (b - 10), num, secnums)
    ensures At2(t, d, buf, buf2, 8 * (b - 10) + s, num, secnums)
    decreases s
  {
    if s > 0 {
      ZeroLowByte(v, t, d, buf, buf2, b, s - 1, num, secnums);
      var n := 8 * (b - 10) + (s - 1);
      assert n / 8 == b - 10 && n % 8 == s - 1;
      LowBit(v, t, d, buf, buf2, n, num, secnums);
      ZeroHasNoBits(s - 1);
    }
  }

  lemma {:induction false} ZeroHighByte(
      v: Volume, t: seq<Search>, d: Sectors, buf: seq<byte>, buf2: seq<byte>, b: nat, s: nat, num: nat, secnums: seq<nat>)
    requires Trace(v, t) && AreBuffers(v, d, buf, buf2) && 84 <= b < 122 && s <= 8 && buf2[b] == 0
    requires At2(t, d, buf, buf2, 8 * (b + 6), num, secnums)
    ensures At2(t, d, buf, buf2, 8 * (b + 6) + s, num, secnums)
    decreases s
  {
    if s > 0 {
      ZeroHighByte(v, t, d, buf, buf2, b, s - 1, num, secnums);
      var n := 8 * (b + 6) + (s - 1);
      assert n / 8 == b + 6 && n % 8 == s - 1;
      HighBit(v, t, d, buf, buf2, n, num, secnums);
      ZeroHasNoBits(s - 1);
    }
  }

  /** Both loops over the bytes of a DOS 2.5 disk. */
  method TakeFromBoth(
      ghost v: Volume, ghost t: seq<Search>, ghost d: Sectors, buf: seq<byte>, buf2: seq<byte>, num: nat)
    returns (bufR: seq<byte>, buf2R: seq<byte>, numR: nat, secnums: seq<nat>, below720: nat)
    requires Trace(v, t) && AreBuffers(v, d, buf, buf2) && At2(t, d, buf, buf2, 0, num, [])
    ensures At2(t, d, bufR, buf2R, 1024, numR, secnums) && AreBuffers(v, d, bufR, buf2R)
    ensures below720 == CountBelow720(secnums)
  {
    bufR, buf2R, numR, secnums := buf, buf2, num, [];
    var b := 10;
    while numR > 0 && b < 100
      invariant 10 <= b <= 100 && AreBuffers(v, d, bufR, buf2R) && CountBelow720(secnums) == |secnums|
      invariant At2(t, d, bufR, buf2R, 8 * (b - 10), numR, secnums)
      decreases 100 - b
    {
      if bufR[b] != 0 {
        bufR, buf2R, numR, secnums := TakeLowByte(v, t, d, bufR, buf2R, b, numR, secnums);
      } else {
        ZeroLowByte(v, t, d, bufR, buf2R, b, 8, numR, secnums);
      }
      b := b + 1;
    }
    Idle2(v, t, 8 * (b - 10), 720);
    below720 := |secnums|;
    b := 84;
    while numR > 0 && b < 122
      invariant 84 <= b <= 122 && AreBuffers(v, d, bufR, buf2R) && CountBelow720(secnums) == below720
      invariant At2(t, d, bufR, buf2R, 8 * (b + 6), numR, secnums)
      decreases 122 - b
    {
      if buf2R[b] != 0 {
        buf2R, numR, secnums := TakeHighByte(v, t, d, below720, bufR, buf2R, b, numR, secnums);
      } else {
        ZeroHighByte(v, t, d, bufR, buf2R, b, 8, numR, secnums);
      }
      b := b + 1;
    }
    Idle2(v, t, 8 * (b + 6), 1024);
  }
}
