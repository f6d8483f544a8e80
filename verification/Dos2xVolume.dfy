/**
 The volume table of contents of DOS 2.x, DOS 2.5 and MyDOS disks: which bit of
 which sector says whether a sector is free, and where the free counts are.
 */
module Dos2xVolume {
  import opened Bytes
  import opened AtrImage

  const VTOC_SECTOR := 360
  const VTOC2_SECTOR := 1024
  const DIR_SECTOR := 361

  datatype DosFormat = UnknownDos | Dos2x | MyDos

  // ------------------------------------------------------------------
  // Bits
  // ------------------------------------------------------------------

  /** `b & (128 >> s)`: bit 0 is the highest; seven halvings bring it to the lowest place. */
  predicate TestBit(b: nat, s: nat)
    requires s < 8
    decreases 8 - s
  {
    if s == 7 then b % 2 == 1 else TestBit(b / 2, s + 1)
  }

  /** `b |= 128 >> s` or `b &= ~(128 >> s)`. */
  function PutBit(b: nat, s: nat, on: bool): nat
    requires s < 8
    decreases 8 - s
  {
    if s == 7 then b / 2 * 2 + (if on then 1 else 0) else 2 * PutBit(b / 2, s + 1, on) + b % 2
  }

  function PutByteBit(b: byte, s: nat, on: bool): byte
    requires s < 8
  {
    EightBits();
    PutBitRange(b, s, on, 8);
    PutBit(b, s, on)
  }

  function Pow2(n: nat): (p: nat)
    ensures p > 0
  {
    if n == 0 then 1 else 2 * Pow2(n - 1)
  }

  lemma {:induction false} PutBitRange(b: nat, s: nat, on: bool, n: nat)
    requires s < 8 && 7 - s < n && b < Pow2(n)
    ensures PutBit(b, s, on) < Pow2(n)
    decreases 8 - s
  {
    HalfBelow(b, Pow2(n - 1));
    if s < 7 {
      PutBitRange(b / 2, s + 1, on, n - 1);
    }
  }

  lemma {:induction false} HalfBelow(b: nat, q: nat)
    requires b < 2 * q
    ensures b / 2 < q && b / 2 * 2 + 1 < 2 * q && b % 2 < 2
  {
  }

  lemma {:induction false} EightBits()
    ensures Pow2(8) == 256
  {
  }

  lemma {:induction false} PutBitHalves(b: nat, s: nat, on: bool)
    requires s < 8
    ensures PutBit(b, s, on) / 2 == if s == 7 then b / 2 else PutBit(b / 2, s + 1, on)
    ensures PutBit(b, s, on) % 2 == if s < 7 then b % 2 else if on then 1 else 0
  {
  }

  /** Putting one bit leaves the others alone. */
  lemma {:induction false} PutBitBits(b: nat, s: nat, on: bool, t: nat)
    requires s < 8 && t < 8
    ensures TestBit(PutBit(b, s, on), t) == if t == s then on else TestBit(b, t)
    decreases 8 - s
  {
    PutBitHalves(b, s, on);
    if s < 7 && t < 7 {
      PutBitBits(b / 2, s + 1, on, t + 1);
    }
  }

  lemma {:induction false} ZeroHasNoBits(s: nat)
    requires s < 8
    ensures !TestBit(0, s)
    decreases 8 - s
  {
    if s < 7 {
      ZeroHasNoBits(s + 1);
    }
  }

  /** Numbers below `2^(8-s)` whose bits agree from `s` on are equal. */
  lemma {:induction false} BitsDetermine(a: nat, b: nat, s: nat)
    requires s < 8 && a < Pow2(8 - s) && b < Pow2(8 - s)
    requires forall t :: s <= t < 8 ==> TestBit(a, t) == TestBit(b, t)
    ensures a == b
    decreases 8 - s
  {
    if s == 7 {
      assert TestBit(a, 7) == TestBit(b, 7);
      assert Pow2(1) == 2;
    } else {
      assert TestBit(a, 7) == TestBit(b, 7);
      forall t | s + 1 <= t < 8
        ensures TestBit(a / 2, t) == TestBit(b / 2, t)
      {
        assert TestBit(a, t - 1) == TestBit(b, t - 1);
      }
      BitsDetermine(a / 2, b / 2, s + 1);
    }
  }

  lemma {:induction false} OnesHaveBits(n: nat, t: nat)
    requires t < 8 && 7 - t < n
    ensures TestBit(Pow2(n) - 1, t)
    decreases 8 - t
  {
    OddHalf(Pow2(n - 1));
    if t < 7 {
      OnesHaveBits(n - 1, t + 1);
    }
  }

  lemma {:induction false} OddHalf(q: nat)
    requires q > 0
    ensures (2 * q - 1) / 2 == q - 1 && (2 * q - 1) % 2 == 1
  {
  }

  predicate AllSet(b: nat) {
    forall t :: 0 <= t < 8 ==> TestBit(b, t)
  }

  lemma {:induction false} OnesSet(n: nat)
    requires n == 8
    ensures AllSet(Pow2(n) - 1)
  {
    var ones := Pow2(n) - 1;
    forall t | 0 <= t < 8
      ensures TestBit(ones, t)
    {
      OnesHaveBits(n, t);
    }
  }

  /** A byte is 255 when all its bits are set. */
  lemma {:induction false} AllOnes(b: byte, n: nat)
    requires n == 8
    ensures b == Pow2(n) - 1 <==> AllSet(b)
    ensures Pow2(n) == 256
  {
    OnesSet(n);
    assert Pow2(8) == 256;
    if AllSet(b) {
      BitsDetermine(b, Pow2(n) - 1, 0);
    }
  }

  // ------------------------------------------------------------------
  // The volume
  // ------------------------------------------------------------------

  /** `GetNumVTOC`, and the same computation in `InitVTOC`: MyDOS takes its VTOC sectors in pairs on 128-byte disks. */
  function NumVtocFor(sectors: nat, seclen: nat): (v: nat)
    requires seclen in {128, 256}
    ensures v >= 1
  {
    var v := 1 + if seclen == 128 then (sectors + 80) / 1024 else (sectors + 80) / 2048;
    if seclen == 128 && v > 1 && v % 2 == 1 then v + 1 else v
  }

  /** A disk with a DOS format; everything else `SetDosFormat` and `InitVTOC` decide follows from these three. */
  datatype Volume = Volume(dos: DosFormat, seclen: nat, numsec: nat)
  {
    /** What `InitVTOC` accepts; images have at most 65535 sectors. */
    predicate Legal() {
      !dos.UnknownDos? && seclen in {128, 256} && 720 <= numsec <= 65535
    }

    /** DOS 2.5 enhanced density. */
    predicate Dos25() {
      dos.Dos2x? && seclen == 128 && numsec == 1040
    }

    function NumVtoc(): (v: nat)
      requires seclen in {128, 256}
      ensures v >= 1
    {
      if dos.MyDos? then NumVtocFor(numsec, seclen) else 1
    }

    /** Whether files are linked by 16-bit sector numbers. */
    predicate Link16()
      requires seclen in {128, 256}
    {
      dos.MyDos? && if seclen == 128 then NumVtoc() > 1 else numsec >= 1024
    }

    /** The last sector `InitVTOC` hands out. */
    function LastSector(): nat {
      if Dos25() then 1023 else if dos.Dos2x? then 719 else numsec
    }

    /** The sectors files and directories may occupy. */
    predicate Allocatable(n: nat)
      requires seclen in {128, 256}
    {
      || 4 <= n <= VTOC_SECTOR - NumVtoc()
      || (DIR_SECTOR + 8 <= n <= LastSector() && !(Dos25() && n == 720))
    }

    /** The number of sectors the VTOC has bits for. */
    function Capacity(): nat
      requires seclen in {128, 256}
    {
      if Dos25() then 1024 else if seclen == 128 then NumVtoc() * 1024 - 80 else NumVtoc() * 2048 - 80
    }
  }

  lemma {:induction false} VtocBounds(v: Volume)
    requires v.Legal()
    ensures v.NumVtoc() <= 66 && v.LastSector() < v.Capacity()
    ensures !v.Dos25() ==> 944 <= v.Capacity()
    ensures !v.Link16() ==> v.LastSector() <= 1023
  {
  }

  /** Every sector has its length; in double density the boot sectors are short. */
  predicate Shaped(v: Volume, d: Sectors) {
    |d| == v.numsec && forall i :: 0 <= i < |d| ==> |d[i]| == if v.seclen == 256 && i < 3 then 128 else v.seclen
  }

  /** Where the bit of a sector is. */
  datatype Place = Place(sector: nat, at: nat, bit: nat)

  predicate HasPlace(v: Volume, p: Place) {
    3 < p.sector <= v.numsec && p.at < v.seclen && p.bit < 8
  }

  /** The VTOC proper: byte 10 of sector 360 on, continued in the sectors below it. */
  function MainPlace(v: Volume, n: nat): (p: Place)
    requires v.Legal() && n < v.Capacity() && (v.Dos25() ==> n < 720)
    ensures HasPlace(v, p) && VTOC_SECTOR - v.NumVtoc() < p.sector <= VTOC_SECTOR
    ensures p.sector == VTOC_SECTOR ==> p.at >= 10
  {
    var q := n / 8 + 10;
    VtocBounds(v);
    if v.seclen == 128 then Place(VTOC_SECTOR - q / 128, q % 128, n % 8)
    else Place(VTOC_SECTOR - q / 256, q % 256, n % 8)
  }

  /** The second VTOC of DOS 2.5, with a copy of the bits from sector 48 on. */
  function SecondPlace(n: nat): (p: Place)
    requires 48 <= n < 1024
    ensures p.at < 122 && p.bit < 8
  {
    Place(VTOC2_SECTOR, n / 8 - 6, n % 8)
  }

  /** The bit that counts: the second VTOC is authoritative from sector 720 on. */
  function PlaceOf(v: Volume, n: nat): (p: Place)
    requires v.Legal() && n < v.Capacity()
    ensures HasPlace(v, p)
  {
    if v.Dos25() && n >= 720 then SecondPlace(n) else MainPlace(v, n)
  }

  /** Different sectors have different bits. */
  lemma {:induction false} PlacesDiffer(v: Volume, m: nat, n: nat)
    requires v.Legal() && m < v.Capacity() && n < v.Capacity() && m != n
    ensures PlaceOf(v, m) != PlaceOf(v, n)
    ensures v.Dos25() && 48 <= n ==> PlaceOf(v, m) != SecondPlace(n)
  {
  }

  function BitAt(v: Volume, d: Sectors, p: Place): bool
    requires Shaped(v, d) && HasPlace(v, p)
  {
    TestBit(d[p.sector - 1][p.at], p.bit)
  }

  function PutBitAt(v: Volume, d: Sectors, p: Place, on: bool): (r: Sectors)
    requires Shaped(v, d) && HasPlace(v, p)
    ensures Shaped(v, r)
    ensures forall i :: 0 <= i < |d| && i != p.sector - 1 ==> r[i] == d[i]
  {
    var s: seq<byte> := d[p.sector - 1];
    d[p.sector - 1 := s[p.at := PutByteBit(s[p.at], p.bit, on)]]
  }

  lemma {:induction false} PutBitAtBits(v: Volume, d: Sectors, p: Place, on: bool, q: Place)
    requires Shaped(v, d) && HasPlace(v, p) && HasPlace(v, q)
    ensures BitAt(v, PutBitAt(v, d, p, on), q) == if q == p then on else BitAt(v, d, q)
  {
    if q.sector == p.sector && q.at == p.at {
      PutBitBits(d[p.sector - 1][p.at], p.bit, on, q.bit);
    }
  }

  predicate IsFree(v: Volume, d: Sectors, n: nat)
    requires v.Legal() && Shaped(v, d) && n < v.Capacity()
  {
    BitAt(v, d, PlaceOf(v, n))
  }

  /** Marks a sector free or used; DOS 2.5 keeps its copy in step. */
  function SetMark(v: Volume, d: Sectors, n: nat, free: bool): (r: Sectors)
    requires v.Legal() && Shaped(v, d) && n < v.Capacity()
    ensures Shaped(v, r)
  {
    var r := PutBitAt(v, d, PlaceOf(v, n), free);
    if v.Dos25() && 48 <= n < 720 then PutBitAt(v, r, SecondPlace(n), free) else r
  }

  /** Marking one sector changes whether that sector is free, and nothing else. */
  lemma {:induction false} SetMarkMarks(v: Volume, d: Sectors, n: nat, free: bool, m: nat)
    requires v.Legal() && Shaped(v, d) && n < v.Capacity() && m < v.Capacity()
    ensures IsFree(v, SetMark(v, d, n, free), m) == if m == n then free else IsFree(v, d, m)
  {
    var r := PutBitAt(v, d, PlaceOf(v, n), free);
    PutBitAtBits(v, d, PlaceOf(v, n), free, PlaceOf(v, m));
    if m != n {
      PlacesDiffer(v, m, n);
    }
    if v.Dos25() && 48 <= n < 720 {
      PutBitAtBits(v, r, SecondPlace(n), free, PlaceOf(v, m));
    }
  }
}
