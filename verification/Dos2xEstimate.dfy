/** `EstimateDiskSize`: how large a disk has to be for given contents. */
module Dos2xEstimate {
  import opened Bytes
  import opened AtrImage
  import opened Dos2xVolume
  import opened Dos2xInit
  import opened Dos2xAlloc

  // ------------------------------------------------------------------
  // The arithmetic
  // ------------------------------------------------------------------

  /** The number of VTOC sectors, computed in two rounds. */
  function EstimatedVtoc(seclen: nat, n: nat): nat
    requires seclen in {128, 256}
  {
    NumVtocFor(n + NumVtocFor(n, seclen), seclen)
  }

  /** The size before it is cut off: `n |= 7`, and at least 720. */
  function UnlimitedSize(seclen: nat, contents: nat): nat
    requires seclen in {128, 256}
  {
    var n := contents + 8 + 3;
    var n2 := n + EstimatedVtoc(seclen, n);
    var n3 := n2 - n2 % 8 + 7;
    if n3 < 720 then 720 else n3
  }

  /** `EstimateDiskSize` for the sectors of the boot file and of all files and subdirectories. */
  function EstimateDiskSize(seclen: nat, contents: nat): (n: nat)
    requires seclen in {128, 256}
    ensures 720 <= n <= 65535
  {
    var n := UnlimitedSize(seclen, contents);
    if n > 65535 then 65535 else n
  }

  /**
   Two rounds are enough: the size the VTOC sectors are finally reserved for needs
   exactly as many of them.
   */
  lemma {:induction false} TwoRoundsAreStable(seclen: nat, contents: nat)
    requires seclen in {128, 256}
    ensures NumVtocFor(UnlimitedSize(seclen, contents), seclen) == EstimatedVtoc(seclen, contents + 11)
         || (UnlimitedSize(seclen, contents) > 65535)
  {
    var n := contents + 11;
    if UnlimitedSize(seclen, contents) <= 65535 {
      if seclen == 128 {
        StableSD(n);
      } else {
        StableDD(n);
      }
    }
  }

  lemma {:induction false} EighthsDecide(m: nat, r: nat)
    requires r < 8
    ensures (8 * m + r) / 1024 == m / 128
    ensures (8 * m + r) / 2048 == m / 256
  {
    var k, j := m / 128, m % 128;
    assert 8 * m + r == 1024 * k + (8 * j + r);
    var k2, j2 := m / 256, m % 256;
    assert 8 * m + r == 2048 * k2 + (8 * j2 + r);
  }

  /** Rounding up to the next `8k + 7` does not reach the next VTOC sector. */
  lemma {:induction false} RoundingStays(n: nat)
    ensures (n - n % 8 + 7 + 80) / 1024 == (n + 80) / 1024
    ensures (n - n % 8 + 7 + 80) / 2048 == (n + 80) / 2048
  {
    EighthsDecide(n / 8 + 10, 7);
    EighthsDecide(n / 8 + 10, n % 8);
  }

  lemma {:induction false} StableSD(n: nat)
    requires n <= 65535
    ensures var a := EstimatedVtoc(128, n);
      var n3 := (n + a) - (n + a) % 8 + 7;
      NumVtocFor(if n3 < 720 then 720 else n3, 128) == a
  {
    var a := EstimatedVtoc(128, n);
    RoundingStays(n + a);
    FixedSD(n, NumVtocFor(n, 128), a);
    RoundedSD(n + a, (n + a) - (n + a) % 8 + 7);
  }

  lemma {:induction false} FixedSD(n: nat, g: nat, a: nat)
    requires n <= 65535 && g == NumVtocFor(n, 128) && a == NumVtocFor(n + g, 128)
    ensures NumVtocFor(n + a, 128) == a
  {
    assert g <= 66;
    assert a <= g + 2;
  }

  lemma {:induction false} RoundedSD(n: nat, n3: nat)
    requires n <= n3 && (n3 + 80) / 1024 == (n + 80) / 1024
    ensures NumVtocFor(if n3 < 720 then 720 else n3, 128) == NumVtocFor(n, 128)
  {
  }

  lemma {:induction false} StableDD(n: nat)
    requires n <= 65535
    ensures var a := EstimatedVtoc(256, n);
      var n3 := (n + a) - (n + a) % 8 + 7;
      NumVtocFor(if n3 < 720 then 720 else n3, 256) == a
  {
    var g := NumVtocFor(n, 256);
    var a := EstimatedVtoc(256, n);
    RoundingStays(n + a);
    assert g <= 34;
    assert a <= g + 1;
  }

  /** The MyDOS disk of the estimated size. */
  function EstimatedVolume(seclen: nat, contents: nat): (v: Volume)
    requires seclen in {128, 256}
    ensures v.Legal()
  {
    Volume(MyDos, seclen, EstimateDiskSize(seclen, contents))
  }

  /**
   `InitVTOC` leaves as many sectors free as the estimate counted for contents
   exactly if the size did not have to be cut off at 65535.
   */
  lemma {:induction false} RoomForContents(seclen: nat, contents: nat)
    requires seclen in {128, 256}
    ensures contents <= FreeTotal(EstimatedVolume(seclen, contents)) <==> UnlimitedSize(seclen, contents) <= 65535
    ensures UnlimitedSize(seclen, contents) <= 65535 ==>
      EstimatedVolume(seclen, contents).NumVtoc() == EstimatedVtoc(seclen, contents + 11)
  {
    TwoRoundsAreStable(seclen, contents);
    if UnlimitedSize(seclen, contents) > 65535 {
      CutOff(seclen, contents);
    }
  }

  lemma {:induction false} CutOff(seclen: nat, contents: nat)
    requires seclen in {128, 256} && UnlimitedSize(seclen, contents) > 65535
    ensures contents > FreeTotal(Volume(MyDos, seclen, 65535))
  {
    assert NumVtocFor(65535, 128) == 66 && NumVtocFor(65535, 256) == 33;
  }

  /**
   Rounding up does more: one octet begins right behind the last sector, except
   on the smallest disk, which has one sector over and above what was counted.
   */
  lemma {:induction false} RoomToSpare(seclen: nat, contents: nat)
    requires seclen in {128, 256} && UnlimitedSize(seclen, contents) <= 65535
    ensures var v := EstimatedVolume(seclen, contents); contents + (v.numsec + 1) % 8 <= FreeTotal(v)
  {
    RoomForContents(seclen, contents);
  }

  /** And not much is wasted: beyond the smallest disk, at most seven sectors are free in addition to those counted. */
  lemma {:induction false} JustEnough(seclen: nat, contents: nat)
    requires seclen in {128, 256} && 720 < EstimateDiskSize(seclen, contents) < 65535
    ensures var v := EstimatedVolume(seclen, contents); v.numsec % 8 == 7 && contents <= FreeTotal(v) <= contents + 7
  {
    RoomForContents(seclen, contents);
    RoundedUp(contents + 11 + EstimatedVtoc(seclen, contents + 11));
    assert EstimateDiskSize(seclen, contents) == UnlimitedSize(seclen, contents);
  }

  lemma {:induction false} RoundedUp(n: nat)
    ensures (n - n % 8 + 7) % 8 == 7 && n <= n - n % 8 + 7 <= n + 7
  {
  }
}
