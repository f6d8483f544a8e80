/** What a DCM file is made of, byte by byte: numbered passes, of which the last one is marked. */
module DcmPasses {
  import opened Bytes
  import opened AtrImage
  import opened DcmRecords
  import opened DcmArchive
  import opened DcmRoundTrip

  function Concat(ps: seq<seq<byte>>): seq<byte> {
    if ps == [] then [] else ps[0] + Concat(ps[1..])
  }

  /** The two bits for the density in the header of a pass. */
  function DensityBits(format: DiskFormat): nat {
    match format
    case Disk180k => 1
    case Disk130k => 2
    case _ => 0
  }

  /**
   A pass: five bits of the second byte are its number, two the density, and the
   highest one marks the last pass; it ends with a mark.  All passes but the last
   are filled as far as they go.
   */
  predicate IsPass(p: seq<byte>, number: nat, last: bool, density: nat) {
    && 5 <= |p| <= 0x6000 && p[0] == 0xFA && p[|p| - 1] == 0x45
    && p[1] % 32 == number % 32 && p[1] / 32 % 4 == density && (p[1] >= 128 <==> last)
    && (!last ==> |p| >= 0x5EFE)
    && (|p| == 5 ==> p[2] == 0 && p[3] == 0)
  }

  predicate ArePasses(ps: seq<seq<byte>>, number: nat, density: nat) {
    |ps| > 0 && forall i :: 0 <= i < |ps| ==> IsPass(ps[i], number + i, i == |ps| - 1, density)
  }

  /** A file of passes that are numbered from 1 on. */
  ghost predicate IsArchive(file: seq<byte>, density: nat) {
    exists ps :: file == Concat(ps) && ArePasses(ps, 1, density)
  }

  lemma {:induction false} HeaderBits(last: bool, pass: nat, density: nat, t: byte)
    requires density < 3 && t as nat == (if last then 128 else 0) + 32 * density + pass % 32
    ensures t % 32 == pass % 32 && t / 32 % 4 == density && (t >= 128 <==> last)
  {
  }

  lemma {:induction false} OnePass(k: Codec, c: Config, img: Sectors, st: PassState, pass: nat)
    requires Fresh(k, c, img, st)
    ensures var n := FillPass(k, c, img, st); var last := n.sector > c.numberOfSectors;
      IsPass(PassBytes(last, pass, Density(c), n.items), pass, last, DensityBits(c.format))
  {
    var n := FillPass(k, c, img, st);
    PassLength(k, c, img, st, n.sector > c.numberOfSectors, pass);
    ItemsArePass(n.sector > c.numberOfSectors, pass, Density(c), n.items);
  }

  lemma {:induction false} ItemsArePass(last: bool, pass: nat, density: nat, items: Items)
    requires density < 3 && (!last ==> PassFull(items)) && |PassBytes(last, pass, density, items)| <= 0x6000
    ensures IsPass(PassBytes(last, pass, density, items), pass, last, density)
  {
    HeaderBits(last, pass, density, HeaderType(last, pass, density));
    PendingGrowth(items, Item(0, [0]));
    if items == [] {
      assert Word(0) == [0, 0];
    } else {
      assert |Pending(items)| > 0;
    }
  }

  lemma {:induction false} SinglePass(p: seq<byte>, number: nat, density: nat)
    requires IsPass(p, number, true, density)
    ensures Concat([p]) == p && ArePasses([p], number, density)
  {
    assert [p][1..] == [] && p + [] == p;
  }

  lemma {:induction false} OneMorePass(p: seq<byte>, more: seq<seq<byte>>, number: nat, density: nat)
    requires IsPass(p, number, false, density) && ArePasses(more, number + 1, density)
    ensures Concat([p] + more) == p + Concat(more) && ArePasses([p] + more, number, density)
  {
    var ps := [p] + more;
    assert ps[1..] == more;
    forall i | 0 <= i < |ps|
      ensures IsPass(ps[i], number + i, i == |ps| - 1, density)
    {
      assert i > 0 ==> IsPass(more[i - 1], number + 1 + (i - 1), i - 1 == |more| - 1, density);
    }
  }

  lemma {:induction false} PassesNumbered(k: Codec, c: Config, img: Sectors, sector: nat, prev: seq<byte>, pass: nat) returns (ps: seq<seq<byte>>)
    requires CanStep(k, c, img, PassState(sector, [], prev)) && sector <= c.numberOfSectors
    ensures EncodePasses(k, c, img, sector, prev, pass) == Concat(ps) && ArePasses(ps, pass, DensityBits(c.format))
    decreases c.numberOfSectors + 1 - sector
  {
    var n := FillPass(k, c, img, PassState(sector, [], prev));
    var p := PassBytes(n.sector > c.numberOfSectors, pass, Density(c), n.items);
    OnePass(k, c, img, PassState(sector, [], prev), pass);
    if n.sector > c.numberOfSectors {
      ps := [p];
      SinglePass(p, pass, DensityBits(c.format));
      assert p + [] == p;
    } else {
      var more := PassesNumbered(k, c, img, n.sector, n.prev, pass + 1);
      ps := [p] + more;
      OneMorePass(p, more, pass, DensityBits(c.format));
    }
  }

  lemma {:induction false} ArchiveStarts(file: seq<byte>, density: nat)
    requires IsArchive(file, density)
    ensures |file| >= 5 && file[0] == 0xFA && file[1] % 32 == 1
  {
    var ps :| file == Concat(ps) && ArePasses(ps, 1, density);
    assert IsPass(ps[0], 1, 0 == |ps| - 1, density);
    assert file[..|ps[0]|] == ps[0];
  }

  /** The file `Save` writes is an archive. */
  lemma {:induction false} EncodedIsArchive(c: Config, img: Sectors)
    requires IsDcmConfig(c) && WellSized(c, img)
    ensures IsArchive(EncodeFile(c, img), DensityBits(c.format))
  {
    DcmCodecSound(c.sectorLength);
    var ps := PassesNumbered(DcmCodec(c.sectorLength), c, img, 1, Zeros(c.sectorLength), 1);
  }

  /** A blank disk is a single pass without records. */
  lemma {:induction false} BlankFile(c: Config)
    requires IsDcmConfig(c)
    ensures WellSized(c, BlankSectors(c))
    ensures EncodeFile(c, BlankSectors(c)) == [0xFA, 0x81 + 32 * DensityBits(c.format), 0, 0, 0x45]
  {
    DcmCodecSound(c.sectorLength);
    BlankPasses(DcmCodec(c.sectorLength), c, BlankSectors(c), PassState(1, [], Zeros(c.sectorLength)));
  }

  lemma {:induction false} BlankPasses(k: Codec, c: Config, img: Sectors, st: PassState)
    requires Fresh(k, c, img, st) && st.sector <= c.numberOfSectors && img == BlankSectors(c)
    ensures EncodePasses(k, c, img, st.sector, st.prev, 1) == [0xFA, 0x81 + 32 * DensityBits(c.format), 0, 0, 0x45]
  {
    NothingToEncode(k, c, img, st);
    OneEmptyPass(k, c, img, st);
    BlankPass(Density(c));
    DensityTells(c);
  }

  lemma {:induction false} DensityTells(c: Config)
    requires IsDcmConfig(c)
    ensures Density(c) == DensityBits(c.format)
  {
  }

  lemma {:induction false} BlankPass(density: nat)
    requires density < 3
    ensures PassBytes(true, 1, density, []) == [0xFA, 0x81 + 32 * density, 0, 0, 0x45]
  {
  }

  lemma {:induction false} OneEmptyPass(k: Codec, c: Config, img: Sectors, st: PassState)
    requires Fresh(k, c, img, st) && st.sector <= c.numberOfSectors
    requires FillPass(k, c, img, st) == st.(sector := c.numberOfSectors + 1)
    ensures EncodePasses(k, c, img, st.sector, st.prev, 1) == PassBytes(true, 1, Density(c), [])
  {
    var p := PassBytes(true, 1, Density(c), []);
    assert EncodePasses(k, c, img, c.numberOfSectors + 1, st.prev, 2) == [];
    assert p + [] == p;
  }

  lemma {:induction false} NothingToEncode(k: Codec, c: Config, img: Sectors, st: PassState)
    requires CanStep(k, c, img, st) && st.items == [] && img == BlankSectors(c)
    ensures FillPass(k, c, img, st) == st.(sector := c.numberOfSectors + 1)
    decreases c.numberOfSectors + 1 - st.sector
  {
    if st.sector <= c.numberOfSectors {
      assert AllZero(img[st.sector - 1]);
      NothingToEncode(k, c, img, Step(k, c, img, st));
    }
  }

  // ------------------------------------------------------------------
  // The records of a pass
  // ------------------------------------------------------------------

  /** A sector in a buffer of the size of the others. */
  function Sector(c: Config, img: Sectors, s: nat): seq<byte>
    requires c.sectorLength in {128, 256} && WellSized(c, img) && 1 <= s <= |img|
  {
    Padded(img[s - 1], c.sectorLength)
  }

  predicate HasRecord(items: Items, s: nat) {
    exists i :: 0 <= i < |items| && items[i].sector == s
  }

  /** The sectors from `lo` to below `hi` that are not empty have a record each, in order. */
  ghost predicate AreRecorded(img: Sectors, items: Items, lo: nat, hi: nat)
    requires 1 <= lo <= hi <= |img| + 1
  {
    && (forall i :: 0 <= i < |items| ==> lo <= items[i].sector < hi && !AllZero(img[items[i].sector - 1]))
    && (forall s :: lo <= s < hi && !AllZero(img[s - 1]) ==> HasRecord(items, s))
    && (forall i, j :: 0 <= i < j < |items| ==> items[i].sector < items[j].sector)
  }

  /** The first record does without another sector; a repeated sector takes a single byte, and no other one does. */
  ghost predicate RepeatsMarked(c: Config, img: Sectors, items: Items)
    requires c.sectorLength in {128, 256} && WellSized(c, img)
    requires forall i :: 0 <= i < |items| ==> 1 <= items[i].sector <= |img|
  {
    && (items != [] ==> items[0].rec[0] == 0x43 || items[0].rec[0] == 0x47)
    && forall i :: 0 < i < |items| ==>
         (items[i].rec == [0x46] <==> Sector(c, img, items[i].sector) == Sector(c, img, items[i - 1].sector))
  }

  lemma {:induction false} RecordKind(first: bool, cur: seq<byte>, prev: seq<byte>)
    requires 1 < |cur| == |prev| <= BUFFER_SIZE
    ensures var r := RecordFor(first, cur, prev);
      && |r| > 0 && r[0] < 128 && (r == [0x46] <==> !first && prev == cur) && (first ==> r[0] == 0x43 || r[0] == 0x47)
  {
  }

  lemma {:induction false} OneMoreRecorded(img: Sectors, items: Items, x: Item, lo: nat, s: nat)
    requires 1 <= lo <= s <= |img| && AreRecorded(img, items, lo, s)
    requires x.sector == s && |x.rec| > 0 && x.rec[0] < 128 && !AllZero(img[s - 1])
    ensures AreRecorded(img, items + [x], lo, s + 1)
  {
    var more: Items := items + [x];
    forall t | lo <= t < s + 1 && !AllZero(img[t - 1])
      ensures HasRecord(more, t)
    {
      if t == s {
        assert more[|items|].sector == s;
      } else {
        assert HasRecord(items, t);
        var i :| 0 <= i < |items| && items[i].sector == t;
        assert more[i].sector == t;
      }
    }
  }

  lemma {:induction false} SkippedRecorded(img: Sectors, items: Items, lo: nat, s: nat)
    requires 1 <= lo <= s <= |img| && AreRecorded(img, items, lo, s) && AllZero(img[s - 1])
    ensures AreRecorded(img, items, lo, s + 1)
  {
  }

  /** What `Step` keeps while it fills a pass that begins at sector `lo`. */
  ghost predicate Filling(c: Config, img: Sectors, st: PassState, lo: nat)
    requires c.sectorLength in {128, 256} && WellSized(c, img)
  {
    && 1 <= lo <= st.sector <= |img| + 1 && AreRecorded(img, st.items, lo, st.sector)
    && RepeatsMarked(c, img, st.items)
    && (st.items != [] ==> st.prev == Sector(c, img, Last(st.items).sector))
  }

  lemma {:induction false} OneMoreMarked(c: Config, img: Sectors, items: Items, x: Item)
    requires c.sectorLength in {128, 256} && WellSized(c, img)
    requires forall i :: 0 <= i < |items| ==> 1 <= items[i].sector <= |img|
    requires RepeatsMarked(c, img, items) && 1 <= x.sector <= |img| && |x.rec| > 0 && x.rec[0] < 128
    requires items == [] ==> x.rec[0] == 0x43 || x.rec[0] == 0x47
    requires items != [] ==> (x.rec == [0x46] <==> Sector(c, img, x.sector) == Sector(c, img, Last(items).sector))
    ensures RepeatsMarked(c, img, items + [x])
  {
  }

  lemma {:induction false} StepIs(c: Config, img: Sectors, st: PassState, cur: seq<byte>)
    requires IsDcmConfig(c) && CanStep(DcmCodec(c.sectorLength), c, img, st) && st.sector <= c.numberOfSectors
    requires cur == Sector(c, img, st.sector)
    ensures var rec := RecordFor(st.items == [], cur, st.prev);
      && |rec| > 0 && rec[0] < 128
      && Step(DcmCodec(c.sectorLength), c, img, st)
           == if AllZero(img[st.sector - 1]) then st.(sector := st.sector + 1)
              else PassState(st.sector + 1, st.items + [Item(st.sector, rec)], cur)
  {
    RecordKind(st.items == [], cur, st.prev);
  }

  lemma {:induction false} StepFills(c: Config, img: Sectors, st: PassState, lo: nat)
    requires IsDcmConfig(c) && CanStep(DcmCodec(c.sectorLength), c, img, st) && st.sector <= c.numberOfSectors
    requires Filling(c, img, st, lo)
    ensures Filling(c, img, Step(DcmCodec(c.sectorLength), c, img, st), lo)
  {
    var cur := Sector(c, img, st.sector);
    StepIs(c, img, st, cur);
    if AllZero(img[st.sector - 1]) {
      SkipFills(c, img, st, lo);
    } else {
      RecordFills(c, img, st, lo, cur, RecordFor(st.items == [], cur, st.prev));
    }
  }

  lemma {:induction false} SkipFills(c: Config, img: Sectors, st: PassState, lo: nat)
    requires c.sectorLength in {128, 256} && WellSized(c, img)
    requires Filling(c, img, st, lo) && st.sector <= |img| && AllZero(img[st.sector - 1])
    ensures Filling(c, img, st.(sector := st.sector + 1), lo)
  {
    SkippedRecorded(img, st.items, lo, st.sector);
  }

  lemma {:induction false} RecordFills(c: Config, img: Sectors, st: PassState, lo: nat, cur: seq<byte>, rec: seq<byte>)
    requires c.sectorLength in {128, 256} && WellSized(c, img) && |st.prev| == c.sectorLength
    requires Filling(c, img, st, lo) && st.sector <= |img| && !AllZero(img[st.sector - 1])
    requires cur == Sector(c, img, st.sector) && rec == RecordFor(st.items == [], cur, st.prev)
    ensures |rec| > 0 && rec[0] < 128
    ensures Filling(c, img, PassState(st.sector + 1, st.items + [Item(st.sector, rec)], cur), lo)
  {
    RecordKind(st.items == [], cur, st.prev);
    OneMoreRecorded(img, st.items, Item(st.sector, rec), lo, st.sector);
    OneMoreMarked(c, img, st.items, Item(st.sector, rec));
  }

  /**
   A pass has a record for every sector that is not empty, a single byte for one
   that repeats the sector recorded before it, and goes on to where the next begins.
   */
  lemma {:induction false} PassRecords(c: Config, img: Sectors, st: PassState, lo: nat)
    requires IsDcmConfig(c) && CanStep(DcmCodec(c.sectorLength), c, img, st) && Filling(c, img, st, lo)
    ensures Filling(c, img, FillPass(DcmCodec(c.sectorLength), c, img, st), lo)
    decreases c.numberOfSectors + 1 - st.sector
  {
    if !PassFull(st.items) && st.sector <= c.numberOfSectors {
      StepFills(c, img, st, lo);
      PassRecords(c, img, Step(DcmCodec(c.sectorLength), c, img, st), lo);
    }
  }

  /** The bytes of the records, and two more in front of each one that does not follow the sector before it. */
  function RecordBytes(items: Items): nat
    decreases |items|
  {
    if items == [] then 0
    else
      var head := items[..|items| - 1];
      RecordBytes(head) + |Last(items).rec| + if head != [] && Last(items).sector != Last(head).sector + 1 then 2 else 0
  }

  lemma {:induction false} BeforeSize(items: Items)
    requires items != []
    ensures |Before(items)| + |Last(items).rec| == RecordBytes(items)
    decreases |items|
  {
    if |items| > 1 {
      BeforeSize(items[..|items| - 1]);
    }
  }

  /** A pass is no longer than that: four bytes in front and one behind. */
  lemma {:induction false} PassSize(last: bool, pass: nat, density: nat, items: Items)
    requires density < 3
    ensures |PassBytes(last, pass, density, items)| == 5 + RecordBytes(items)
  {
    if items != [] {
      BeforeSize(items);
    }
  }

  /** Pass `i` records the sectors from `at[i]` to below `at[i + 1]`. */
  ghost predicate IsPart(c: Config, img: Sectors, its: seq<Items>, at: seq<nat>, i: nat)
    requires c.sectorLength in {128, 256} && WellSized(c, img) && i < |its| && |at| == |its| + 1
  {
    1 <= at[i] < at[i + 1] <= |img| + 1 && AreRecorded(img, its[i], at[i], at[i + 1]) && RepeatsMarked(c, img, its[i])
  }

  function TotalBytes(its: seq<Items>): nat {
    if its == [] then 0 else 5 + RecordBytes(its[0]) + TotalBytes(its[1..])
  }

  ghost predicate AreParts(c: Config, img: Sectors, its: seq<Items>, at: seq<nat>)
    requires c.sectorLength in {128, 256} && WellSized(c, img)
  {
    |its| > 0 && |at| == |its| + 1 && forall i :: 0 <= i < |its| ==> IsPart(c, img, its, at, i)
  }

  /** From sector `lo` to the end of the disk, in so many bytes. */
  ghost predicate Covers(c: Config, img: Sectors, its: seq<Items>, at: seq<nat>, lo: nat, total: nat)
    requires c.sectorLength in {128, 256} && WellSized(c, img)
  {
    AreParts(c, img, its, at) && at[0] == lo && at[|its|] == c.numberOfSectors + 1 && TotalBytes(its) == total
  }

  lemma {:induction false} OnePart(c: Config, img: Sectors, items: Items, lo: nat)
    requires c.sectorLength in {128, 256} && WellSized(c, img) && 1 <= lo <= c.numberOfSectors
    requires AreRecorded(img, items, lo, |img| + 1) && RepeatsMarked(c, img, items)
    ensures Covers(c, img, [items], [lo, c.numberOfSectors + 1], lo, 5 + RecordBytes(items))
  {
    assert IsPart(c, img, [items], [lo, |img| + 1], 0);
    assert [items][1..] == [];
  }

  lemma {:induction false} MoreParts(c: Config, img: Sectors, items: Items, lo: nat, its: seq<Items>, at: seq<nat>, hi: nat, total: nat)
    requires c.sectorLength in {128, 256} && WellSized(c, img) && Covers(c, img, its, at, hi, total)
    requires 1 <= lo < hi <= |img| + 1 && AreRecorded(img, items, lo, hi) && RepeatsMarked(c, img, items)
    ensures Covers(c, img, [items] + its, [lo] + at, lo, 5 + RecordBytes(items) + total)
  {
    var its2, at2 := [items] + its, [lo] + at;
    forall i | 0 <= i < |its2|
      ensures IsPart(c, img, its2, at2, i)
    {
      assert i > 0 ==> IsPart(c, img, its, at, i - 1);
    }
    assert its2[1..] == its;
  }

  lemma {:induction false} FilledPass(c: Config, img: Sectors, sector: nat, prev: seq<byte>, pass: nat, n: PassState)
    requires IsDcmConfig(c) && CanStep(DcmCodec(c.sectorLength), c, img, PassState(sector, [], prev)) && sector <= c.numberOfSectors
    requires n == FillPass(DcmCodec(c.sectorLength), c, img, PassState(sector, [], prev))
    ensures sector < n.sector <= c.numberOfSectors + 1 && |n.prev| == c.sectorLength
    ensures AreRecorded(img, n.items, sector, n.sector) && RepeatsMarked(c, img, n.items)
    ensures |EncodePasses(DcmCodec(c.sectorLength), c, img, sector, prev, pass)|
         == 5 + RecordBytes(n.items)
            + if n.sector > c.numberOfSectors then 0 else |EncodePasses(DcmCodec(c.sectorLength), c, img, n.sector, n.prev, pass + 1)|
  {
    PassRecords(c, img, PassState(sector, [], prev), sector);
    PassSize(n.sector > c.numberOfSectors, pass, Density(c), n.items);
  }

  /** One pass after the other the records cover the disk, and they take all the bytes of the file there are. */
  lemma {:induction false} FileRecords(c: Config, img: Sectors, sector: nat, prev: seq<byte>, pass: nat) returns (its: seq<Items>, at: seq<nat>)
    requires IsDcmConfig(c) && CanStep(DcmCodec(c.sectorLength), c, img, PassState(sector, [], prev)) && sector <= c.numberOfSectors
    ensures Covers(c, img, its, at, sector, |EncodePasses(DcmCodec(c.sectorLength), c, img, sector, prev, pass)|)
    decreases c.numberOfSectors + 1 - sector
  {
    var n := FillPass(DcmCodec(c.sectorLength), c, img, PassState(sector, [], prev));
    FilledPass(c, img, sector, prev, pass, n);
    if n.sector > c.numberOfSectors {
      its, at := [n.items], [sector, c.numberOfSectors + 1];
      OnePart(c, img, n.items, sector);
    } else {
      var moreIts, moreAt := FileRecords(c, img, n.sector, n.prev, pass + 1);
      its, at := [n.items] + moreIts, [sector] + moreAt;
      MoreParts(c, img, n.items, sector, moreIts, moreAt, n.sector,
        |EncodePasses(DcmCodec(c.sectorLength), c, img, n.sector, n.prev, pass + 1)|);
    }
  }

  /** The records of an archive: every sector that is not empty, once and in order; and the length that comes to. */
  lemma {:induction false} ArchiveRecords(c: Config, img: Sectors) returns (its: seq<Items>, at: seq<nat>)
    requires IsDcmConfig(c) && WellSized(c, img)
    ensures Covers(c, img, its, at, 1, |EncodeFile(c, img)|)
  {
    DcmCodecSound(c.sectorLength);
    its, at := FileRecords(c, img, 1, Zeros(c.sectorLength), 1);
  }

  // ------------------------------------------------------------------
  // What the reader makes of the same bytes
  // ------------------------------------------------------------------

  /** A pass is only read with one of the two marks in front and one of the three densities. */
  lemma {:induction false} HeaderIsRead(input: seq<byte>, buf: Buffer)
    requires NextPass(input, None, buf).Some?
    ensures |input| >= 4 && (input[0] == 0xFA || input[0] == 0xF9)
    ensures var t := NextPass(input, None, buf).value; var d := input[1] / 32 % 4;
      && (t.last <==> input[1] >= 128) && d < 3
      && t.disk.config == StandardConfig(if d == 0 then Disk90k else if d == 1 then Disk180k else Disk130k)
  {
  }
}
