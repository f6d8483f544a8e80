/** Loading what `DCMCodec::Save` wrote gives the image back, and no pass is too long. */
module DcmRoundTrip {
  import opened Bytes
  import opened AtrImage
  import opened DcmRecords
  import opened DcmArchive

  /** The encoder after `n` sectors of a pass. */
  function Steps(k: Codec, c: Config, img: Sectors, st: PassState, n: nat): (r: PassState)
    requires CanStep(k, c, img, st) && st.sector + n <= c.numberOfSectors + 1
    ensures CanStep(k, c, img, r) && r.sector == st.sector + n
  {
    if n == 0 then st else Step(k, c, img, Steps(k, c, img, st, n - 1))
  }

  lemma {:induction false} StepsShift(k: Codec, c: Config, img: Sectors, st: PassState, n: nat)
    requires CanStep(k, c, img, st) && st.sector <= c.numberOfSectors && st.sector + 1 + n <= c.numberOfSectors + 1
    ensures Steps(k, c, img, Step(k, c, img, st), n) == Steps(k, c, img, st, n + 1)
  {
    if n > 0 {
      StepsShift(k, c, img, st, n - 1);
    }
  }

  /** `n` steps fill the pass that `st` is in, and the last of them starts from a pass that is not full. */
  ghost predicate IsFilledIn(k: Codec, c: Config, img: Sectors, st: PassState, n: nat) {
    && CanStep(k, c, img, st) && st.sector + n <= c.numberOfSectors + 1
    && FillPass(k, c, img, st) == Steps(k, c, img, st, n)
    && (n > 0 ==> NotFullBefore(k, c, img, st, n))
  }

  ghost predicate NotFullBefore(k: Codec, c: Config, img: Sectors, st: PassState, n: nat)
    requires n > 0 && CanStep(k, c, img, st) && st.sector + n <= c.numberOfSectors + 1
  {
    !PassFull(Steps(k, c, img, st, n - 1).items)
  }

  lemma {:induction false} NotFullShift(k: Codec, c: Config, img: Sectors, st: PassState, m: nat)
    requires CanStep(k, c, img, st) && st.sector + m + 1 <= c.numberOfSectors + 1 && !PassFull(st.items)
    requires m > 0 ==> NotFullBefore(k, c, img, Step(k, c, img, st), m)
    ensures NotFullBefore(k, c, img, st, m + 1)
  {
    if m > 0 {
      StepsShift(k, c, img, st, m - 1);
    }
  }

  lemma {:induction false} FilledInShift(k: Codec, c: Config, img: Sectors, st: PassState, m: nat)
    requires CanStep(k, c, img, st) && st.sector <= c.numberOfSectors && !PassFull(st.items)
    requires IsFilledIn(k, c, img, Step(k, c, img, st), m)
    ensures IsFilledIn(k, c, img, st, m + 1)
  {
    StepsShift(k, c, img, st, m);
    NotFullShift(k, c, img, st, m);
  }

  /** Filling a pass is some number of steps, each from a pass that was not full. */
  lemma {:induction false} FillPassIsSteps(k: Codec, c: Config, img: Sectors, st: PassState) returns (n: nat)
    requires CanStep(k, c, img, st)
    ensures IsFilledIn(k, c, img, st, n)
    decreases c.numberOfSectors + 1 - st.sector
  {
    if PassFull(st.items) || st.sector > c.numberOfSectors {
      n := 0;
    } else {
      var m := FillPassIsSteps(k, c, img, Step(k, c, img, st));
      FilledInShift(k, c, img, st, m);
      n := m + 1;
    }
  }

  /** The image the decoder holds when every sector below `sector` has been dealt with. */
  function Restored(c: Config, img: Sectors, sector: nat): (r: Sectors)
    requires WellSized(c, img) && 1 <= sector <= c.numberOfSectors + 1
    ensures |r| == c.numberOfSectors
  {
    img[..sector - 1] + BlankSectors(c)[sector - 1..]
  }

  lemma {:induction false} RestoredStep(c: Config, img: Sectors, sector: nat)
    requires WellSized(c, img) && 1 <= sector <= c.numberOfSectors
    ensures Restored(c, img, sector)[sector - 1 := img[sector - 1]] == Restored(c, img, sector + 1)
    ensures AllZero(img[sector - 1]) ==> Restored(c, img, sector) == Restored(c, img, sector + 1)
  {
    if AllZero(img[sector - 1]) {
      assert img[sector - 1] == BlankSectors(c)[sector - 1];
    }
  }

  lemma {:induction false} OverOver(a: seq<byte>, b: seq<byte>, buf: Buffer)
    requires |a| == |b| <= BUFFER_SIZE
    ensures Over(a, Over(b, buf)) == Over(a, buf)
  {
  }

  /** One record, as the decoder takes it from its input. */
  lemma {:induction false} OneRecord(k: Codec, c: Config, img0: Sectors, input: seq<byte>, cur: seq<byte>, sector: nat, buf: Buffer,
                  rest: seq<byte>)
    requires k.Terminates() && |cur| == c.sectorLength <= BUFFER_SIZE && |img0| == c.numberOfSectors
    requires 1 <= sector <= c.numberOfSectors < 0x1_0000 - 1
    requires |input| > 1 && input[0] != PASS_END && (input[0] >= 128 || |rest| >= 2)
    requires k.decode(input[0] % 128, input[1..], buf) == Decoded(Over(cur, buf), rest)
    ensures var img2 := img0[sector - 1 := Over(cur, buf)[..c.SectorLength(sector)]];
      DecodePass(k, c, input, sector, buf, img0) ==
        if input[0] >= 128 then DecodePass(k, c, rest, sector + 1, Over(cur, buf), img2)
        else DecodePass(k, c, rest[2..], WordValue(rest), Over(cur, buf), img2)
  {
  }

  /** One record and its link take the decoder to the sector linked to. */
  lemma {:induction false} ClosedReadsBack(k: Codec, c: Config, img0: Sectors, rec: seq<byte>, cur: seq<byte>,
                        sector: nat, next: nat, buf: Buffer, tail: seq<byte>)
    requires k.Terminates() && k.IsRecord(rec)
    requires |cur| == c.sectorLength <= BUFFER_SIZE && |img0| == c.numberOfSectors
    requires 1 <= sector <= c.numberOfSectors < 0x1_0000 - 1 && next < 0x1_0000
    requires |tail| > 0
    requires k.RestoresOver(rec, cur, buf, if next == sector + 1 then tail else Word(next) + tail)
    ensures DecodePass(k, c, Closed(Item(sector, rec), next) + tail, sector, buf, img0)
        == DecodePass(k, c, tail, next, Over(cur, buf), img0[sector - 1 := Over(cur, buf)[..c.SectorLength(sector)]])
  {
    if next == sector + 1 {
      FlaggedInput(rec, tail);
      OneRecord(k, c, img0, Flag(rec) + tail, cur, sector, buf, tail);
    } else {
      WordInput(rec, next, tail);
      OneRecord(k, c, img0, rec + Word(next) + tail, cur, sector, buf, Word(next) + tail);
    }
  }

  lemma {:induction false} FlaggedInput(rec: seq<byte>, tail: seq<byte>)
    requires |rec| > 0 && rec[0] < 128
    ensures (Flag(rec) + tail)[1..] == rec[1..] + tail
  {
  }

  lemma {:induction false} WordInput(rec: seq<byte>, w: nat, tail: seq<byte>)
    requires |rec| > 0 && w < 0x1_0000
    ensures (rec + Word(w) + tail)[1..] == rec[1..] + (Word(w) + tail)
    ensures (Word(w) + tail)[2..] == tail
    ensures WordValue(Word(w) + tail) == w
  {
    WordRoundTrip(w, tail);
  }

  lemma {:induction false} StepWrites(c: Config, img: Sectors, sector: nat, buf: Buffer)
    requires IsDcmConfig(c) && WellSized(c, img) && 1 <= sector <= c.numberOfSectors
    ensures Over(Padded(img[sector - 1], c.sectorLength), buf)[..c.SectorLength(sector)] == img[sector - 1]
  {
  }

  lemma {:induction false} StepRestores(c: Config, img: Sectors, sector: nat, buf: Buffer)
    requires IsDcmConfig(c) && WellSized(c, img) && 1 <= sector <= c.numberOfSectors
    ensures Restored(c, img, sector)[sector - 1 := Over(Padded(img[sector - 1], c.sectorLength), buf)[..c.SectorLength(sector)]]
      == Restored(c, img, sector + 1)
  {
    StepWrites(c, img, sector, buf);
    RestoredStep(c, img, sector);
  }

  lemma {:induction false} LinkedSnoc(items: Items, x: Item, next: nat)
    requires |x.rec| > 0 && x.rec[0] < 128
    ensures items != [] ==> Linked(items + [x], next) == Linked(items, x.sector) + Closed(x, next)
    ensures items == [] ==> Linked(items + [x], next) == Closed(x, next)
  {
    var all: Items := items + [x];
    assert all[..|all| - 1] == items;
  }

  ghost predicate Fresh(k: Codec, c: Config, img: Sectors, st: PassState) {
    CanStep(k, c, img, st) && st.items == []
  }

  /** Until a pass has a record, only empty sectors have been passed over. */
  lemma {:induction false} NothingYet(k: Codec, c: Config, img: Sectors, st: PassState, n: nat)
    requires Fresh(k, c, img, st) && st.sector + n <= c.numberOfSectors + 1
    requires Steps(k, c, img, st, n).items == []
    ensures Restored(c, img, st.sector + n) == Restored(c, img, st.sector)
    ensures Steps(k, c, img, st, n).prev == st.prev
  {
    if n > 0 {
      NothingYet(k, c, img, st, n - 1);
      RestoredStep(c, img, st.sector + n - 1);
    }
  }

  /** The record a step appends is read back to the sector it was made from. */
  lemma {:induction false} StepReadsBack(k: Codec, c: Config, img: Sectors, st: PassState, next: nat, buf: Buffer, tail: seq<byte>)
    requires CanStep(k, c, img, st) && st.sector <= c.numberOfSectors
    requires !AllZero(img[st.sector - 1])
    requires next < 0x1_0000 && |tail| > 0
    requires st.items == [] || buf[..k.size] == st.prev
    ensures var n := Step(k, c, img, st);
      DecodePass(k, c, Closed(Last(n.items), next) + tail, st.sector, buf, Restored(c, img, st.sector))
        == DecodePass(k, c, tail, next, Over(n.prev, buf), Restored(c, img, n.sector))
  {
    var cur := Padded(img[st.sector - 1], k.size);
    var rec := k.encode(st.items == [], cur, st.prev);
    StepRestores(c, img, st.sector, buf);
    ClosedReadsBack(k, c, Restored(c, img, st.sector), rec, cur, st.sector, next, buf, tail);
  }

  /**
   Decoding the records of `s`, a state of a pass that began at sector `start`,
   leaves the encoder's previous sector in the decoder's buffer and every sector
   dealt with so far in the image, and stands at the linked sector.
   */
  ghost predicate RecordsRead(k: Codec, c: Config, img: Sectors, start: nat, s: PassState,
                              next: nat, buf: Buffer, tail: seq<byte>)
    requires CanStep(k, c, img, s) && s.items != [] && 1 <= start <= c.numberOfSectors + 1
  {
    DecodePass(k, c, Linked(s.items, next) + tail, s.items[0].sector, buf, Restored(c, img, start))
      == DecodePass(k, c, tail, next, Over(s.prev, buf), Restored(c, img, s.sector))
  }

  lemma {:induction false} SkippedRead(k: Codec, c: Config, img: Sectors, start: nat, s: PassState,
                                       next: nat, buf: Buffer, tail: seq<byte>)
    requires CanStep(k, c, img, s) && s.items != [] && 1 <= start <= c.numberOfSectors + 1
    requires s.sector <= c.numberOfSectors && AllZero(img[s.sector - 1])
    requires RecordsRead(k, c, img, start, s, next, buf, tail)
    ensures RecordsRead(k, c, img, start, Step(k, c, img, s), next, buf, tail)
  {
    RestoredStep(c, img, s.sector);
  }

  lemma {:induction false} FirstRead(k: Codec, c: Config, img: Sectors, start: nat, s: PassState,
                                     next: nat, buf: Buffer, tail: seq<byte>)
    requires CanStep(k, c, img, s) && s.items == [] && 1 <= start <= c.numberOfSectors + 1
    requires s.sector <= c.numberOfSectors && !AllZero(img[s.sector - 1])
    requires next < 0x1_0000 && |tail| > 0
    requires Restored(c, img, start) == Restored(c, img, s.sector)
    ensures RecordsRead(k, c, img, start, Step(k, c, img, s), next, buf, tail)
  {
    LinkedSnoc([], Last(Step(k, c, img, s).items), next);
    StepReadsBack(k, c, img, s, next, buf, tail);
  }

  lemma {:induction false} NextRead(k: Codec, c: Config, img: Sectors, start: nat, s: PassState,
                                    next: nat, buf: Buffer, tail: seq<byte>)
    requires CanStep(k, c, img, s) && s.items != [] && 1 <= start <= c.numberOfSectors + 1
    requires s.sector <= c.numberOfSectors && !AllZero(img[s.sector - 1])
    requires next < 0x1_0000 && |tail| > 0
    requires RecordsRead(k, c, img, start, s, s.sector, buf, Closed(Last(Step(k, c, img, s).items), next) + tail)
    ensures RecordsRead(k, c, img, start, Step(k, c, img, s), next, buf, tail)
  {
    var n := Step(k, c, img, s);
    var x := Last(n.items);
    assert Linked(n.items, next) + tail == Linked(s.items, s.sector) + (Closed(x, next) + tail) by {
      LinkedSnoc(s.items, x, next);
      Reassociate(Linked(s.items, s.sector), Closed(x, next), tail);
    }
    StepReadsBack(k, c, img, s, next, Over(s.prev, buf), tail);
    OverOver(n.prev, s.prev, buf);
  }

  lemma {:induction false} Reassociate4(a: seq<byte>, b: seq<byte>, c: seq<byte>, d: seq<byte>)
    ensures a + b + c + d == a + (b + c + d)
  {
  }

  /** What is written after the records of `s` when its next sector is dealt with. */
  function NextLink(img: Sectors, s: PassState, next: nat): nat
    requires 1 <= s.sector <= |img|
  {
    if AllZero(img[s.sector - 1]) then next else s.sector
  }

  function NextTail(k: Codec, c: Config, img: Sectors, s: PassState, next: nat, tail: seq<byte>): seq<byte>
    requires CanStep(k, c, img, s) && s.sector <= c.numberOfSectors
  {
    if AllZero(img[s.sector - 1]) then tail else Closed(Last(Step(k, c, img, s).items), next) + tail
  }

  lemma {:induction false} RecordsGrow(k: Codec, c: Config, img: Sectors, start: nat, s: PassState,
                                       next: nat, buf: Buffer, tail: seq<byte>)
    requires CanStep(k, c, img, s) && 1 <= start <= c.numberOfSectors + 1 && s.sector <= c.numberOfSectors
    requires next < 0x1_0000 && |tail| > 0 && Step(k, c, img, s).items != []
    requires s.items == [] ==> Restored(c, img, start) == Restored(c, img, s.sector)
    requires s.items != [] ==>
               RecordsRead(k, c, img, start, s, NextLink(img, s, next), buf, NextTail(k, c, img, s, next, tail))
    ensures RecordsRead(k, c, img, start, Step(k, c, img, s), next, buf, tail)
  {
    if AllZero(img[s.sector - 1]) {
      SkippedRead(k, c, img, start, s, next, buf, tail);
    } else if s.items == [] {
      FirstRead(k, c, img, start, s, next, buf, tail);
    } else {
      NextRead(k, c, img, start, s, next, buf, tail);
    }
  }

  /** The heart of the round trip: any number of steps into a pass, its records are read back. */
  lemma {:induction false} RecordsReadBack(k: Codec, c: Config, img: Sectors, st: PassState, n: nat,
                                           next: nat, buf: Buffer, tail: seq<byte>)
    requires Fresh(k, c, img, st) && st.sector + n <= c.numberOfSectors + 1
    requires next < 0x1_0000 && |tail| > 0
    requires Steps(k, c, img, st, n).items != []
    ensures RecordsRead(k, c, img, st.sector, Steps(k, c, img, st, n), next, buf, tail)
    decreases n
  {
    var s := Steps(k, c, img, st, n - 1);
    if s.items == [] {
      NothingYet(k, c, img, st, n - 1);
    } else {
      RecordsReadBack(k, c, img, st, n - 1, NextLink(img, s, next), buf, NextTail(k, c, img, s, next, tail));
    }
    RecordsGrow(k, c, img, st.sector, s, next, buf, tail);
  }

  /** A whole pass body, then the end mark. */
  lemma {:induction false} PassReadsBack(k: Codec, c: Config, img: Sectors, st: PassState, n: nat,
                                         buf: Buffer, tail: seq<byte>)
    requires Fresh(k, c, img, st) && st.sector + n <= c.numberOfSectors + 1
    ensures var s := Steps(k, c, img, st, n);
      DecodePass(k, c, PassBody(s.items) + [PASS_END] + tail, FirstSector(s.items), buf, Restored(c, img, st.sector))
        == PassDone(tail, if s.items == [] then buf else Over(s.prev, buf), Restored(c, img, s.sector))
  {
    var s := Steps(k, c, img, st, n);
    var end := [PASS_END] + tail;
    assert end[1..] == tail;
    Reassociate(PassBody(s.items), [PASS_END], tail);
    if s.items == [] {
      NothingYet(k, c, img, st, n);
      assert PassBody(s.items) + end == end;
    } else {
      ItemsInRange(k, c, img, st, n);
      RecordsReadBack(k, c, img, st, n, Last(s.items).sector + 1, buf, end);
    }
  }

  lemma {:induction false} ItemsInRange(k: Codec, c: Config, img: Sectors, st: PassState, n: nat)
    requires Fresh(k, c, img, st) && st.sector + n <= c.numberOfSectors + 1
    ensures forall i :: 0 <= i < |Steps(k, c, img, st, n).items|
              ==> 1 <= Steps(k, c, img, st, n).items[i].sector <= c.numberOfSectors
  {
    if n > 0 {
      ItemsInRange(k, c, img, st, n - 1);
    }
  }

  lemma {:induction false} HeaderReadsBack(last: bool, pass: nat, density: nat, first: nat, body: seq<byte>)
    requires density < 3 && first < 0x1_0000
    ensures var input := Header(last, pass, density, first) + body;
      && input[0] == HEADER_SINGLE && input[4..] == body
      && input[1] / 32 % 4 == density && (input[1] >= 128 <==> last)
      && WordValue(input[2..]) == first
  {
    var input := Header(last, pass, density, first) + body;
    assert input[2..] == Word(first) + body;
    WordRoundTrip(first, body);
    HeaderTypeBits(last, pass, density);
  }

  lemma {:induction false} HeaderTypeBits(last: bool, pass: nat, density: nat)
    requires density < 3
    ensures HeaderType(last, pass, density) / 32 % 4 == density
    ensures HeaderType(last, pass, density) >= 128 <==> last
  {
    var low := pass % 32;
    assert (128 + 32 * density + low) / 32 == 4 + density;
    assert (32 * density + low) / 32 == density;
  }

  /** What the decoder has formatted and restored when the encoder is about to start a pass at `sector`. */
  function Formatted(c: Config, img: Sectors, sector: nat): (d: Option<Disk>)
    requires WellSized(c, img) && 1 <= sector <= c.numberOfSectors + 1
  {
    if sector == 1 then None else Some(Disk(c, Restored(c, img, sector)))
  }

  /** One pass is read back, whatever the decoder's buffer holds when the pass begins. */
  lemma {:induction false} FilledPassReadsBack(k: Codec, c: Config, img: Sectors, st: PassState, pass: nat,
                                               buf: Buffer, more: seq<byte>) returns (buf2: Buffer)
    requires Fresh(k, c, img, st) && st.sector <= c.numberOfSectors && k == DcmCodec(c.sectorLength)
    ensures var s := FillPass(k, c, img, st);
      var last := s.sector > c.numberOfSectors;
      DecodeFile(PassBytes(last, pass, Density(c), s.items) + more, Formatted(c, img, st.sector), buf)
        == if last then Some(Disk(c, img)) else DecodeFile(more, Formatted(c, img, s.sector), buf2)
  {
    var n := FillPassIsSteps(k, c, img, st);
    var s := Steps(k, c, img, st, n);
    buf2 := if s.items == [] then buf else Over(s.prev, buf);
    PassReadsBack(k, c, img, st, n, buf, more);
    ItemsInRange(k, c, img, st, n);
    OnePass(c, img, st.sector, pass, s, buf, buf2, more);
    assert Restored(c, img, c.numberOfSectors + 1) == img;
  }

  lemma {:induction false} EncodePassesUnfold(k: Codec, c: Config, img: Sectors, sector: nat, prev: seq<byte>, pass: nat,
                                              s: PassState)
    requires CanStep(k, c, img, PassState(sector, [], prev)) && sector <= c.numberOfSectors
    requires s == FillPass(k, c, img, PassState(sector, [], prev))
    ensures EncodePasses(k, c, img, sector, prev, pass)
         == PassBytes(s.sector > c.numberOfSectors, pass, Density(c), s.items)
              + EncodePasses(k, c, img, s.sector, s.prev, pass + 1)
  {
  }

  /** Every pass is read back. */
  lemma {:induction false} PassesReadBack(k: Codec, c: Config, img: Sectors, sector: nat, prev: seq<byte>, pass: nat, buf: Buffer)
    requires CanStep(k, c, img, PassState(sector, [], prev)) && k == DcmCodec(c.sectorLength)
    requires sector <= c.numberOfSectors
    ensures DecodeFile(EncodePasses(k, c, img, sector, prev, pass), Formatted(c, img, sector), buf) == Some(Disk(c, img))
    decreases c.numberOfSectors - sector
  {
    var s := FillPass(k, c, img, PassState(sector, [], prev));
    var more := EncodePasses(k, c, img, s.sector, s.prev, pass + 1);
    EncodePassesUnfold(k, c, img, sector, prev, pass, s);
    var buf2 := FilledPassReadsBack(k, c, img, PassState(sector, [], prev), pass, buf, more);
    if s.sector <= c.numberOfSectors {
      PassesReadBack(k, c, img, s.sector, s.prev, pass + 1, buf2);
    }
  }

  /** The file level of one pass. */
  lemma {:induction false} OnePass(c: Config, img: Sectors, start: nat, pass: nat, s: PassState,
                                   buf: Buffer, buf2: Buffer, more: seq<byte>)
    requires IsDcmConfig(c) && WellSized(c, img)
    requires 1 <= start <= c.numberOfSectors && start < s.sector <= c.numberOfSectors + 1
    requires FirstSector(s.items) < 0x1_0000
    requires DecodePass(DcmCodec(c.sectorLength), c, PassBody(s.items) + [PASS_END] + more, FirstSector(s.items), buf,
                        Restored(c, img, start))
          == PassDone(more, buf2, Restored(c, img, s.sector))
    ensures var last := s.sector > c.numberOfSectors;
      DecodeFile(PassBytes(last, pass, Density(c), s.items) + more, Formatted(c, img, start), buf)
        == if last then Some(Disk(c, Restored(c, img, s.sector)))
           else DecodeFile(more, Formatted(c, img, s.sector), buf2)
  {
    var last := s.sector > c.numberOfSectors;
    var first := FirstSector(s.items);
    var body := PassBody(s.items) + [PASS_END] + more;
    var input := PassBytes(last, pass, Density(c), s.items) + more;
    assert input == Header(last, pass, Density(c), first) + body by {
      Reassociate4(Header(last, pass, Density(c), first), PassBody(s.items), [PASS_END], more);
    }
    HeaderReadsBack(last, pass, Density(c), first, body);
    var disk := Disk(c, Restored(c, img, start));
    FormattedDisk(c, img, start);
    DecodeFileUnfold(input, Formatted(c, img, start), buf, disk, first, more, buf2, Restored(c, img, s.sector));
  }

  lemma {:induction false} FormattedDisk(c: Config, img: Sectors, start: nat)
    requires IsDcmConfig(c) && WellSized(c, img) && 1 <= start <= c.numberOfSectors + 1
    ensures FormatOfDensity(Density(c)) == Some(c.format)
    ensures Disk(c, Restored(c, img, start)) == if start == 1 then Disk(c, BlankSectors(c)) else Formatted(c, img, start).value
  {
    assert Restored(c, img, 1) == BlankSectors(c);
  }

  lemma {:induction false} DecodeFileUnfold(input: seq<byte>, formatted: Option<Disk>, buf: Buffer, disk: Disk,
                                            first: nat, more: seq<byte>, buf2: Buffer, img2: Sectors)
    requires |input| >= 4 && input[0] == HEADER_SINGLE && WordValue(input[2..]) == first
    requires IsDcmConfig(disk.config) && |disk.sectors| == |img2| == disk.config.numberOfSectors
    requires FormatOfDensity(input[1] / 32 % 4) == Some(disk.config.format)
    requires disk == if formatted.Some? then formatted.value else Disk(disk.config, BlankSectors(disk.config))
    requires DecodePass(DcmCodec(disk.config.sectorLength), disk.config, input[4..], first, buf, disk.sectors)
          == PassDone(more, buf2, img2)
    ensures DecodeFile(input, formatted, buf) ==
      if input[1] >= 128 then Some(Disk(disk.config, img2)) else DecodeFile(more, Some(Disk(disk.config, img2)), buf2)
  {
  }

  /**
   Loading what was saved: for every 90k, 130k or 180k image, and whatever is in
   the decoder's buffer to begin with, the file `Save` writes is read back as the
   same image of the same format.
   */
  lemma {:induction false} DcmRoundTrip(c: Config, img: Sectors, buf: Buffer)
    requires IsDcmConfig(c) && WellSized(c, img)
    ensures DecodeFile(EncodeFile(c, img), None, buf) == Some(Disk(c, img))
  {
    DcmCodecSound(c.sectorLength);
    PassesReadBack(DcmCodec(c.sectorLength), c, img, 1, Zeros(c.sectorLength), 1, buf);
  }

  // ------------------------------------------------------------------
  // Size
  // ------------------------------------------------------------------

  lemma {:induction false} PendingGrowth(items: Items, x: Item)
    requires |x.rec| > 0 && x.rec[0] < 128
    ensures |Pending(items + [x])| <= |Pending(items)| + 2 + |x.rec|
    ensures |PassBody(items)| == |Pending(items)|
  {
    var all: Items := items + [x];
    assert all[..|all| - 1] == items;
    assert Pending(all) == Before(all) + x.rec;
    assert Before(all) == if items == [] then [] else Linked(items, x.sector);
  }

  /** No pass is ever longer than `Save` accepts, so its "pass too long" branch is dead. */
  lemma {:induction false} PassLength(k: Codec, c: Config, img: Sectors, st: PassState, last: bool, pass: nat)
    requires Fresh(k, c, img, st)
    ensures |PassBytes(last, pass, Density(c), FillPass(k, c, img, st).items)| <= PASS_MAX
  {
    var n := FillPassIsSteps(k, c, img, st);
    var s := Steps(k, c, img, st, n);
    PendingGrowth(s.items, Item(0, [0]));
    if n > 0 {
      var before := Steps(k, c, img, st, n - 1);
      if s.items != before.items {
        PendingGrowth(before.items, Last(s.items));
        assert |Last(s.items).rec| <= BUFFER_SIZE + 1;
      }
    }
  }
}
