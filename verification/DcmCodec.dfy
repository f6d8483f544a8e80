/** `DCMCodec`: the encoder and decoder themselves, over the buffers they change in place. */
module DcmCodecs {
  import opened Bytes
  import opened FileIO
  import opened AtrImage
  import opened DcmRecords
  import opened DcmArchive
  import DcmRoundTrip
  import DcmPasses

  const PASS_BUFFER_SIZE := 0x6500

  function SetBit7(b: byte): byte {
    if b < 128 then b + 128 else b
  }

  class DCMCodec {
    const fFileIO: File
    const fImage: MemoryImage
    const fCurrentBuffer: array<byte>
    const fPrevBuffer: array<byte>
    const fPassBuffer: array<byte>
    var fSectorSize: nat
    var fCurrentSector: nat
    var fCurrentPtr: nat
    var fLastRec: nat
    var fLastPassFlag: bool
    var fAlreadyFormatted: bool

    ghost predicate Valid()
      reads this`fCurrentPtr, this`fSectorSize
    {
      && fCurrentBuffer.Length == fPrevBuffer.Length == BUFFER_SIZE
      && fPassBuffer.Length == PASS_BUFFER_SIZE
      && fCurrentBuffer != fPrevBuffer && fCurrentBuffer != fPassBuffer && fPrevBuffer != fPassBuffer
      && fCurrentPtr <= PASS_BUFFER_SIZE && fSectorSize <= BUFFER_SIZE
    }

    constructor (file: File, image: MemoryImage)
      ensures Valid() && fFileIO == file && fImage == image
      ensures fresh(fCurrentBuffer) && fresh(fPrevBuffer) && fresh(fPassBuffer)
    {
      fFileIO, fImage := file, image;
      fCurrentBuffer := new byte[BUFFER_SIZE];
      fPrevBuffer := new byte[BUFFER_SIZE];
      fPassBuffer := new byte[PASS_BUFFER_SIZE];
      fSectorSize, fCurrentSector, fCurrentPtr, fLastRec := 0, 0, 0, 0;
      fLastPassFlag, fAlreadyFormatted := false, false;
    }

    // ----------------------------------------------------------------
    // Sub-encoders
    // ----------------------------------------------------------------

    method EncodeRec41(src: array<byte>, srcOld: array<byte>, n: nat) returns (dest: seq<byte>)
      requires 0 < n <= src.Length && n <= srcOld.Length && n <= BUFFER_SIZE
      ensures dest == Rec41(src[..n], srcOld[..n])
    {
      ghost var p := LastDifference(src[..n], srcOld[..n], n - 1);
      var s: int := n - 1;
      var i := 0;
      while i < n
        invariant 0 <= i <= n && s == n - 1 - i
        invariant p == if s >= 0 then LastDifference(src[..n], srcOld[..n], s) else 0
      {
        s := s - 1;
        if src[s + 1] != srcOld[s + 1] {
          break;
        }
        i := i + 1;
      }
      s := s + 1;
      assert s == p;
      dest := CopyDown([s], src, s);
      assert src[..s + 1] == src[..n][..s + 1];
    }

    /** The second loop of `EncodeRec41`: the bytes from `s` down to the front. */
    method CopyDown(start: seq<byte>, src: array<byte>, s: nat) returns (dest: seq<byte>)
      requires s < src.Length
      ensures dest == start + Reverse(src[..s + 1])
    {
      dest := start;
      ghost var r := Reverse(src[..s + 1]);
      var bytes := s + 1;
      var k: int := s;
      while bytes > 0
        invariant k == bytes - 1 && 0 <= bytes <= s + 1
        invariant dest == start + r[..s - k]
      {
        bytes := bytes - 1;
        OneMore(start, r, s - k);
        dest := dest + [src[k]];
        k := k - 1;
      }
    }

    static lemma {:induction false} OneMore(start: seq<byte>, r: seq<byte>, i: nat)
      requires i < |r|
      ensures start + r[..i + 1] == start + r[..i] + [r[i]]
    {
      assert r[..i + 1] == r[..i] + [r[i]];
    }

    method EncodeRec44(src: array<byte>, srcOld: array<byte>, n: nat) returns (dest: seq<byte>)
      requires 0 < n <= src.Length && n <= srcOld.Length && n <= BUFFER_SIZE
      ensures dest == Rec44(src[..n], srcOld[..n])
    {
      ghost var p := FirstDifference(src[..n], srcOld[..n], 0);
      var s := 0;
      var i := 0;
      while i < n
        invariant 0 <= i <= n && s == i
        invariant p == if i < n then FirstDifference(src[..n], srcOld[..n], i) else n - 1
      {
        s := s + 1;
        if src[s - 1] != srcOld[s - 1] {
          break;
        }
        i := i + 1;
      }
      s := s - 1;
      dest := [s] + src[s..n];
      assert src[..n][s..] == src[s..n];
    }

    /** The inner search of `EncodeRec43`: where the next run starts, if any. */
    method SearchRun(src: array<byte>, cur: nat, n: nat) returns (now: nat, found: bool)
      requires cur <= n <= src.Length
      ensures FindRun(src[..n], cur) == if found then Some(now) else None
    {
      ghost var s := src[..n];
      now, found := cur, false;
      while now + 2 < n
        invariant cur <= now <= n
        invariant FindRun(s, cur) == FindRun(s, now)
      {
        if src[now] == src[now + 1] && src[now] == src[now + 2] {
          found := true;
          return;
        }
        now := now + 1;
      }
    }

    /** The part of `EncodeRec43` for a run found at `now`: the bytes before it, then the run. */
    method EmitRun(src: array<byte>, cur: nat, now: nat, n: nat) returns (out: seq<byte>, p: nat)
      requires cur <= now < n <= src.Length && n <= BUFFER_SIZE
      ensures p == RunStop(src[..n], now)
      ensures out == Run43(src[..n], cur, now)
    {
      ghost var s := src[..n];
      var bt := src[now];
      p := now + 1;
      while p < n && src[p] == bt
        invariant now < p <= n
        invariant forall j :: now <= j < p ==> s[j] == s[now]
        invariant RunStop(s, now) == RunEnd(s, now, p)
      {
        p := p + 1;
      }
      assert s[cur..now] == src[cur..now];
      out := [now] + src[cur..now] + [p % 256, bt];
    }

    /** The bytes left over when no further run is found. */
    method EmitTail(src: array<byte>, cur: nat, n: nat) returns (out: seq<byte>)
      requires cur <= n <= src.Length && n <= BUFFER_SIZE && FindRun(src[..n], cur).None?
      ensures out == Rec43(src[..n], cur)
    {
      if cur < n {
        assert src[..n][cur..] == src[cur..n];
        out := [n % 256] + src[cur..n];
      } else {
        out := [];
      }
    }

    /** One turn of the main loop of `EncodeRec43`; the loop is left with `next == n`. */
    method EncodeTurn43(src: array<byte>, cur: nat, n: nat) returns (out: seq<byte>, next: nat)
      requires cur < n <= src.Length && n <= BUFFER_SIZE
      ensures cur < next <= n
      ensures out + Rec43(src[..n], next) == Rec43(src[..n], cur)
    {
      var now, found := SearchRun(src, cur, n);
      if !found {
        out := EmitTail(src, cur, n);
        next := n;
      } else {
        out, next := EmitRun(src, cur, now, n);
        if next + 2 >= n {
          var tail := EmitTail(src, next, n);
          out := out + tail;
          next := n;
        }
      }
    }

    method EncodeRec43(src: array<byte>, n: nat) returns (dest: seq<byte>)
      requires n <= src.Length && n <= BUFFER_SIZE
      ensures dest == Rec43(src[..n], 0)
    {
      dest := [];
      var cur := 0;
      while cur < n
        invariant cur <= n
        invariant dest + Rec43(src[..n], cur) == Rec43(src[..n], 0)
      {
        var out, next := EncodeTurn43(src, cur, n);
        Reassociate(dest, out, Rec43(src[..n], next));
        dest := dest + out;
        cur := next;
      }
    }

    // ----------------------------------------------------------------
    // Encoder: the pass buffer
    // ----------------------------------------------------------------

    /** The part of the pass buffer written so far. */
    ghost function Pass(): seq<byte>
      requires Valid()
      reads this`fCurrentPtr, this`fSectorSize, fPassBuffer
    {
      fPassBuffer[..fCurrentPtr]
    }

    /** `memcpy(fCurrentPtr, ...)`, then moving the pointer. */
    method Append(bytes: seq<byte>)
      requires Valid() && fCurrentPtr + |bytes| <= PASS_BUFFER_SIZE
      modifies fPassBuffer, this`fCurrentPtr
      ensures Valid() && Pass() == old(Pass()) + bytes
      ensures fPassBuffer[fCurrentPtr..] == old(fPassBuffer[fCurrentPtr + |bytes|..])
    {
      forall i | 0 <= i < |bytes| {
        fPassBuffer[fCurrentPtr + i] := bytes[i];
      }
      fCurrentPtr := fCurrentPtr + |bytes|;
    }

    /** Rewrites the header at the front of the pass buffer and starts over behind it. */
    method EncodeRecFA(last: bool, pass: nat, density: nat, first: nat)
      requires Valid() && density < 3
      modifies fPassBuffer, this`fCurrentPtr, this`fLastRec
      ensures Valid() && fCurrentPtr == PASS_HEADER && fLastRec == 0
      ensures fPassBuffer[..] == Header(last, pass, density, first) + old(fPassBuffer[PASS_HEADER..])
    {
      fCurrentPtr := 0;
      fLastRec := fCurrentPtr;
      var header := Header(last, pass, density, first);
      Append(header);
    }

    method EncodeRec45()
      requires Valid() && fCurrentPtr < PASS_BUFFER_SIZE
      modifies fPassBuffer, this`fCurrentPtr, this`fLastRec
      ensures Valid() && Pass() == old(Pass()) + [PASS_END] && fLastRec == old(fCurrentPtr)
    {
      fLastRec := fCurrentPtr;
      Append([PASS_END]);
    }

    method EncodeRec46()
      requires Valid() && fCurrentPtr < PASS_BUFFER_SIZE
      modifies fPassBuffer, this`fCurrentPtr, this`fLastRec
      ensures Valid() && Pass() == old(Pass()) + [SAME_AS_BEFORE] && fLastRec == old(fCurrentPtr)
    {
      fLastRec := fCurrentPtr;
      Append([SAME_AS_BEFORE]);
    }

    /** The selection in `EncodeRec`; 0x300 stands for a candidate that was not built. */
    method SelectRecord(isFirstSector: bool) returns (rec: seq<byte>)
      requires Valid() && fSectorSize > 0
      ensures rec == BestRecord(isFirstSector, fCurrentBuffer[..fSectorSize], fPrevBuffer[..fSectorSize])
    {
      var buff41, buff44 := Zeros(0x300), Zeros(0x300);
      var buff43 := EncodeRec43(fCurrentBuffer, fSectorSize);
      if !isFirstSector {
        buff41 := EncodeRec41(fCurrentBuffer, fPrevBuffer, fSectorSize);
        buff44 := EncodeRec44(fCurrentBuffer, fPrevBuffer, fSectorSize);
      }
      var bestMethod, best := UNCOMPRESSED, fCurrentBuffer[..fSectorSize];
      if |buff41| < 255 && |buff41| < |best| {
        bestMethod, best := CHANGE_BEGIN, buff41;
      }
      if |buff43| < 255 && |buff43| < |best| {
        bestMethod, best := COMPRESSED, buff43;
      }
      if |buff44| < 255 && |buff44| < |best| {
        bestMethod, best := CHANGE_END, buff44;
      }
      rec := [bestMethod] + best;
    }

    method EncodeRec(isFirstSector: bool)
      requires Valid() && fSectorSize > 0 && fCurrentPtr + 1 + fSectorSize <= PASS_BUFFER_SIZE
      modifies fPassBuffer, this`fCurrentPtr, this`fLastRec
      ensures Valid() && fLastRec == old(fCurrentPtr)
      ensures Pass() == old(Pass()) + BestRecord(isFirstSector, fCurrentBuffer[..fSectorSize], fPrevBuffer[..fSectorSize])
    {
      fLastRec := fCurrentPtr;
      var rec := SelectRecord(isFirstSector);
      Append(rec);
    }

    /** `*fLastRec |= 0x80`. */
    method MarkLastRecord()
      requires Valid() && fLastRec < fCurrentPtr
      modifies fPassBuffer
      ensures Valid() && Pass() == old(Pass())[fLastRec := SetBit7(old(Pass())[fLastRec])]
    {
      fPassBuffer[fLastRec] := SetBit7(fPassBuffer[fLastRec]);
    }

    // ----------------------------------------------------------------
    // Encoder: sectors and passes
    // ----------------------------------------------------------------

    /** The image is there, has a layout the format knows, and shares no storage with the buffers. */
    ghost predicate Ready()
      reads this`fCurrentPtr, this`fSectorSize, fImage, fImage.fData
    {
      && Valid() && fImage.Valid() && IsDcmConfig(fImage.config)
      && fSectorSize == fImage.config.sectorLength
      && fImage.fData != fCurrentBuffer && fImage.fData != fPrevBuffer && fImage.fData != fPassBuffer
    }

    /** The upper half of the sector buffer is clear as long as short boot sectors are read. */
    ghost predicate UpperHalfClear(sector: nat)
      requires Valid()
      reads this`fCurrentPtr, this`fSectorSize, fCurrentBuffer
    {
      fSectorSize == 256 && sector <= 3 ==> AllZero(fCurrentBuffer[128..])
    }

    method ReadCurrentSector() returns (ok: bool, secLen: nat)
      requires Ready() && UpperHalfClear(fCurrentSector)
      requires 1 <= fCurrentSector <= fImage.config.numberOfSectors
      modifies fCurrentBuffer
      ensures Ready() && ok && UpperHalfClear(fCurrentSector + 1)
      ensures fImage.Contents() == old(fImage.Contents())
      ensures secLen == fImage.config.SectorLength(fCurrentSector)
      ensures fCurrentBuffer[..fSectorSize] == Padded(fImage.Contents()[fCurrentSector - 1], fSectorSize)
    {
      secLen := fImage.config.SectorLength(fCurrentSector);
      ghost var was := fCurrentBuffer[..];
      var data;
      ok, data := fImage.ReadSector(fCurrentSector, secLen);
      forall i | 0 <= i < secLen {
        fCurrentBuffer[i] := data[i];
      }
      assert fCurrentBuffer[..] == data + was[secLen..];
    }

    method IsEmpty(secLen: nat) returns (skip: bool)
      requires Valid() && secLen <= BUFFER_SIZE
      ensures skip <==> AllZero(fCurrentBuffer[..secLen])
    {
      var i := 0;
      while i < secLen && fCurrentBuffer[i] == 0
        invariant 0 <= i <= secLen
        invariant AllZero(fCurrentBuffer[..i])
      {
        i := i + 1;
      }
      skip := i == secLen;
      assert !skip ==> fCurrentBuffer[..secLen][i] != 0;
    }

    /** The pass buffer holds the records `items`, the last one not linked yet. */
    ghost predicate Holds(items: Items)
      requires Valid()
      reads this`fCurrentPtr, this`fSectorSize, this`fLastRec, fPassBuffer
    {
      && PASS_HEADER <= fCurrentPtr && Pass()[PASS_HEADER..] == Pending(items)
      && Pass()[0] == HEADER_SINGLE
      && fLastRec == if items == [] then 0 else PASS_HEADER + |Before(items)|
    }

    static function LinkedOrNone(items: Items, next: nat): seq<byte> {
      if items == [] then [] else Linked(items, next)
    }

    /** Marking the last record is linking it to the next sector. */
    method MarkAsFollowed(ghost items: Items)
      requires Valid() && Holds(items)
      modifies fPassBuffer
      ensures Valid() && Pass()[PASS_HEADER..] == PassBody(items) && Pass()[0] == HEADER_SINGLE
      ensures |Pass()| == old(|Pass()|)
    {
      ghost var was := Pass();
      MarkLastRecord();
      FlagInPlace(items, was, Pass(), fLastRec);
    }

    static lemma {:induction false} FlagInPlace(items: Items, was: seq<byte>, now: seq<byte>, at: nat)
      requires PASS_HEADER <= |was| && was[PASS_HEADER..] == Pending(items) && was[0] == HEADER_SINGLE
      requires at == if items == [] then 0 else PASS_HEADER + |Before(items)|
      requires at < |was| && now == was[at := SetBit7(was[at])]
      ensures now[PASS_HEADER..] == PassBody(items) && now[0] == HEADER_SINGLE
    {
      if items != [] {
        var b := |Before(items)|;
        assert was[at] == was[PASS_HEADER..][b] == Last(items).rec[0];
        assert now[PASS_HEADER..] == was[PASS_HEADER..][b := SetBit7(was[at])];
        assert Pending(items)[b := SetBit7(was[at])] == Before(items) + Flag(Last(items).rec);
      } else {
        assert now[PASS_HEADER..] == was[PASS_HEADER..];
      }
    }

    /** Linking the last record to the current sector, by a mark or by its number. */
    method LinkToCurrentSector(iPrevSector: nat, ghost items: Items)
      requires Valid() && Holds(items) && fCurrentSector < 0x1_0000 && fCurrentPtr + 2 <= PASS_BUFFER_SIZE
      requires if items == [] then iPrevSector == fCurrentSector else iPrevSector == Last(items).sector < fCurrentSector
      modifies fPassBuffer, this`fCurrentPtr
      ensures Valid() && PASS_HEADER <= |Pass()| <= old(|Pass()|) + 2 && Pass()[0] == HEADER_SINGLE
      ensures Pass()[PASS_HEADER..] == LinkedOrNone(items, fCurrentSector)
    {
      if fCurrentSector - iPrevSector > 1 {
        ghost var was := Pass();
        Append([fCurrentSector % 256, fCurrentSector / 256]);
        assert Word(fCurrentSector) == [fCurrentSector % 256, fCurrentSector / 256];
        WordInPlace(items, was, fCurrentSector);
      } else {
        MarkAsFollowed(items);
      }
    }

    static lemma {:induction false} WordInPlace(items: Items, was: seq<byte>, next: nat)
      requires PASS_HEADER <= |was| && was[PASS_HEADER..] == Pending(items)
      requires items != [] && next != Last(items).sector + 1
      ensures (was + Word(next))[PASS_HEADER..] == Linked(items, next)
    {
      var x := Last(items);
      assert (was + Word(next))[PASS_HEADER..] == was[PASS_HEADER..] + Word(next);
      Reassociate(Before(items), x.rec, Word(next));
    }

    /** The record for the current sector: the first of a pass on its own, later ones against the previous sector. */
    method EncodeRecord(isFirstSector: bool)
      requires Valid() && fSectorSize >= 2 && fCurrentPtr + 1 + fSectorSize <= PASS_BUFFER_SIZE
      modifies fPassBuffer, this`fCurrentPtr, this`fLastRec
      ensures Valid() && fLastRec == old(fCurrentPtr)
      ensures Pass() == old(Pass()) + RecordFor(isFirstSector, fCurrentBuffer[..fSectorSize], fPrevBuffer[..fSectorSize])
    {
      if isFirstSector {
        EncodeRec(true);
      } else if fPrevBuffer[..fSectorSize] == fCurrentBuffer[..fSectorSize] {
        EncodeRec46();
      } else {
        EncodeRec(false);
      }
    }

    static lemma {:induction false} AppendRecord(items: Items, linked: seq<byte>, x: Item)
      requires |x.rec| > 0 && x.rec[0] < 128 && linked == LinkedOrNone(items, x.sector)
      ensures linked + x.rec == Pending(items + [x]) && linked == Before(items + [x])
    {
      var all: Items := items + [x];
      assert all[..|all| - 1] == items;
    }

    /** The encoder's fields and the two sector variables of `Save` agree with the state `st` of a pass. */
    ghost predicate Encodes(st: PassState, iFirstSector: nat, iPrevSector: nat)
      requires Valid()
      reads this`fCurrentPtr, this`fSectorSize, this`fLastRec, this`fCurrentSector, fPassBuffer, fPrevBuffer
    {
      && Holds(st.items) && fCurrentSector == st.sector
      && fPrevBuffer[..fSectorSize] == st.prev
      && iFirstSector == FirstSector(st.items)
      && (st.items != [] ==> 0 < iFirstSector <= iPrevSector == Last(st.items).sector < st.sector)
    }

    /** Links the previous record to the current sector and appends the record for it. */
    method AppendSector(isFirstSector: bool, iPrevSector: nat, ghost items: Items, ghost x: Item)
      requires Valid() && Holds(items) && fSectorSize >= 2
      requires fCurrentSector < 0x1_0000 && fCurrentPtr + 3 + fSectorSize <= PASS_BUFFER_SIZE
      requires isFirstSector <==> items == []
      requires if items == [] then iPrevSector == fCurrentSector else iPrevSector == Last(items).sector < fCurrentSector
      requires x == Item(fCurrentSector, RecordFor(isFirstSector, fCurrentBuffer[..fSectorSize], fPrevBuffer[..fSectorSize]))
      requires |x.rec| > 0 && x.rec[0] < 128
      modifies fPassBuffer, this`fCurrentPtr, this`fLastRec
      ensures Valid() && Holds(items + [x])
    {
      LinkToCurrentSector(iPrevSector, items);
      ghost var linked := Pass();
      AppendRecord(items, linked[PASS_HEADER..], x);
      EncodeRecord(isFirstSector);
      HoldsAppended(linked, Pass(), x.rec);
    }

    static lemma {:induction false} HoldsAppended(linked: seq<byte>, now: seq<byte>, rec: seq<byte>)
      requires PASS_HEADER <= |linked| && now == linked + rec
      ensures now[PASS_HEADER..] == linked[PASS_HEADER..] + rec && now[0] == linked[0]
    {
    }

    method StorePrevious()
      requires Valid()
      modifies fPrevBuffer
      ensures Valid() && fPrevBuffer[..fSectorSize] == fCurrentBuffer[..fSectorSize]
    {
      forall i | 0 <= i < fSectorSize {
        fPrevBuffer[i] := fCurrentBuffer[i];
      }
    }

    /** What one sector of the image does to the state of a pass, with the records of `DCMCodec.cpp`. */
    static ghost predicate IsStep(s: seq<byte>, size: nat, st: PassState, n: PassState)
      requires |s| <= size
    {
      if AllZero(s) then n == st.(sector := st.sector + 1)
      else
        var cur := Padded(s, size);
        var x := Item(st.sector, RecordFor(st.items == [], cur, st.prev));
        |x.rec| > 0 && x.rec[0] < 128 && n == PassState(st.sector + 1, st.items + [x], cur)
    }

    static lemma {:induction false} StepIsStep(k: Codec, c: Config, img: Sectors, st: PassState)
      requires CanStep(k, c, img, st) && st.sector <= c.numberOfSectors
      requires k.encode == RecordFor
      ensures IsStep(img[st.sector - 1], k.size, st, Step(k, c, img, st))
    {
      var s := img[st.sector - 1];
      if !AllZero(s) {
        FullStep(k, c, img, st, Padded(s, k.size));
      }
    }

    static lemma {:induction false} FullStep(k: Codec, c: Config, img: Sectors, st: PassState, cur: seq<byte>)
      requires CanStep(k, c, img, st) && st.sector <= c.numberOfSectors && !AllZero(img[st.sector - 1])
      requires k.encode == RecordFor && cur == Padded(img[st.sector - 1], k.size)
      ensures var x := Item(st.sector, RecordFor(st.items == [], cur, st.prev));
        |x.rec| > 0 && x.rec[0] < 128 && Step(k, c, img, st) == PassState(st.sector + 1, st.items + [x], cur)
    {
      RecordIsRecord(k, st.items == [], cur, st.prev);
    }

    static lemma {:induction false} RecordIsRecord(k: Codec, first: bool, cur: seq<byte>, prev: seq<byte>)
      requires k.Sound() && k.encode == RecordFor && |cur| == |prev| == k.size
      ensures RecordFor(first, cur, prev) == k.encode(first, cur, prev) && k.IsRecord(k.encode(first, cur, prev))
    {
    }

    /** The part of a turn of the inner loop of `Save` for a sector that is not empty. */
    method EncodeFullSector(iFirst: nat, iPrev: nat, ghost st: PassState, ghost n: PassState)
      returns (iFirstSector: nat, iPrevSector: nat)
      requires Valid() && fSectorSize >= 2 && Encodes(st, iFirst, iPrev)
      requires 0 < fCurrentSector < 0x1_0000 && fCurrentPtr + 3 + fSectorSize <= PASS_BUFFER_SIZE
      requires var cur := fCurrentBuffer[..fSectorSize];
        var x := Item(st.sector, RecordFor(st.items == [], cur, st.prev));
        |x.rec| > 0 && x.rec[0] < 128 && n == PassState(st.sector + 1, st.items + [x], cur)
      modifies this`fCurrentSector, this`fCurrentPtr, this`fLastRec, fPrevBuffer, fPassBuffer
      ensures Valid() && Encodes(n, iFirstSector, iPrevSector)
    {
      iFirstSector, iPrevSector := iFirst, iPrev;
      if iFirstSector == 0 {
        iFirstSector, iPrevSector := fCurrentSector, fCurrentSector;
      }
      AppendSector(fCurrentSector == iFirstSector, iPrevSector, st.items, Last(n.items));
      StorePrevious();
      iPrevSector := fCurrentSector;
      fCurrentSector := fCurrentSector + 1;
    }

    /** The part of a turn of the inner loop of `Save` for an empty sector. */
    method SkipSector(ghost iFirst: nat, ghost iPrev: nat, ghost st: PassState)
      requires Valid() && Encodes(st, iFirst, iPrev)
      modifies this`fCurrentSector
      ensures Encodes(st.(sector := st.sector + 1), iFirst, iPrev)
    {
      fCurrentSector := fCurrentSector + 1;
    }

    /** Reads the current sector and finds out whether it is empty. */
    method ReadAndTest() returns (skip: bool)
      requires Ready() && UpperHalfClear(fCurrentSector)
      requires 1 <= fCurrentSector <= fImage.config.numberOfSectors
      modifies fCurrentBuffer
      ensures Ready() && UpperHalfClear(fCurrentSector + 1)
      ensures fImage.Contents() == old(fImage.Contents())
      ensures skip <==> AllZero(fImage.Contents()[fCurrentSector - 1])
      ensures fCurrentBuffer[..fSectorSize] == Padded(fImage.Contents()[fCurrentSector - 1], fSectorSize)
    {
      var ok, secLen := ReadCurrentSector();
      skip := IsEmpty(secLen);
      FrontOfPadded(fCurrentBuffer[..fSectorSize], fImage.Contents()[fCurrentSector - 1], secLen);
      assert fCurrentBuffer[..secLen] == fCurrentBuffer[..fSectorSize][..secLen];
    }

    static lemma {:induction false} FrontOfPadded(buffer: seq<byte>, sector: seq<byte>, secLen: nat)
      requires secLen == |sector| <= |buffer| && buffer == Padded(sector, |buffer|)
      ensures buffer[..secLen] == sector
    {
    }

    /** The rest of a turn of the inner loop of `Save`: skip the sector or append its record. */
    method EncodeOrSkip(skip: bool, iFirst: nat, iPrev: nat, ghost s: seq<byte>, ghost st: PassState, ghost n: PassState)
      returns (iFirstSector: nat, iPrevSector: nat)
      requires Valid() && fSectorSize >= 2 && Encodes(st, iFirst, iPrev)
      requires 0 < fCurrentSector < 0x1_0000 && fCurrentPtr < PASS_LIMIT
      requires |s| <= fSectorSize && (skip <==> AllZero(s)) && IsStep(s, fSectorSize, st, n)
      requires fCurrentBuffer[..fSectorSize] == Padded(s, fSectorSize)
      modifies this`fCurrentSector, this`fCurrentPtr, this`fLastRec, fPrevBuffer, fPassBuffer
      ensures Valid() && Encodes(n, iFirstSector, iPrevSector)
    {
      if skip {
        iFirstSector, iPrevSector := iFirst, iPrev;
        SkipSector(iFirst, iPrev, st);
      } else {
        iFirstSector, iPrevSector := EncodeFullSector(iFirst, iPrev, st, n);
      }
    }

    /** One turn of the inner loop of `Save`. */
    method EncodeSector(iFirst: nat, iPrev: nat, ghost st: PassState, ghost n: PassState)
      returns (iFirstSector: nat, iPrevSector: nat)
      requires Ready() && UpperHalfClear(fCurrentSector) && Encodes(st, iFirst, iPrev)
      requires 1 <= st.sector <= fImage.config.numberOfSectors && n.sector == st.sector + 1
      requires IsStep(fImage.Contents()[st.sector - 1], fSectorSize, st, n)
      requires fCurrentPtr < PASS_LIMIT
      modifies this`fCurrentSector, this`fCurrentPtr, this`fLastRec, fCurrentBuffer, fPrevBuffer, fPassBuffer
      ensures Ready() && UpperHalfClear(fCurrentSector) && fImage.Contents() == old(fImage.Contents())
      ensures Encodes(n, iFirstSector, iPrevSector)
    {
      ghost var s := fImage.Contents()[st.sector - 1];
      var skip := ReadAndTest();
      iFirstSector, iPrevSector := EncodeOrSkip(skip, iFirst, iPrev, s, st, n);
    }

    /** The inner loop of `Save`: one pass, from an empty pass buffer until it is full or the image ends. */
    method FillPassBuffer(ghost k: Codec, ghost st: PassState) returns (iFirstSector: nat)
      requires Ready() && UpperHalfClear(fCurrentSector) && Encodes(st, 0, 0) && st.items == []
      requires CanStep(k, fImage.config, fImage.Contents(), st) && k.encode == RecordFor
      modifies this`fCurrentSector, this`fCurrentPtr, this`fLastRec, fCurrentBuffer, fPrevBuffer, fPassBuffer
      ensures Ready() && UpperHalfClear(fCurrentSector) && fImage.Contents() == old(fImage.Contents())
      ensures exists iPrev :: Encodes(FillPass(k, fImage.config, fImage.Contents(), st), iFirstSector, iPrev)
    {
      ghost var c, img := fImage.config, fImage.Contents();
      ghost var now := st;
      iFirstSector := 0;
      var iPrevSector := 0;
      while fCurrentPtr < PASS_LIMIT
        invariant Ready() && UpperHalfClear(fCurrentSector) && fImage.Contents() == img
        invariant CanStep(k, c, img, now) && FillPass(k, c, img, now) == FillPass(k, c, img, st)
        invariant Encodes(now, iFirstSector, iPrevSector)
        decreases c.numberOfSectors + 1 - now.sector
      {
        if fCurrentSector > fImage.config.numberOfSectors {
          break;
        }
        ghost var next := Step(k, c, img, now);
        StepIsStep(k, c, img, now);
        FillPassStep(k, c, img, now);
        iFirstSector, iPrevSector := EncodeSector(iFirstSector, iPrevSector, now, next);
        now := next;
      }
      FillPassEnd(k, c, img, now);
    }

    static lemma {:induction false} FillPassStep(k: Codec, c: Config, img: Sectors, st: PassState)
      requires CanStep(k, c, img, st) && st.sector <= c.numberOfSectors && !PassFull(st.items)
      ensures FillPass(k, c, img, st) == FillPass(k, c, img, Step(k, c, img, st))
    {
    }

    static lemma {:induction false} FillPassEnd(k: Codec, c: Config, img: Sectors, st: PassState)
      requires CanStep(k, c, img, st) && (st.sector > c.numberOfSectors || PassFull(st.items))
      ensures FillPass(k, c, img, st) == st
    {
    }

    /** What `Save` does with a full pass: mark its last record, end it, put in the header, write it out. */
    method WritePass(last: bool, pass: nat, density: nat, iFirstSector: nat, ghost items: Items) returns (ok: bool)
      requires Valid() && Holds(items) && density < 3 && iFirstSector == FirstSector(items)
      requires fCurrentPtr < PASS_MAX
      modifies this`fCurrentPtr, this`fLastRec, fPassBuffer, fFileIO`data
      ensures Valid() && Holds([]) && ok
      ensures fFileIO.data == old(fFileIO.data) + PassBytes(last, pass, density, items)
    {
      MarkAsFollowed(items);
      ghost var marked := Pass();
      EncodeRec45();
      ghost var was, before := Pass(), fPassBuffer[..];
      var pEnd := fCurrentPtr;
      EncodeRecFA(last, pass, density, iFirstSector);
      HeaderPut(Header(last, pass, density, iFirstSector), before, fPassBuffer[..], pEnd);
      PassBytesAre(last, pass, density, items, was, fPassBuffer[..], pEnd);
      if pEnd > PASS_MAX {
        return false;
      }
      fFileIO.WriteBlock(fPassBuffer[..pEnd]);
      ok := true;
    }

    static lemma {:induction false} HeaderPut(header: seq<byte>, before: seq<byte>, after: seq<byte>, pEnd: nat)
      requires |header| == PASS_HEADER <= pEnd <= |before| && after == header + before[PASS_HEADER..]
      ensures after[..PASS_HEADER] == header && after[PASS_HEADER..pEnd] == before[..pEnd][PASS_HEADER..]
    {
      var a, b := after[PASS_HEADER..pEnd], before[..pEnd][PASS_HEADER..];
      forall k | 0 <= k < |a|
        ensures a[k] == b[k]
      {
        assert a[k] == after[PASS_HEADER + k] == before[PASS_HEADER..][k] == before[PASS_HEADER + k];
      }
    }

    static lemma {:induction false} PassBytesAre(last: bool, pass: nat, density: nat, items: Items,
                                                 was: seq<byte>, buffer: seq<byte>, pEnd: nat)
      requires density < 3 && PASS_HEADER <= pEnd == |was| <= |buffer|
      requires was[PASS_HEADER..] == PassBody(items) + [PASS_END]
      requires buffer[..PASS_HEADER] == Header(last, pass, density, FirstSector(items))
      requires buffer[PASS_HEADER..pEnd] == was[PASS_HEADER..]
      ensures buffer[..pEnd] == PassBytes(last, pass, density, items)
    {
      assert buffer[..pEnd] == buffer[..PASS_HEADER] + buffer[PASS_HEADER..pEnd];
      Reassociate(Header(last, pass, density, FirstSector(items)), PassBody(items), [PASS_END]);
    }

    /** `memset(fPrevBuffer, 0, fSectorSize)`, the same for `fCurrentBuffer`. */
    method ClearBuffers()
      requires Valid()
      modifies fCurrentBuffer, fPrevBuffer
      ensures AllZero(fCurrentBuffer[..fSectorSize]) && fPrevBuffer[..fSectorSize] == Zeros(fSectorSize)
    {
      forall i | 0 <= i < fSectorSize {
        fCurrentBuffer[i] := 0;
      }
      forall i | 0 <= i < fSectorSize {
        fPrevBuffer[i] := 0;
      }
    }

    /** The density of the image in the terms of the format, if the format can hold it. */
    method DensityOfImage() returns (supported: bool, density: nat)
      requires fImage.Valid()
      ensures supported <==> fImage.config.format in {Disk90k, Disk130k, Disk180k}
      ensures supported ==> density == Density(fImage.config)
    {
      match fImage.config.format
      case Disk90k => supported, density := true, 0;
      case Disk130k => supported, density := true, 2;
      case Disk180k => supported, density := true, 1;
      case _ => supported, density := false, 0;
    }

    /** What `Save` does before its main loop. */
    method StartSave(density: nat)
      requires Valid() && fImage.Valid() && IsDcmConfig(fImage.config) && density < 3
      requires fImage.fData != fCurrentBuffer && fImage.fData != fPrevBuffer && fImage.fData != fPassBuffer
      modifies this, fCurrentBuffer, fPrevBuffer, fPassBuffer, fFileIO
      ensures Ready() && fCurrentSector == 1 && UpperHalfClear(1) && Holds([])
      ensures fImage.Contents() == old(fImage.Contents())
      ensures fPrevBuffer[..fSectorSize] == Zeros(fSectorSize) && fFileIO.data == []
    {
      fSectorSize := fImage.config.sectorLength;
      fFileIO.OpenWrite();
      fCurrentSector := 1;
      ClearBuffers();
      EncodeRecFA(false, 1, density, 0);
    }

    /** One turn of the main loop of `Save`: a whole pass. */
    method SavePass(pass: nat, density: nat, ghost k: Codec, ghost st: PassState) returns (ok: bool)
      requires Ready() && UpperHalfClear(fCurrentSector) && Encodes(st, 0, 0) && st.items == []
      requires CanStep(k, fImage.config, fImage.Contents(), st) && k.encode == RecordFor
      requires density == Density(fImage.config)
      modifies this`fCurrentSector, this`fCurrentPtr, this`fLastRec, fCurrentBuffer, fPrevBuffer, fPassBuffer, fFileIO`data
      ensures Ready() && UpperHalfClear(fCurrentSector) && fImage.Contents() == old(fImage.Contents()) && ok
      ensures var n := FillPass(k, fImage.config, fImage.Contents(), st);
        && Encodes(PassState(n.sector, [], n.prev), 0, 0)
        && fFileIO.data == old(fFileIO.data)
             + PassBytes(n.sector > fImage.config.numberOfSectors, pass, Density(fImage.config), n.items)
    {
      ghost var n := FillPass(k, fImage.config, fImage.Contents(), st);
      var iFirstSector := FillPassBuffer(k, st);
      ghost var iPrev :| Encodes(n, iFirstSector, iPrev);
      PassFits(k, fImage.config, fImage.Contents(), st);
      ok := WritePass(fCurrentSector > fImage.config.numberOfSectors, pass, density, iFirstSector, n.items);
    }

    static lemma {:induction false} PassFits(k: Codec, c: Config, img: Sectors, st: PassState)
      requires CanStep(k, c, img, st) && st.items == []
      ensures PASS_HEADER + |Pending(FillPass(k, c, img, st).items)| < PASS_MAX
    {
      var items := FillPass(k, c, img, st).items;
      DcmRoundTrip.PassLength(k, c, img, st, true, 1);
      DcmRoundTrip.PendingGrowth(items, Item(0, [0]));
    }

    /** `DCMCodec::Save`. */
    method Save() returns (ok: bool)
      requires Valid() && fImage.Valid() && fImage.config.sectorLength <= BUFFER_SIZE
      requires fImage.fData != fCurrentBuffer && fImage.fData != fPrevBuffer && fImage.fData != fPassBuffer
      modifies this, fCurrentBuffer, fPrevBuffer, fPassBuffer, fFileIO
      ensures fImage.Valid() && fImage.Contents() == old(fImage.Contents())
      ensures ok <==> fImage.config.format in {Disk90k, Disk130k, Disk180k}
      ensures ok ==> IsDcmConfig(fImage.config) && WellSized(fImage.config, fImage.Contents())
                     && fFileIO.data == EncodeFile(fImage.config, fImage.Contents())
      ensures ok ==> DcmPasses.IsArchive(fFileIO.data, DcmPasses.DensityBits(fImage.config.format))
                     && |fFileIO.data| >= 5 && fFileIO.data[0] == 0xFA && fFileIO.data[1] % 32 == 1
    {
      var supported, density := DensityOfImage();
      if !supported {
        return false;
      }
      StandardLayout(fImage.config);
      StartSave(density);
      ok := SavePasses(density);
      DcmPasses.EncodedIsArchive(fImage.config, fImage.Contents());
      DcmPasses.ArchiveStarts(fFileIO.data, DcmPasses.DensityBits(fImage.config.format));
    }

    static lemma {:induction false} StandardLayout(c: Config)
      requires c.Legal() && c.sectorLength <= BUFFER_SIZE && c.format in {Disk90k, Disk130k, Disk180k}
      ensures IsDcmConfig(c)
    {
    }

    /** The main loop of `Save`. */
    method SavePasses(density: nat) returns (ok: bool)
      requires Ready() && fCurrentSector == 1 && UpperHalfClear(1) && Holds([])
      requires fPrevBuffer[..fSectorSize] == Zeros(fSectorSize) && fFileIO.data == []
      requires density == Density(fImage.config)
      modifies this, fCurrentBuffer, fPrevBuffer, fPassBuffer, fFileIO
      ensures fImage.Valid() && fImage.Contents() == old(fImage.Contents()) && ok
      ensures WellSized(fImage.config, fImage.Contents())
      ensures fFileIO.data == EncodeFile(fImage.config, fImage.Contents())
    {
      ghost var c, img := fImage.config, fImage.Contents();
      ghost var k := DcmCodec(c.sectorLength);
      DcmCodecSound(c.sectorLength);
      var iPass := 1;
      ghost var prev := Zeros(c.sectorLength);
      ghost var goal := EncodeFile(c, img);
      while fCurrentSector <= fImage.config.numberOfSectors
        invariant Ready() && fImage.Contents() == img && UpperHalfClear(fCurrentSector)
        invariant Encodes(PassState(fCurrentSector, [], prev), 0, 0)
        invariant CanStep(k, c, img, PassState(fCurrentSector, [], prev))
        invariant fFileIO.data + EncodePasses(k, c, img, fCurrentSector, prev, iPass) == goal
        decreases c.numberOfSectors + 1 - fCurrentSector
      {
        ghost var st := PassState(fCurrentSector, [], prev);
        ghost var n := FillPass(k, c, img, st);
        ghost var was := fFileIO.data;
        ok := SavePass(iPass, density, k, st);
        Reassociate(was, PassBytes(n.sector > c.numberOfSectors, iPass, density, n.items),
                    EncodePasses(k, c, img, n.sector, n.prev, iPass + 1));
        prev := n.prev;
        iPass := iPass + 1;
      }
      ok := true;
    }

    // ----------------------------------------------------------------
    // Decoder: records
    // ----------------------------------------------------------------

    /** The sector buffer and the unread input are what `d` says. */
    ghost predicate Leaves(d: Decoded, ok: bool)
      requires fCurrentBuffer.Length == BUFFER_SIZE && fFileIO.Valid()
      reads fCurrentBuffer, fFileIO
    {
      (ok <==> d.Decoded?) && (ok ==> d == Decoded(fCurrentBuffer[..], fFileIO.Rest()))
    }

    method ReadOffset() returns (ok: bool, off: nat)
      requires fFileIO.Valid()
      modifies fFileIO`pos
      ensures fFileIO.Valid() && (ok <==> |old(fFileIO.Rest())| > 0)
      ensures ok ==> off == Offset(old(fFileIO.Rest())[0]) && fFileIO.Rest() == old(fFileIO.Rest())[1..]
    {
      var bt;
      ok, bt := fFileIO.ReadByte();
      off := if bt == 0 then 256 else bt;
    }

    /** `ReadBlock` into the sector buffer at `at`; succeeds when all `len` bytes are there. */
    method ReadIntoBuffer(at: nat, len: nat) returns (ok: bool)
      requires fCurrentBuffer.Length == BUFFER_SIZE && fFileIO.Valid() && at + len <= BUFFER_SIZE
      modifies fCurrentBuffer, fFileIO`pos
      ensures fFileIO.Valid() && (ok <==> len <= |old(fFileIO.Rest())|)
      ensures ok ==> fFileIO.Rest() == old(fFileIO.Rest())[len..]
      ensures ok ==>
        fCurrentBuffer[..] == old(fCurrentBuffer[..])[..at] + old(fFileIO.Rest())[..len] + old(fCurrentBuffer[..])[at + len..]
    {
      var block := fFileIO.ReadBlock(len);
      forall i | 0 <= i < |block| {
        fCurrentBuffer[at + i] := block[i];
      }
      ok := |block| == len;
    }

    method FillBuffer(at: nat, c: byte, len: nat)
      requires fCurrentBuffer.Length == BUFFER_SIZE && at + len <= BUFFER_SIZE
      modifies fCurrentBuffer
      ensures fCurrentBuffer[..] ==
        old(fCurrentBuffer[..])[..at] + Repeat(c, len) + old(fCurrentBuffer[..])[at + len..]
    {
      forall i | 0 <= i < len {
        fCurrentBuffer[at + i] := c;
      }
    }

    method DecodeRec41() returns (ok: bool)
      requires fCurrentBuffer.Length == BUFFER_SIZE && fFileIO.Valid()
      modifies fCurrentBuffer, fFileIO`pos
      ensures fFileIO.Valid() && Leaves(Decode41(old(fFileIO.Rest()), old(fCurrentBuffer[..])), ok)
    {
      ghost var input, was := fFileIO.Rest(), fCurrentBuffer[..];
      var iOffset;
      ok, iOffset := fFileIO.ReadByte();
      if !ok {
        return;
      }
      assert input[0] == iOffset && fFileIO.Rest() == input[1..];
      ok := ReadBackwards(iOffset);
      if ok {
        Backwards(input, was, iOffset, fCurrentBuffer[..], fFileIO.Rest());
      }
    }

    static lemma {:induction false} Backwards(input: seq<byte>, was: seq<byte>, p: byte, buf: seq<byte>, rest: seq<byte>)
      requires |was| == |buf| == BUFFER_SIZE && p as nat + 1 < |input| && input[0] == p && rest == input[1..][p as nat + 1..]
      requires buf == Reverse(input[1..][..p as nat + 1]) + was[p as nat + 1..]
      ensures Decode41(input, was) == Decoded(buf, rest)
    {
      var n: nat := p as nat + 1;
      assert input[1..][..n] == input[1..n + 1] && input[1..][n..] == input[n + 1..];
    }

    /** The loop of `DecodeRec41`: bytes from position `iOffset` down to the front. */
    method ReadBackwards(iOffset: byte) returns (ok: bool)
      requires fCurrentBuffer.Length == BUFFER_SIZE && fFileIO.Valid()
      modifies fCurrentBuffer, fFileIO`pos
      ensures fFileIO.Valid() && (ok <==> iOffset as nat < |old(fFileIO.Rest())|)
      ensures ok ==> fFileIO.Rest() == old(fFileIO.Rest())[iOffset as nat + 1..]
      ensures ok ==>
        fCurrentBuffer[..] == Reverse(old(fFileIO.Rest())[..iOffset as nat + 1]) + old(fCurrentBuffer[..])[iOffset as nat + 1..]
    {
      ghost var input, was := fFileIO.Rest(), fCurrentBuffer[..];
      var p: int := iOffset;
      while p >= 0
        invariant fFileIO.Valid() && -1 <= p <= iOffset as int
        invariant iOffset as int - p <= |input| && fFileIO.Rest() == input[iOffset as int - p..]
        invariant forall j :: 0 <= j <= p ==> fCurrentBuffer[j] == was[j]
        invariant forall j :: p < j <= iOffset as int ==> fCurrentBuffer[j] == input[iOffset as int - j]
        invariant forall j :: iOffset as int < j < BUFFER_SIZE ==> fCurrentBuffer[j] == was[j]
        decreases p
      {
        var b;
        ok, b := fFileIO.ReadByte();
        if !ok {
          return;
        }
        fCurrentBuffer[p] := b;
        p := p - 1;
      }
      ok := true;
    }

    method DecodeRec42() returns (ok: bool)
      requires fCurrentBuffer.Length == BUFFER_SIZE && fFileIO.Valid()
      modifies fCurrentBuffer, fFileIO`pos
      ensures fFileIO.Valid() && Leaves(Decode42(old(fFileIO.Rest()), old(fCurrentBuffer[..])), ok)
    {
      ghost var input, was := fFileIO.Rest(), fCurrentBuffer[..];
      ok := ReadIntoBuffer(123, 5);
      if ok {
        Filled42(input, was, fCurrentBuffer[..]);
        FillBuffer(0, fCurrentBuffer[123], 123);
      }
    }

    static lemma {:induction false} Filled42(input: seq<byte>, was: Buffer, mid: Buffer)
      requires |input| >= 5 && mid == was[..123] + input[..5] + was[128..]
      ensures mid[123] == input[0] && Decode42(input, was) == Decoded(mid[..0] + Repeat(mid[123], 123) + mid[123..], input[5..])
    {
      assert mid[123..] == input[..5] + was[128..];
    }

    /** The literal stretch in the first half of a turn of `DecodeRec43`. */
    method DecodeLiteral(p: nat) returns (ok: bool, e: nat)
      requires fCurrentBuffer.Length == BUFFER_SIZE && fFileIO.Valid() && p <= BUFFER_SIZE
      modifies fCurrentBuffer, fFileIO`pos
      ensures fFileIO.Valid()
      ensures ok <==> ReadLiteral(old(fFileIO.Rest()), old(fCurrentBuffer[..]), p).At?
      ensures ok ==> ReadLiteral(old(fFileIO.Rest()), old(fCurrentBuffer[..]), p) == At(fCurrentBuffer[..], e, fFileIO.Rest())
    {
      ghost var input, buf := fFileIO.Rest(), fCurrentBuffer[..];
      if p != 0 {
        ok, e := ReadOffset();
      } else {
        ok, e := fFileIO.ReadByte();
      }
      if !ok || e < p {
        return false, 0;
      }
      LiteralRead(input, buf, p, e);
      ok := ReadLiteralBytes(p, e);
    }

    method ReadLiteralBytes(p: nat, e: nat) returns (ok: bool)
      requires fCurrentBuffer.Length == BUFFER_SIZE && fFileIO.Valid() && p <= e <= BUFFER_SIZE
      modifies fCurrentBuffer, fFileIO`pos
      ensures fFileIO.Valid()
      ensures ok <==> e - p <= |old(fFileIO.Rest())|
      ensures ok ==> fCurrentBuffer[..] == old(fCurrentBuffer[..p]) + old(fFileIO.Rest())[..e - p] + old(fCurrentBuffer[e..])
      ensures ok ==> fFileIO.Rest() == old(fFileIO.Rest())[e - p..]
    {
      ok := true;
      if e != p {
        ok := ReadIntoBuffer(p, e - p);
      } else {
        assert fCurrentBuffer[..p] + [] + fCurrentBuffer[p..] == fCurrentBuffer[..];
      }
    }

    static lemma {:induction false} LiteralRead(input: seq<byte>, buf: Buffer, p: nat, e: nat)
      requires 1 <= |input| && p <= e <= BUFFER_SIZE && e == if p != 0 then Offset(input[0]) else input[0]
      ensures var rest, n := input[1..], e - p;
        ReadLiteral(input, buf, p) == if n <= |rest| then At(buf[..p] + rest[..n] + buf[e..], e, rest[n..]) else Stuck
    {
      AfterFirst(input, e - p);
    }

    static lemma {:induction false} AfterFirst(input: seq<byte>, n: nat)
      requires 1 <= |input|
      ensures n <= |input[1..]| ==> input[1..][..n] == input[1..1 + n] && input[1..][n..] == input[1 + n..]
    {
    }

    /** One turn of the loop of `DecodeRec43`; `p` is where the sector is restored up to. */
    method DecodeTurn43(p: nat) returns (ok: bool, e: nat)
      requires Valid() && fFileIO.Valid() && p <= BUFFER_SIZE
      modifies fCurrentBuffer, fFileIO`pos
      ensures fFileIO.Valid()
      ensures ok <==> Turn43(old(fFileIO.Rest()), old(fCurrentBuffer[..]), p, fSectorSize).At?
      ensures ok ==>
        Turn43(old(fFileIO.Rest()), old(fCurrentBuffer[..]), p, fSectorSize) == At(fCurrentBuffer[..], e, fFileIO.Rest())
    {
      ok, e := DecodeLiteral(p);
      if ok && e < fSectorSize {
        ok, e := DecodeRun(e);
      }
    }

    /** The run in the second half of a turn of `DecodeRec43`. */
    method DecodeRun(p: nat) returns (ok: bool, e: nat)
      requires fCurrentBuffer.Length == BUFFER_SIZE && fFileIO.Valid() && p <= BUFFER_SIZE
      modifies fCurrentBuffer, fFileIO`pos
      ensures fFileIO.Valid()
      ensures ok <==> ReadRun(old(fFileIO.Rest()), old(fCurrentBuffer[..]), p).At?
      ensures ok ==> ReadRun(old(fFileIO.Rest()), old(fCurrentBuffer[..]), p) == At(fCurrentBuffer[..], e, fFileIO.Rest())
    {
      ghost var input := fFileIO.Rest();
      ok, e := ReadOffset();
      if !ok {
        return;
      }
      var c;
      ok, c := fFileIO.ReadByte();
      if !ok || e < p {
        return false, 0;
      }
      FillBuffer(p, c, e - p);
    }

    method DecodeRec43() returns (ok: bool)
      requires Valid() && fFileIO.Valid()
      modifies fCurrentBuffer, fFileIO`pos
      ensures fFileIO.Valid() && Leaves(Decode43(old(fFileIO.Rest()), old(fCurrentBuffer[..]), 0, fSectorSize), ok)
    {
      ghost var d := Decode43(fFileIO.Rest(), fCurrentBuffer[..], 0, fSectorSize);
      var p: nat := 0;
      while true
        invariant fFileIO.Valid() && p <= BUFFER_SIZE
        invariant d == Decode43(fFileIO.Rest(), fCurrentBuffer[..], p, fSectorSize)
        decreases |fFileIO.Rest()|
      {
        ok, p := DecodeTurn43(p);
        if !ok {
          return;
        }
        if p >= fSectorSize {
          break;
        }
      }
    }

    method DecodeRec44() returns (ok: bool)
      requires Valid() && fFileIO.Valid()
      modifies fCurrentBuffer, fFileIO`pos
      ensures fFileIO.Valid() && Leaves(Decode44(old(fFileIO.Rest()), old(fCurrentBuffer[..]), fSectorSize), ok)
    {
      ghost var input := fFileIO.Rest();
      var iOffset;
      ok, iOffset := ReadOffset();
      if !ok || iOffset > fSectorSize {
        return false;
      }
      AfterFirst(input, fSectorSize - iOffset);
      ok := ReadIntoBuffer(iOffset, fSectorSize - iOffset);
    }

    method DecodeRec46() returns (ok: bool)
      requires fCurrentBuffer.Length == BUFFER_SIZE && fFileIO.Valid()
      ensures Leaves(Decoded(fCurrentBuffer[..], fFileIO.Rest()), ok)
    {
      ok := true;
    }

    method DecodeRec47() returns (ok: bool)
      requires Valid() && fFileIO.Valid()
      modifies fCurrentBuffer, fFileIO`pos
      ensures fFileIO.Valid() && Leaves(Decode47(old(fFileIO.Rest()), old(fCurrentBuffer[..]), fSectorSize), ok)
    {
      ok := ReadIntoBuffer(0, fSectorSize);
    }

    /** The dispatch on the record type in `Load`. */
    method DecodeAnyRecord(t: byte) returns (ok: bool)
      requires Valid() && fFileIO.Valid()
      modifies fCurrentBuffer, fFileIO`pos
      ensures fFileIO.Valid() && Leaves(DecodeRecord(t, old(fFileIO.Rest()), old(fCurrentBuffer[..]), fSectorSize), ok)
    {
      if t == CHANGE_BEGIN {
        ok := DecodeRec41();
      } else if t == DOS_SECTOR {
        ok := DecodeRec42();
      } else if t == COMPRESSED {
        ok := DecodeRec43();
      } else if t == CHANGE_END {
        ok := DecodeRec44();
      } else if t == SAME_AS_BEFORE {
        ok := DecodeRec46();
      } else if t == UNCOMPRESSED {
        ok := DecodeRec47();
      } else {
        ok := false;
      }
    }

    // ----------------------------------------------------------------
    // Decoder: passes
    // ----------------------------------------------------------------

    /** The image shares no storage with the sector buffer and may be written. */
    ghost predicate Loading()
      reads this`fCurrentPtr, this`fSectorSize, fImage, fImage.fData, fFileIO
    {
      && Valid() && fFileIO.Valid() && fImage.Valid() && !fImage.writeProtected
      && fImage.fData != fCurrentBuffer && fSectorSize == fImage.config.sectorLength
    }

    /** The state of the decoder is that of `n`. */
    ghost predicate Stands(n: PassTurn)
      requires Loading()
      reads this`fCurrentPtr, this`fSectorSize, this`fCurrentSector, fImage, fImage.fData, fFileIO, fCurrentBuffer
    {
      n == TurnNext(fFileIO.Rest(), fCurrentSector, fCurrentBuffer[..], fImage.Contents())
    }

    /** One turn of the inner loop of `Load`. */
    method LoadRecord() returns (ok: bool, ended: bool)
      requires Loading()
      modifies this`fCurrentSector, fCurrentBuffer, fFileIO`pos, fImage.fData, fImage`sectors
      ensures Loading()
      ensures var n := NextTurn(DcmCodec(fSectorSize), fImage.config, old(fFileIO.Rest()), old(fCurrentSector), old(fCurrentBuffer[..]), old(fImage.Contents()));
        && (ok <==> !n.TurnFailed?) && (ended ==> ok)
        && (ended ==> n == TurnEnd(fFileIO.Rest()) && fCurrentBuffer[..] == old(fCurrentBuffer[..])
                      && fImage.Contents() == old(fImage.Contents()))
        && (ok && !ended ==> Stands(n))
    {
      ghost var n := NextTurn(DcmCodec(fSectorSize), fImage.config, fFileIO.Rest(), fCurrentSector, fCurrentBuffer[..], fImage.Contents());
      ended := false;
      var btBlkType;
      ok, btBlkType := fFileIO.ReadByte();
      if !ok {
        return;
      }
      if btBlkType == PASS_END {
        return true, true;
      }
      if fFileIO.pos >= |fFileIO.data| {
        return false, false;
      }
      ok := LoadAfterType(btBlkType, n);
    }

    /** The rest of the turn, once the type of the record has been read. */
    method LoadAfterType(btBlkType: byte, ghost n: PassTurn) returns (ok: bool)
      requires Loading() && fFileIO.pos < |fFileIO.data| && btBlkType != PASS_END
      requires n == TurnAfter(fImage.config, btBlkType, DecodeRecord(btBlkType % 128, fFileIO.Rest(), fCurrentBuffer[..], fSectorSize),
                              fCurrentSector, fImage.Contents())
      modifies this`fCurrentSector, fCurrentBuffer, fFileIO`pos, fImage.fData, fImage`sectors
      ensures Loading() && (ok <==> !n.TurnFailed?) && (ok ==> Stands(n))
    {
      ok := DecodeAnyRecord(btBlkType % 128);
      if !ok {
        return;
      }
      ok := StoreSector();
      if !ok {
        return;
      }
      if btBlkType >= 128 {
        fCurrentSector := (fCurrentSector + 1) % 0x1_0000;
      } else {
        ok, fCurrentSector := fFileIO.ReadWord();
      }
    }

    /** Writes the front of the sector buffer to the image. */
    method StoreSector() returns (ok: bool)
      requires Loading()
      modifies fImage.fData, fImage`sectors
      ensures Loading() && (ok <==> 1 <= fCurrentSector <= fImage.config.numberOfSectors)
      ensures ok ==>
        fImage.Contents() == old(fImage.Contents())[fCurrentSector - 1 := Front(fCurrentBuffer[..], fImage.config, fCurrentSector)]
    {
      var len := fImage.config.SectorLength(fCurrentSector);
      ok := fImage.WriteSector(fCurrentSector, fCurrentBuffer[..len]);
    }

    static function Front(buf: Buffer, c: Config, sector: nat): seq<byte>
      requires c.sectorLength <= BUFFER_SIZE
    {
      buf[..c.SectorLength(sector)]
    }

    /** The inner loop of `Load`: the records of one pass. */
    method LoadPass() returns (ok: bool)
      requires Loading()
      modifies this`fCurrentSector, fCurrentBuffer, fFileIO`pos, fImage.fData, fImage`sectors
      ensures Loading()
      ensures PassLoaded(DecodePass(DcmCodec(fSectorSize), fImage.config, old(fFileIO.Rest()), old(fCurrentSector),
                                    old(fCurrentBuffer[..]), old(fImage.Contents())), ok)
    {
      ghost var c := fImage.config;
      ghost var r := DecodePass(DcmCodec(fSectorSize), c, fFileIO.Rest(), fCurrentSector, fCurrentBuffer[..], fImage.Contents());
      while true
        invariant Loading() && fImage.config == c
        invariant r == DecodePass(DcmCodec(fSectorSize), c, fFileIO.Rest(), fCurrentSector, fCurrentBuffer[..], fImage.Contents())
        decreases |fFileIO.Rest()|
      {
        var ended;
        ok, ended := LoadRecord();
        if !ok || ended {
          return;
        }
      }
    }

    ghost predicate PassLoaded(r: PassResult, ok: bool)
      requires Loading()
      reads this`fCurrentPtr, this`fSectorSize, fImage, fImage.fData, fFileIO, fCurrentBuffer
    {
      (ok <==> r.PassDone?) && (ok ==> r == PassDone(fFileIO.Rest(), fCurrentBuffer[..], fImage.Contents()))
    }

    // ----------------------------------------------------------------
    // Decoder: the file
    // ----------------------------------------------------------------

    ghost predicate Separate()
      reads this`fCurrentPtr, this`fSectorSize, this`fAlreadyFormatted, fImage, fImage.fData, fFileIO
    {
      && Valid() && fFileIO.Valid() && fImage.fData != fCurrentBuffer
      && (fAlreadyFormatted ==> Loading() && IsDcmConfig(fImage.config))
    }

    /** What `Load` has formatted and restored so far. */
    ghost function Formatted(): (d: Option<Disk>)
      requires Separate()
      reads this`fCurrentPtr, this`fSectorSize, this`fAlreadyFormatted, fImage, fImage.fData, fFileIO
    {
      if fAlreadyFormatted then Some(Disk(fImage.config, fImage.Contents())) else None
    }

    /** `DecodeRecFA`: the rest of a pass header, after its first byte. */
    method DecodeRecFA() returns (ok: bool)
      requires Separate()
      modifies this`fSectorSize, this`fCurrentSector, this`fLastPassFlag, this`fAlreadyFormatted, fImage, fFileIO`pos
      ensures Separate() && (fImage.fData == old(fImage.fData) || fresh(fImage.fData))
      ensures ok <==> |old(fFileIO.Rest())| >= 3 && FormatOfDensity(old(fFileIO.Rest())[0] / 32 % 4).Some?
      ensures ok ==>
        && fAlreadyFormatted && fFileIO.Rest() == old(fFileIO.Rest())[3..]
        && fCurrentSector == WordValue(old(fFileIO.Rest())[1..])
        && fLastPassFlag == (old(fFileIO.Rest())[0] >= 128)
        && Formatted() == Some(FormattedFor(FormatOfDensity(old(fFileIO.Rest())[0] / 32 % 4).value, old(Formatted())))
    {
      var btPom;
      ok, btPom := fFileIO.ReadByte();
      if !ok {
        return;
      }
      fLastPassFlag := btPom >= 128;
      var dformat := FormatOfDensity(btPom / 32 % 4);
      if dformat.None? {
        return false;
      }
      if !fAlreadyFormatted {
        FormatImage(dformat.value);
      }
      ok, fCurrentSector := fFileIO.ReadWord();
    }

    method FormatImage(format: DiskFormat)
      requires Separate() && IsDcmConfig(StandardConfig(format))
      modifies this`fSectorSize, this`fAlreadyFormatted, fImage
      ensures Separate() && fAlreadyFormatted && fresh(fImage.fData)
      ensures Formatted() == Some(FormattedFor(format, None))
    {
      var ok := fImage.CreateImage(format);
      fSectorSize := fImage.config.sectorLength;
      fAlreadyFormatted := true;
    }

    /** The archive type and the header of a pass. */
    method LoadHeader() returns (ok: bool)
      requires Separate()
      modifies this`fSectorSize, this`fCurrentSector, this`fLastPassFlag, this`fAlreadyFormatted, fImage, fFileIO`pos
      ensures Separate() && (fImage.fData == old(fImage.fData) || fresh(fImage.fData))
      ensures var input := old(fFileIO.Rest());
        && (ok <==> |input| >= 4 && input[0] in {HEADER_SINGLE, HEADER_MULTI} && FormatOfDensity(input[1] / 32 % 4).Some?)
        && (ok ==> fAlreadyFormatted && fFileIO.Rest() == input[4..] && fCurrentSector == WordValue(input[2..]))
        && (ok ==> fLastPassFlag == (input[1] >= 128))
        && (ok ==> Formatted() == Some(FormattedFor(FormatOfDensity(input[1] / 32 % 4).value, old(Formatted()))))
    {
      ghost var input := fFileIO.Rest();
      var btArcType;
      ok, btArcType := fFileIO.ReadByte();
      if !ok || (btArcType != HEADER_SINGLE && btArcType != HEADER_MULTI) {
        return false;
      }
      HeaderParts(input);
      ok := DecodeRecFA();
    }

    /** One turn of the outer loop of `Load`: a whole pass with its header. */
    method LoadHeaderAndPass() returns (ok: bool)
      requires Separate()
      modifies this`fSectorSize, this`fCurrentSector, this`fLastPassFlag, this`fAlreadyFormatted
      modifies fImage, fImage.fData, fCurrentBuffer, fFileIO`pos
      ensures Separate() && (fImage.fData == old(fImage.fData) || fresh(fImage.fData))
      ensures ok ==> fAlreadyFormatted
      ensures var t := NextPass(old(fFileIO.Rest()), old(Formatted()), old(fCurrentBuffer[..]));
        && (ok <==> t.Some?)
        && (ok ==> t == Some(PassRead(fFileIO.Rest(), fLastPassFlag, fCurrentBuffer[..], Formatted().value)))
    {
      ok := LoadHeader();
      if ok {
        ok := LoadPass();
      }
    }

    /** `DCMCodec::Load`. */
    method Load() returns (ok: bool)
      requires Valid() && fImage.fData != fCurrentBuffer
      modifies this, fImage, fImage.fData, fCurrentBuffer, fFileIO
      ensures var d := DecodeFile(old(fFileIO.data), None, old(fCurrentBuffer[..]));
        && (ok <==> d.Some?)
        && (ok ==> fImage.Valid() && d == Some(Disk(fImage.config, fImage.Contents())))
    {
      ghost var d := DecodeFile(fFileIO.data, None, fCurrentBuffer[..]);
      fAlreadyFormatted := false;
      fLastPassFlag := false;
      fCurrentSector := 0;
      fFileIO.OpenRead();
      while true
        invariant Separate() && (fImage.fData == old(fImage.fData) || fresh(fImage.fData))
        invariant d == DecodeFile(fFileIO.Rest(), Formatted(), fCurrentBuffer[..])
        decreases |fFileIO.Rest()|
      {
        ok := LoadHeaderAndPass();
        if !ok || fLastPassFlag {
          return;
        }
      }
    }

    static lemma {:induction false} HeaderParts(input: seq<byte>)
      requires |input| >= 1
      ensures |input| >= 4 ==> input[1..][1..] == input[2..] && input[1..][3..] == input[4..]
    {
    }
  }

  /**
   Saving an image to a file and loading that file, with any codec object and
   into any image object, restores layout and contents.
   */
  method SaveThenLoad(saver: DCMCodec, loader: DCMCodec) returns (saved: bool, loaded: bool)
    requires saver.Valid() && loader.Valid() && saver.fFileIO == loader.fFileIO && saver != loader
    requires saver.fImage.Valid() && saver.fImage.config.sectorLength <= BUFFER_SIZE
    requires saver.fImage != loader.fImage && saver.fImage.fData != loader.fImage.fData
    requires {saver.fCurrentBuffer, saver.fPrevBuffer, saver.fPassBuffer, saver.fImage.fData}
          !! {loader.fCurrentBuffer, loader.fImage.fData}
    requires saver.fImage.fData !in {saver.fCurrentBuffer, saver.fPrevBuffer, saver.fPassBuffer}
    requires loader.fImage.fData != loader.fCurrentBuffer
    modifies saver, saver.fCurrentBuffer, saver.fPrevBuffer, saver.fPassBuffer, saver.fFileIO
    modifies loader, loader.fImage, loader.fImage.fData, loader.fCurrentBuffer
    ensures saved <==> old(saver.fImage.config.format) in {Disk90k, Disk130k, Disk180k}
    ensures saved ==> loaded && loader.fImage.Valid()
    ensures saved ==> loader.fImage.config == old(saver.fImage.config)
    ensures saved ==> loader.fImage.Contents() == old(saver.fImage.Contents())
  {
    saved := saver.Save();
    loaded := false;
    if saved {
      DcmRoundTrip.DcmRoundTrip(saver.fImage.config, saver.fImage.Contents(), loader.fCurrentBuffer[..]);
      loaded := loader.Load();
    }
  }
}
