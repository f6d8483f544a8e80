/**
 File level of the DCM codec: how `DCMCodec::Save` splits an image into passes
 of linked records, and what `DCMCodec::Load` makes of any file.
 */
module DcmArchive {
  import opened Bytes
  import opened AtrImage
  import opened DcmRecords

  const HEADER_SINGLE: byte := 0xFA
  const HEADER_MULTI: byte := 0xF9

  /** `Save` closes a pass once the pass buffer has reached this length. */
  const PASS_LIMIT := 0x5EFD
  /** `Save` gives up on a pass longer than this. */
  const PASS_MAX := 0x6000
  const PASS_HEADER := 4

  /** The three layouts the format knows: 90k, 130k and 180k. */
  predicate IsDcmConfig(c: Config) {
    (c.format.Disk90k? || c.format.Disk130k? || c.format.Disk180k?) && c == StandardConfig(c.format)
  }

  // ------------------------------------------------------------------
  // Records, seen from the file level
  // ------------------------------------------------------------------

  /**
   A record codec: how one sector buffer of `size` bytes becomes a record and
   back.  The file level does not depend on how records are coded.
   */
  datatype Codec = Codec(
    size: nat,
    encode: (bool, seq<byte>, seq<byte>) -> seq<byte>,
    decode: (byte, seq<byte>, Buffer) -> Decoded)
  {
    ghost predicate Sound() {
      && 1 < size <= BUFFER_SIZE
      && Terminates()
      && (forall first, cur, prev :: |cur| == |prev| == size ==> IsRecord(encode(first, cur, prev)))
      && (forall first, cur, prev, buf: Buffer, tail ::
            |cur| == |prev| == size && (first || buf[..size] == prev) ==>
              RestoresOver(encode(first, cur, prev), cur, buf, tail))
    }

    ghost predicate Terminates() {
      forall t: byte, input: seq<byte>, buf: Buffer ::
        decode(t, input, buf).Decoded? ==> |decode(t, input, buf).rest| <= |input|
    }

    predicate IsRecord(r: seq<byte>) {
      0 < |r| <= size + 1 && r[0] < 128 && r[0] != PASS_END
    }

    /** Record `r`, followed by anything, is read over `buf` as the sector `cur`, and no byte more is consumed. */
    predicate RestoresOver(r: seq<byte>, cur: seq<byte>, buf: Buffer, tail: seq<byte>) {
      |cur| <= BUFFER_SIZE && |r| > 0 && decode(r[0], r[1..] + tail, buf) == Decoded(Over(cur, buf), tail)
    }
  }

  /** The sector `cur` at the front of the buffer, the rest of the buffer as it was. */
  function Over(cur: seq<byte>, buf: Buffer): (b: Buffer)
    requires |cur| <= BUFFER_SIZE
    ensures b[..|cur|] == cur
  {
    cur + buf[|cur|..]
  }

  /** The record `Save` writes for a sector that is not empty. */
  function RecordFor(first: bool, cur: seq<byte>, prev: seq<byte>): seq<byte> {
    if |cur| != |prev| || |cur| < 2 || |cur| > BUFFER_SIZE then []
    else if !first && prev == cur then [SAME_AS_BEFORE]
    else BestRecord(first, cur, prev)
  }

  /** The codec of `DCMCodec.cpp` for sector buffers of the given size. */
  function DcmCodec(size: nat): (k: Codec)
    requires size <= BUFFER_SIZE
    ensures k.size == size
    ensures k.Terminates()
  {
    Codec(size, RecordFor, (t: byte, input: seq<byte>, buf: Buffer) => DecodeRecord(t, input, buf, size))
  }

  lemma {:induction false} RecordReadsBack(first: bool, cur: seq<byte>, prev: seq<byte>, buf: Buffer, tail: seq<byte>)
    requires 1 < |cur| == |prev| <= BUFFER_SIZE
    requires first || buf[..|cur|] == prev
    ensures ReadsBack(RecordFor(first, cur, prev), cur, buf, tail)
    ensures |RecordFor(first, cur, prev)| <= |cur| + 1
  {
    if !first && prev == cur {
      assert buf == cur + buf[|cur|..];
      assert [SAME_AS_BEFORE][1..] + tail == tail;
    } else {
      BestRecordRoundTrip(first, cur, prev, buf, tail);
    }
  }

  /** The records of `DCMCodec.cpp` are sound: each reads back as the sector it was made from. */
  lemma {:induction false} DcmCodecSound(size: nat)
    requires 1 < size <= BUFFER_SIZE
    ensures DcmCodec(size).Sound()
  {
    var k := DcmCodec(size);
    forall first, cur: seq<byte>, prev: seq<byte>, buf: Buffer, tail
      | |cur| == |prev| == size && (first || buf[..size] == prev)
      ensures k.RestoresOver(k.encode(first, cur, prev), cur, buf, tail)
    {
      RecordReadsBack(first, cur, prev, buf, tail);
    }
    forall first, cur: seq<byte>, prev: seq<byte> | |cur| == |prev| == size
      ensures k.IsRecord(k.encode(first, cur, prev))
    {
      RecordReadsBack(first, cur, prev, Over(prev, Zeros(BUFFER_SIZE)), []);
    }
  }

  // ------------------------------------------------------------------
  // Encoder
  // ------------------------------------------------------------------

  /** One record of a pass: the sector it belongs to and its bytes, type byte first, bit 7 clear. */
  datatype Item = Item(sector: nat, rec: seq<byte>)

  type Items = s: seq<Item> | forall i :: 0 <= i < |s| ==> |s[i].rec| > 0 && s[i].rec[0] < 128

  function Last<T>(s: seq<T>): T
    requires |s| > 0
  {
    s[|s| - 1]
  }

  /** Bit 7 of a type byte says that the next record belongs to the next sector. */
  function Flag(rec: seq<byte>): (r: seq<byte>)
    requires |rec| > 0 && rec[0] < 128
    ensures |r| == |rec|
  {
    rec[0 := rec[0] + 128]
  }

  /** A record together with its link to the sector `next`. */
  function Closed(x: Item, next: nat): seq<byte>
    requires |x.rec| > 0 && x.rec[0] < 128
  {
    if next == x.sector + 1 then Flag(x.rec) else x.rec + Word(next)
  }

  /** The bytes of a pass up to its last record. */
  function Before(items: Items): seq<byte>
    requires |items| > 0
    decreases |items|, 0
  {
    if |items| == 1 then [] else Linked(items[..|items| - 1], Last(items).sector)
  }

  /** All records of a pass, the last one linked to `next`. */
  function Linked(items: Items, next: nat): seq<byte>
    requires |items| > 0
    decreases |items|, 1
  {
    Before(items) + Closed(Last(items), next)
  }

  /** All records of a pass, the last one not linked yet. */
  function Pending(items: Items): seq<byte> {
    if items == [] then [] else Before(items) + Last(items).rec
  }

  /** Where the encoder stands: the next sector, the records of this pass, the last sector coded. */
  datatype PassState = PassState(sector: nat, items: Items, prev: seq<byte>)

  function Padded(s: seq<byte>, size: nat): (p: seq<byte>)
    requires |s| <= size
    ensures |p| == size && p[..|s|] == s
  {
    s + Zeros(size - |s|)
  }

  ghost predicate CanEncode(k: Codec, c: Config, img: Sectors) {
    k.Sound() && k.size == c.sectorLength && IsDcmConfig(c) && WellSized(c, img)
  }

  ghost predicate CanStep(k: Codec, c: Config, img: Sectors, st: PassState) {
    && CanEncode(k, c, img)
    && 1 <= st.sector <= c.numberOfSectors + 1
    && |st.prev| == k.size
  }

  /** One sector: skipped when it is empty, else appended to the pass. */
  function Step(k: Codec, c: Config, img: Sectors, st: PassState): (n: PassState)
    requires CanStep(k, c, img, st) && st.sector <= c.numberOfSectors
    ensures CanStep(k, c, img, n)
  {
    var s := img[st.sector - 1];
    if AllZero(s) then st.(sector := st.sector + 1)
    else
      var cur := Padded(s, k.size);
      var item := Item(st.sector, k.encode(st.items == [], cur, st.prev));
      assert k.IsRecord(item.rec);
      PassState(st.sector + 1, st.items + [item], cur)
  }

  predicate PassFull(items: Items) {
    PASS_HEADER + |Pending(items)| >= PASS_LIMIT
  }

  function FillPass(k: Codec, c: Config, img: Sectors, st: PassState): (n: PassState)
    requires CanStep(k, c, img, st)
    ensures CanStep(k, c, img, n)
    ensures n.sector >= st.sector
    ensures !PassFull(st.items) && st.sector <= c.numberOfSectors ==> n.sector > st.sector
    ensures PassFull(n.items) || n.sector > c.numberOfSectors
    decreases c.numberOfSectors + 1 - st.sector
  {
    if PassFull(st.items) || st.sector > c.numberOfSectors then st
    else FillPass(k, c, img, Step(k, c, img, st))
  }

  function Density(c: Config): (d: nat)
    ensures d < 3
  {
    if c.format.Disk90k? then 0 else if c.format.Disk180k? then 1 else 2
  }

  function HeaderType(last: bool, pass: nat, density: nat): byte
    requires density < 3
  {
    (if last then 128 else 0) + 32 * density + pass % 32
  }

  function Header(last: bool, pass: nat, density: nat, first: nat): (h: seq<byte>)
    requires density < 3
    ensures |h| == PASS_HEADER
  {
    [HEADER_SINGLE, HeaderType(last, pass, density)] + Word(first)
  }

  function FirstSector(items: Items): nat {
    if items == [] then 0 else items[0].sector
  }

  /** All records of a pass; the last one is marked as if the next sector followed. */
  function PassBody(items: Items): seq<byte> {
    if items == [] then [] else Linked(items, Last(items).sector + 1)
  }

  /** A whole pass as written to the file. */
  function PassBytes(last: bool, pass: nat, density: nat, items: Items): seq<byte>
    requires density < 3
  {
    Header(last, pass, density, FirstSector(items)) + PassBody(items) + [PASS_END]
  }

  function EncodePasses(k: Codec, c: Config, img: Sectors, sector: nat, prev: seq<byte>, pass: nat): seq<byte>
    requires CanStep(k, c, img, PassState(sector, [], prev))
    decreases c.numberOfSectors + 1 - sector
  {
    if sector > c.numberOfSectors then []
    else
      var st := FillPass(k, c, img, PassState(sector, [], prev));
      PassBytes(st.sector > c.numberOfSectors, pass, Density(c), st.items)
        + EncodePasses(k, c, img, st.sector, st.prev, pass + 1)
  }

  /** The file `Save` writes. */
  function EncodeFile(c: Config, img: Sectors): seq<byte>
    requires IsDcmConfig(c) && WellSized(c, img)
  {
    DcmCodecSound(c.sectorLength);
    EncodePasses(DcmCodec(c.sectorLength), c, img, 1, Zeros(c.sectorLength), 1)
  }

  // ------------------------------------------------------------------
  // Decoder
  // ------------------------------------------------------------------

  /** What one turn of the inner loop of `Load` comes to. */
  datatype PassTurn =
    | TurnFailed
    | TurnEnd(rest: seq<byte>)
    | TurnNext(rest: seq<byte>, sector: nat, buffer: Buffer, img: Sectors)

  /** One record: `sector` is where it goes. */
  function NextTurn(k: Codec, c: Config, input: seq<byte>, sector: nat, buf: Buffer, img: Sectors): (t: PassTurn)
    requires k.Terminates() && c.sectorLength <= BUFFER_SIZE && |img| == c.numberOfSectors
    ensures t.TurnNext? ==> |t.rest| < |input| && |t.img| == |img|
    ensures t.TurnEnd? ==> |t.rest| < |input|
  {
    if |input| == 0 then TurnFailed
    else if input[0] == PASS_END then TurnEnd(input[1..])
    else if |input| == 1 then TurnFailed
    else TurnAfter(c, input[0], k.decode(input[0] % 128, input[1..], buf), sector, img)
  }

  /** The sector is stored, and the next one is the one behind it or named by the file. */
  function TurnAfter(c: Config, t: byte, d: Decoded, sector: nat, img: Sectors): (n: PassTurn)
    requires c.sectorLength <= BUFFER_SIZE && |img| == c.numberOfSectors
    ensures n.TurnNext? ==> d.Decoded? && |n.rest| <= |d.rest| && |n.img| == |img|
    ensures !n.TurnEnd?
  {
    match d
    case Failed => TurnFailed
    case Decoded(buf2, rest) =>
      if sector == 0 || sector > c.numberOfSectors then TurnFailed
      else
        var img2 := img[sector - 1 := buf2[..c.SectorLength(sector)]];
        if t >= 128 then TurnNext(rest, (sector + 1) % 0x1_0000, buf2, img2)
        else if |rest| < 2 then TurnFailed
        else TurnNext(rest[2..], WordValue(rest), buf2, img2)
  }

  datatype PassResult = PassFailed | PassDone(rest: seq<byte>, buffer: Buffer, img: Sectors)

  /** The records of one pass. */
  function DecodePass(k: Codec, c: Config, input: seq<byte>, sector: nat, buf: Buffer, img: Sectors): (r: PassResult)
    requires k.Terminates() && c.sectorLength <= BUFFER_SIZE && |img| == c.numberOfSectors
    ensures r.PassDone? ==> |r.rest| < |input| && |r.img| == |img|
    decreases |input|
  {
    match NextTurn(k, c, input, sector, buf, img)
    case TurnFailed => PassFailed
    case TurnEnd(rest) => PassDone(rest, buf, img)
    case TurnNext(rest, sector2, buf2, img2) => DecodePass(k, c, rest, sector2, buf2, img2)
  }

  function FormatOfDensity(density: nat): (f: Option<DiskFormat>)
    ensures f.Some? ==> IsDcmConfig(StandardConfig(f.value))
  {
    if density == 0 then Some(Disk90k)
    else if density == 1 then Some(Disk180k)
    else if density == 2 then Some(Disk130k)
    else None
  }

  datatype Disk = Disk(config: Config, sectors: Sectors)

  ghost predicate IsDcmDisk(d: Disk) {
    IsDcmConfig(d.config) && |d.sectors| == d.config.numberOfSectors
  }

  /** The disk a pass is decoded into: the one there is, or a blank one of the format its header names. */
  function FormattedFor(format: DiskFormat, formatted: Option<Disk>): Disk {
    if formatted.Some? then formatted.value
    else Disk(StandardConfig(format), BlankSectors(StandardConfig(format)))
  }

  /** What is left to read after a pass, whether it was the last one, and what has been restored. */
  datatype PassRead = PassRead(rest: seq<byte>, last: bool, buffer: Buffer, disk: Disk)

  /** One pass with its header, given what has been formatted so far and the sector buffer. */
  function NextPass(input: seq<byte>, formatted: Option<Disk>, buf: Buffer): (t: Option<PassRead>)
    requires formatted.Some? ==> IsDcmDisk(formatted.value)
    ensures t.Some? ==> |t.value.rest| < |input| && IsDcmDisk(t.value.disk)
  {
    if |input| < 4 || (input[0] != HEADER_SINGLE && input[0] != HEADER_MULTI) then None
    else
      match FormatOfDensity(input[1] / 32 % 4)
      case None => None
      case Some(format) =>
        var disk := FormattedFor(format, formatted);
        match DecodePass(DcmCodec(disk.config.sectorLength), disk.config, input[4..], WordValue(input[2..]), buf, disk.sectors)
        case PassFailed => None
        case PassDone(rest, buf2, img) => Some(PassRead(rest, input[1] >= 128, buf2, Disk(disk.config, img)))
  }

  /** What `Load` makes of a file. */
  function DecodeFile(input: seq<byte>, formatted: Option<Disk>, buf: Buffer): Option<Disk>
    requires formatted.Some? ==> IsDcmDisk(formatted.value)
    decreases |input|
  {
    match NextPass(input, formatted, buf)
    case None => None
    case Some(t) => if t.last then Some(t.disk) else DecodeFile(t.rest, Some(t.disk), t.buffer)
  }
}
