/** The ATP file format: sectors with positions on their tracks (`AtpSector`, `AtpTrack`, `AtpImage`). */
module AtpFormat {
  import opened Bytes
  import opened AtpChunks

  datatype Density = FM | MFM

  datatype AtpSector = AtpSector(id: nat, data: seq<byte>, position: nat, timeLength: nat, status: byte)

  datatype Track = Track(number: nat, density: Density, sectors: seq<AtpSector>)

  datatype Image = Image(tracks: seq<Track>, writeProtected: bool)

  /** One rotation of the disk, in microseconds. */
  const ROTATION := 208333

  // ------------------------------------------------------------------
  // Sectors
  // ------------------------------------------------------------------

  /** `BuildSectorChunk`. */
  function SectorData(f: Format, s: AtpSector): seq<byte> {
    f.dword(s.id) + f.dword(|s.data|) + [s.status] + s.data
  }

  function SectorChunk(f: Format, s: AtpSector): seq<byte> {
    f.chunk(SECT, SectorData(f, s))
  }

  /** What the format accepts as a sector. */
  predicate SectorOk(s: AtpSector) {
    1 <= s.id <= 26 && |s.data| == 128
  }

  /** `InitFromSectorChunk`. */
  function ReadSector(f: Format, s: seq<byte>): (r: Option<AtpSector>)
    ensures r.Some? ==> SectorOk(r.value) && r.value.position == 0 && r.value.timeLength == 0
  {
    match f.readDword(s)
    case None => None
    case Some((id, s1)) =>
      if id < 1 || id > 26 then None
      else
        match f.readDword(s1)
        case None => None
        case Some((length, s2)) =>
          if length != 128 || |s2| < 129 then None
          else Some(AtpSector(id, s2[1..129], 0, 0, s2[0]))
  }

  /** A sector without its timing, which is in another part of the file. */
  function Untimed(s: AtpSector): AtpSector {
    s.(position := 0, timeLength := 0)
  }

  // ------------------------------------------------------------------
  // Tracks
  // ------------------------------------------------------------------

  /** Where `AddSector` inserts: behind all sectors whose position is not greater. */
  function InsertionPoint(sectors: seq<AtpSector>, position: nat, i: nat): (k: nat)
    requires i <= |sectors|
    ensures i <= k <= |sectors|
    decreases |sectors| - i
  {
    if i < |sectors| && sectors[i].position <= position then InsertionPoint(sectors, position, i + 1) else i
  }

  function AddSector(sectors: seq<AtpSector>, s: AtpSector): (r: seq<AtpSector>)
    ensures |r| == |sectors| + 1
  {
    var k := InsertionPoint(sectors, s.position, 0);
    sectors[..k] + [s] + sectors[k..]
  }

  function SectorChunks(f: Format, sectors: seq<AtpSector>): seq<byte>
    decreases |sectors|
  {
    if sectors == [] then [] else SectorChunk(f, sectors[0]) + SectorChunks(f, sectors[1..])
  }

  function DensityCode(d: Density): nat {
    if d.FM? then 0 else 1
  }

  /** `BuildTrackChunk`. */
  function TrackData(f: Format, t: Track): seq<byte> {
    f.dword(t.number) + f.dword(|t.sectors|) + f.dword(DensityCode(t.density)) + SectorChunks(f, t.sectors)
  }

  /** The loop of `InitFromTRAKChunk`; its counter is a byte. */
  function ReadSectors(f: Format, s: seq<byte>, n: nat, i: byte, sectors: seq<AtpSector>): (r: Option<seq<AtpSector>>)
    requires Shrinks(f)
    decreases |s|
  {
    if i >= n then Some(sectors)
    else
      match f.findChunk(s, SECT)
      case None => None
      case Some(o) =>
        match ReadSector(f, o.data)
        case None => None
        case Some(sector) => ReadSectors(f, o.rest, n, (i + 1) % 256, AddSector(sectors, sector))
  }

  /** `InitFromTRAKChunk`. */
  function ReadTrack(f: Format, s: seq<byte>): Option<Track>
    requires Shrinks(f)
  {
    match f.readDword(s)
    case None => None
    case Some((number, s1)) =>
      match f.readDword(s1)
      case None => None
      case Some((n, s2)) =>
        match f.readDword(s2)
        case None => None
        case Some((density, s3)) =>
          match ReadSectors(f, s3, n, 0, [])
          case None => None
          case Some(sectors) => Some(Track(number, if density == 1 then MFM else FM, sectors))
  }

  /** `BuildTrackTimingChunk`. */
  function Timings(f: Format, sectors: seq<AtpSector>): seq<byte>
    decreases |sectors|
  {
    if sectors == [] then [] else f.dword(sectors[0].position) + f.dword(sectors[0].timeLength) + Timings(f, sectors[1..])
  }

  function TimingData(f: Format, t: Track): seq<byte> {
    f.dword(t.number) + f.dword(|t.sectors|) + Timings(f, t.sectors)
  }

  /** The loop of `SetTimingInformationFromTTI1Chunk`; `last` is the position before, if there is one. */
  function ReadTimings(f: Format, s: seq<byte>, sectors: seq<AtpSector>, last: Option<nat>): (r: Option<seq<AtpSector>>)
    ensures r.Some? ==> |r.value| == |sectors|
    decreases |sectors|
  {
    if sectors == [] then Some([])
    else
      match f.readDword(s)
      case None => None
      case Some((position, s1)) =>
        if position >= ROTATION || (last.Some? && position <= last.value) then None
        else
          match f.readDword(s1)
          case None => None
          case Some((length, s2)) =>
            if length >= ROTATION then None
            else
              match ReadTimings(f, s2, sectors[1..], Some(position))
              case None => None
              case Some(rest) => Some([sectors[0].(position := position, timeLength := length)] + rest)
  }

  /** `SetTimingInformationFromTTI1Chunk`. */
  function ReadTrackTiming(f: Format, s: seq<byte>, t: Track): Option<Track> {
    match f.readDword(s)
    case None => None
    case Some((number, s1)) =>
      if number != t.number then None
      else
        match f.readDword(s1)
        case None => None
        case Some((n, s2)) =>
          if n != |t.sectors| then None
          else
            match ReadTimings(f, s2, t.sectors, None)
            case None => None
            case Some(sectors) => Some(t.(sectors := sectors))
  }

  // ------------------------------------------------------------------
  // Images
  // ------------------------------------------------------------------

  function TrackChunks(f: Format, tracks: seq<Track>): seq<byte>
    decreases |tracks|
  {
    if tracks == [] then [] else f.chunk(TRAK, TrackData(f, tracks[0])) + TrackChunks(f, tracks[1..])
  }

  function TimingChunks(f: Format, tracks: seq<Track>): seq<byte>
    decreases |tracks|
  {
    if tracks == [] then [] else f.chunk(TTI1, TimingData(f, tracks[0])) + TimingChunks(f, tracks[1..])
  }

  /** `BuildHeaderChunk`. */
  function HeaderData(f: Format, im: Image): seq<byte> {
    f.dword(|im.tracks|) + f.dword(if im.writeProtected then 1 else 0)
  }

  function ImageData(f: Format, im: Image): seq<byte> {
    f.chunk(INFO, HeaderData(f, im)) + TrackChunks(f, im.tracks)
  }

  /** What is in the outermost chunk. */
  function FormData(f: Format, im: Image): seq<byte> {
    f.chunk(ATP1, ImageData(f, im))
    + (f.chunk(CRC1, f.dword(f.sum(ImageData(f, im))))
       + f.chunk(TIM1, f.dword(|im.tracks|) + TimingChunks(f, im.tracks)))
  }

  /** `WriteImageToFile`. */
  function WriteImage(f: Format, im: Image): seq<byte> {
    f.chunk(FORM, FormData(f, im))
  }

  /** The loop over the TRAK chunks; track numbers must count up from `i`. */
  function ReadTracks(f: Format, s: seq<byte>, n: nat, i: nat): (r: Option<seq<Track>>)
    requires Shrinks(f)
    requires i <= n
    ensures r.Some? ==> |r.value| == n - i
    decreases n - i
  {
    if i == n then Some([])
    else
      match f.findChunk(s, TRAK)
      case None => None
      case Some(o) =>
        match ReadTrack(f, o.data)
        case None => None
        case Some(t) =>
          if t.number != i then None
          else
            match ReadTracks(f, o.rest, n, i + 1)
            case None => None
            case Some(rest) => Some([t] + rest)
  }

  function ReadTrackTimings(f: Format, s: seq<byte>, tracks: seq<Track>): (r: Option<seq<Track>>)
    ensures r.Some? ==> |r.value| == |tracks|
    decreases |tracks|
  {
    if tracks == [] then Some([])
    else
      match f.findChunk(s, TTI1)
      case None => None
      case Some(o) =>
        match ReadTrackTiming(f, o.data, tracks[0])
        case None => None
        case Some(t) =>
          match ReadTrackTimings(f, o.rest, tracks[1..])
          case None => None
          case Some(rest) => Some([t] + rest)
  }

  /** The header and the tracks; the number of tracks is cut to a byte. */
  function ReadUntimed(f: Format, s: seq<byte>): Option<Image>
    requires Shrinks(f)
  {
    match f.findChunk(s, INFO)
    case None => None
    case Some(info) =>
      match f.readDword(info.data)
      case None => None
      case Some((n, s1)) =>
        match f.readDword(s1)
        case None => None
        case Some((flags, _)) =>
          match ReadTracks(f, info.rest, n % 256, 0)
          case None => None
          case Some(tracks) => Some(Image(tracks, flags % 2 == 1))
  }

  function ReadTimingPart(f: Format, s: seq<byte>, im: Image): Option<Image> {
    match f.findChunk(s, TIM1)
    case None => None
    case Some(tim) =>
      match f.readDword(tim.data)
      case None => None
      case Some((n, s1)) =>
        if n != |im.tracks| then None
        else
          match ReadTrackTimings(f, s1, im.tracks)
          case None => None
          case Some(tracks) => Some(im.(tracks := tracks))
  }

  /** The checksum of the image chunk must be the one that was stored. */
  function ReadChecked(f: Format, s: seq<byte>, data: seq<byte>, im: Image): Option<Image> {
    match f.findChunk(s, CRC1)
    case None => None
    case Some(crc) =>
      match f.readDword(crc.data)
      case None => None
      case Some((sum, _)) => if sum != f.sum(data) then None else ReadTimingPart(f, crc.rest, im)
  }

  /** `ReadImageFromFile`. */
  function ReadImage(f: Format, s: seq<byte>): Option<Image>
    requires Shrinks(f)
  {
    match f.findChunk(s, FORM)
    case None => None
    case Some(form) =>
      match f.findChunk(form.data, ATP1)
      case None => None
      case Some(atp) =>
        match ReadUntimed(f, atp.data)
        case None => None
        case Some(im) => ReadChecked(f, atp.rest, atp.data, im)
  }

  // ------------------------------------------------------------------
  // What the format can hold
  // ------------------------------------------------------------------

  predicate Rising(sectors: seq<AtpSector>) {
    forall i, j :: 0 <= i < j < |sectors| ==> sectors[i].position < sectors[j].position
  }

  predicate TrackOk(t: Track, i: nat) {
    && t.number == i && |t.sectors| <= 255 && Rising(t.sectors)
    && forall k :: 0 <= k < |t.sectors| ==> SectorOk(t.sectors[k]) && t.sectors[k].position < 208333 && t.sectors[k].timeLength < 208333
  }

  /** The images the format can hold. */
  predicate ImageOk(im: Image) {
    |im.tracks| <= 255 && forall i :: 0 <= i < |im.tracks| ==> TrackOk(im.tracks[i], i)
  }
}
