/**
 Files as chains of linked sectors: `WriteBufferToImage` lays one down, and
 `WriteAtariFileToDisk` follows one.
 */
module Dos2xChain {
  import opened Bytes
  import opened AtrImage
  import opened Dos2xVolume

  /** The data bytes of one sector; three bytes hold the link and the length. */
  function Payload(v: Volume): nat
    requires v.Legal()
  {
    v.seclen - 3
  }

  /** The sectors a file needs; an empty file needs one. */
  function FileSectors(v: Volume, length: nat): (n: nat)
    requires v.Legal()
    ensures n >= 1
  {
    var n := if v.seclen == 128 then (length + 124) / 125 else (length + 252) / 253;
    if n == 0 then 1 else n
  }

  /** Each sector but the last is full. */
  lemma {:induction false} FileSectorsStep(v: Volume, length: nat)
    requires v.Legal()
    ensures length <= Payload(v) <==> FileSectors(v, length) == 1
    ensures length > Payload(v) ==> FileSectors(v, length) == 1 + FileSectors(v, length - Payload(v))
  {
  }

  // ------------------------------------------------------------------
  // Writing
  // ------------------------------------------------------------------

  /** The two link bytes, high byte first. Short links share them with the entry number. */
  function Link(v: Volume, next: nat, entry: nat): (l: seq<byte>)
    requires v.Legal() && next < 0x1_0000 && entry < 64
    ensures |l| == 2
  {
    if v.Link16() then [next / 256, next % 256]
    else [next % 1024 / 256 + 4 * entry, next % 256]
  }

  function ChainSector(v: Volume, piece: seq<byte>, next: nat, entry: nat): (s: seq<byte>)
    requires v.Legal() && |piece| <= Payload(v) && next < 0x1_0000 && entry < 64
    ensures |s| == v.seclen
  {
    piece + Zeros(Payload(v) - |piece|) + Link(v, next, entry) + [|piece|]
  }

  predicate InRange(v: Volume, s: nat) {
    4 <= s <= v.numsec
  }

  predicate AllInRange(v: Volume, sectors: seq<nat>) {
    forall i :: 0 <= i < |sectors| ==> InRange(v, sectors[i])
  }

  predicate Distinct<T(==)>(s: seq<T>) {
    forall i, j :: 0 <= i < j < |s| ==> s[i] != s[j]
  }

  function Head(v: Volume, data: seq<byte>): (h: seq<byte>)
    requires v.Legal()
    ensures |h| <= Payload(v)
  {
    if |data| > Payload(v) then data[..Payload(v)] else data
  }

  function Tail(v: Volume, data: seq<byte>): (t: seq<byte>)
    requires v.Legal()
    ensures data == Head(v, data) + t
  {
    if |data| > Payload(v) then data[Payload(v)..] else []
  }

  function Next(sectors: seq<nat>): nat
    requires |sectors| > 0
  {
    if |sectors| > 1 then sectors[1] else 0
  }

  /** The contents of all sectors of a file. */
  function ChainContents(v: Volume, data: seq<byte>, sectors: seq<nat>, entry: nat): (c: seq<seq<byte>>)
    requires v.Legal() && AllInRange(v, sectors) && entry < 64
    ensures |c| == |sectors| && forall i :: 0 <= i < |c| ==> |c[i]| == v.seclen
    decreases |sectors|
  {
    if |sectors| == 0 then []
    else [ChainSector(v, Head(v, data), Next(sectors), entry)] + ChainContents(v, Tail(v, data), sectors[1..], entry)
  }

  predicate CanWrite(v: Volume, d: Sectors, sectors: seq<nat>, contents: seq<seq<byte>>) {
    && Shaped(v, d) && AllInRange(v, sectors) && |contents| == |sectors|
    && forall i :: 0 <= i < |contents| ==> |contents[i]| == v.seclen
  }

  /** Writes the first `n` of the sectors, in order. */
  function WriteSectors(v: Volume, d: Sectors, sectors: seq<nat>, contents: seq<seq<byte>>, n: nat): (r: Sectors)
    requires CanWrite(v, d, sectors, contents) && n <= |sectors|
    ensures Shaped(v, r)
    decreases |sectors|, n
  {
    if n == 0 then d else WriteSectors(v, d, sectors, contents, n - 1)[sectors[n - 1] - 1 := contents[n - 1]]
  }

  /** `WriteBufferToImage`. */
  function WriteChain(v: Volume, d: Sectors, data: seq<byte>, sectors: seq<nat>, entry: nat): (r: Sectors)
    requires v.Legal() && Shaped(v, d) && AllInRange(v, sectors) && entry < 64
    ensures Shaped(v, r)
  {
    WriteSectors(v, d, sectors, ChainContents(v, data, sectors, entry), |sectors|)
  }

  lemma {:induction false} WriteSectorsElsewhere(v: Volume, d: Sectors, sectors: seq<nat>, contents: seq<seq<byte>>, n: nat, s: nat)
    requires CanWrite(v, d, sectors, contents) && n <= |sectors|
    requires 1 <= s <= v.numsec && forall i :: 0 <= i < n ==> sectors[i] != s
    ensures WriteSectors(v, d, sectors, contents, n)[s - 1] == d[s - 1]
    decreases n
  {
    if n > 0 {
      WriteSectorsElsewhere(v, d, sectors, contents, n - 1, s);
    }
  }

  lemma {:induction false} WriteSectorsThere(v: Volume, d: Sectors, sectors: seq<nat>, contents: seq<seq<byte>>, n: nat, k: nat)
    requires CanWrite(v, d, sectors, contents) && k < n <= |sectors| && Distinct(sectors)
    ensures WriteSectors(v, d, sectors, contents, n)[sectors[k] - 1] == contents[k]
    decreases n
  {
    if k < n - 1 {
      WriteSectorsThere(v, d, sectors, contents, n - 1, k);
    }
  }

  /** The sectors hold the given contents. */
  predicate Holds(v: Volume, d: Sectors, sectors: seq<nat>, contents: seq<seq<byte>>)
    requires CanWrite(v, d, sectors, contents)
  {
    forall i :: 0 <= i < |sectors| ==> d[sectors[i] - 1] == contents[i]
  }

  /** The sectors hold the data as a chain. */
  predicate HoldsChain(v: Volume, d: Sectors, data: seq<byte>, sectors: seq<nat>, entry: nat)
    requires v.Legal() && Shaped(v, d) && AllInRange(v, sectors) && entry < 64
  {
    |sectors| == FileSectors(v, |data|) && Holds(v, d, sectors, ChainContents(v, data, sectors, entry))
  }

  lemma {:induction false} HoldsChainFrame(v: Volume, d: Sectors, e: Sectors, data: seq<byte>, sectors: seq<nat>, entry: nat)
    requires v.Legal() && Shaped(v, d) && Shaped(v, e) && AllInRange(v, sectors) && entry < 64
    requires HoldsChain(v, d, data, sectors, entry)
    requires forall i :: 0 <= i < |sectors| ==> e[sectors[i] - 1] == d[sectors[i] - 1]
    ensures HoldsChain(v, e, data, sectors, entry)
  {
  }

  lemma {:induction false} WriteChainHolds(v: Volume, d: Sectors, data: seq<byte>, sectors: seq<nat>, entry: nat)
    requires v.Legal() && Shaped(v, d) && AllInRange(v, sectors) && entry < 64
    requires Distinct(sectors) && |sectors| == FileSectors(v, |data|)
    ensures HoldsChain(v, WriteChain(v, d, data, sectors, entry), data, sectors, entry)
  {
    var c := ChainContents(v, data, sectors, entry);
    forall i | 0 <= i < |sectors|
      ensures WriteChain(v, d, data, sectors, entry)[sectors[i] - 1] == c[i]
    {
      WriteSectorsThere(v, d, sectors, c, |sectors|, i);
    }
  }

  // ------------------------------------------------------------------
  // Reading
  // ------------------------------------------------------------------

  /** What the reader wrote out, and whether it got to the end of the chain. */
  datatype Reading = Reading(ok: bool, bytes: seq<byte>)

  function LinkOf(v: Volume, s: seq<byte>, link16: bool): (next: nat)
    requires v.Legal() && |s| == v.seclen
    ensures next < 0x1_0000
  {
    var hi: nat, lo: nat := s[v.seclen - 3], s[v.seclen - 2];
    lo + 256 * if link16 then hi else hi % 4
  }

  /**
   The bytes a sector contributes. The length byte may exceed a 128-byte sector;
   then the reader goes on in the rest of its 256-byte buffer, here `rest`.
   */
  function BytesOf(v: Volume, s: seq<byte>, rest: seq<byte>): (b: seq<byte>)
    requires v.Legal() && |s| == v.seclen && |s| + |rest| == 256
  {
    (s + rest)[..s[v.seclen - 1]]
  }

  /** Follows a chain through sectors not visited before. */
  function Follow(v: Volume, d: Sectors, link16: bool, rest: seq<byte>, s: nat, unvisited: set<nat>): (r: Reading)
    requires v.Legal() && Shaped(v, d) && v.seclen + |rest| == 256 && InRange(v, s)
    decreases |unvisited|
  {
    if s !in unvisited then Reading(false, [])
    else
      var bytes, next := BytesOf(v, d[s - 1], rest), LinkOf(v, d[s - 1], link16);
      if next == 0 then Reading(true, bytes)
      else if !InRange(v, next) then Reading(false, bytes)
      else
        var r := Follow(v, d, link16, rest, next, unvisited - {s});
        Reading(r.ok, bytes + r.bytes)
  }

  function AllSectors(v: Volume): (s: set<nat>) {
    set n: nat | n <= v.numsec && InRange(v, n)
  }

  /** `WriteAtariFileToDisk`. */
  function ReadFile(v: Volume, d: Sectors, link16: bool, rest: seq<byte>, start: nat): Reading
    requires v.Legal() && Shaped(v, d) && v.seclen + |rest| == 256
  {
    if !InRange(v, start) then Reading(false, []) else Follow(v, d, link16, rest, start, AllSectors(v))
  }

  /** Every sector in the path names the next one, and the last one names none. */
  predicate IsPath(v: Volume, d: Sectors, link16: bool, path: seq<nat>)
    requires v.Legal() && Shaped(v, d)
  {
    && |path| > 0 && AllInRange(v, path)
    && (forall i :: 0 < i < |path| ==> LinkOf(v, d[path[i - 1] - 1], link16) == path[i])
    && LinkOf(v, d[path[|path| - 1] - 1], link16) == 0
  }

  function PathBytes(v: Volume, d: Sectors, rest: seq<byte>, path: seq<nat>): seq<byte>
    requires v.Legal() && Shaped(v, d) && v.seclen + |rest| == 256 && AllInRange(v, path)
    decreases |path|
  {
    if path == [] then [] else BytesOf(v, d[path[0] - 1], rest) + PathBytes(v, d, rest, path[1..])
  }

  predicate Covers(unvisited: set<nat>, path: seq<nat>) {
    forall i :: 0 <= i < |path| ==> path[i] in unvisited
  }

  /** A loop-free path ending in link 0 is followed to its end. */
  lemma {:induction false} PathIsFollowed(v: Volume, d: Sectors, link16: bool, rest: seq<byte>, path: seq<nat>, unvisited: set<nat>)
    requires v.Legal() && Shaped(v, d) && v.seclen + |rest| == 256
    requires IsPath(v, d, link16, path) && Distinct(path) && Covers(unvisited, path)
    ensures Follow(v, d, link16, rest, path[0], unvisited) == Reading(true, PathBytes(v, d, rest, path))
    decreases |path|
  {
    if |path| > 1 {
      assert LinkOf(v, d[path[0] - 1], link16) == path[1];
      PathTail(v, d, link16, path);
      PathIsFollowed(v, d, link16, rest, path[1..], unvisited - {path[0]});
    } else {
      assert PathBytes(v, d, rest, path[1..]) == [];
    }
  }

  lemma {:induction false} PathTail(v: Volume, d: Sectors, link16: bool, path: seq<nat>)
    requires v.Legal() && Shaped(v, d) && IsPath(v, d, link16, path) && |path| > 1
    ensures IsPath(v, d, link16, path[1..])
  {
    var t := path[1..];
    forall i | 0 < i < |t|
      ensures LinkOf(v, d[t[i - 1] - 1], link16) == t[i]
    {
      assert t[i] == path[i + 1] && t[i - 1] == path[i];
    }
  }

  /** The path a successful reading took. */
  ghost function PathOf(v: Volume, d: Sectors, link16: bool, rest: seq<byte>, s: nat, unvisited: set<nat>): (p: seq<nat>)
    requires v.Legal() && Shaped(v, d) && v.seclen + |rest| == 256 && InRange(v, s)
    requires Follow(v, d, link16, rest, s, unvisited).ok
    ensures |p| > 0 && p[0] == s
    decreases |unvisited|
  {
    var next := LinkOf(v, d[s - 1], link16);
    if next == 0 then [s] else [s] + PathOf(v, d, link16, rest, next, unvisited - {s})
  }

  lemma {:induction false} FollowedIsPath(v: Volume, d: Sectors, link16: bool, rest: seq<byte>, s: nat, unvisited: set<nat>)
    requires v.Legal() && Shaped(v, d) && v.seclen + |rest| == 256 && InRange(v, s)
    requires Follow(v, d, link16, rest, s, unvisited).ok
    ensures var p := PathOf(v, d, link16, rest, s, unvisited);
      IsPath(v, d, link16, p) && Distinct(p) && Covers(unvisited, p)
    decreases |unvisited|
  {
    var next := LinkOf(v, d[s - 1], link16);
    if next != 0 {
      FollowedIsPath(v, d, link16, rest, next, unvisited - {s});
      PathPrepend(v, d, link16, s, PathOf(v, d, link16, rest, next, unvisited - {s}), unvisited);
    }
  }

  lemma {:induction false} PathPrepend(v: Volume, d: Sectors, link16: bool, s: nat, path: seq<nat>, unvisited: set<nat>)
    requires v.Legal() && Shaped(v, d) && InRange(v, s) && s in unvisited
    requires IsPath(v, d, link16, path) && Distinct(path) && Covers(unvisited - {s}, path)
    requires LinkOf(v, d[s - 1], link16) == path[0]
    ensures IsPath(v, d, link16, [s] + path) && Distinct([s] + path) && Covers(unvisited, [s] + path)
  {
    var p := [s] + path;
    forall i | 0 < i < |p|
      ensures LinkOf(v, d[p[i - 1] - 1], link16) == p[i]
    {
      if i > 1 {
        assert p[i] == path[i - 1] && p[i - 1] == path[i - 2];
      }
    }
    DistinctPrepend(s, path, unvisited);
  }

  lemma {:induction false} DistinctPrepend(s: nat, path: seq<nat>, unvisited: set<nat>)
    requires s in unvisited && Distinct(path) && Covers(unvisited - {s}, path)
    ensures Distinct([s] + path) && Covers(unvisited, [s] + path)
  {
    var p := [s] + path;
    forall i, j | 0 <= i < j < |p|
      ensures p[i] != p[j]
    {
      assert p[j] == path[j - 1];
    }
  }

  /**
   Whatever the image holds, cyclic and corrupt links included: the reader
   stops, and reports success exactly when a loop-free chain of existing sectors
   leads from the start to a link of 0; then it wrote the bytes of that chain.
   */
  lemma {:induction false} ReadFileCorrect(v: Volume, d: Sectors, link16: bool, rest: seq<byte>, start: nat)
    requires v.Legal() && Shaped(v, d) && v.seclen + |rest| == 256
    ensures var r := ReadFile(v, d, link16, rest, start);
      r.ok <==> exists p: seq<nat> :: IsPath(v, d, link16, p) && Distinct(p) && p[0] == start
    ensures var r := ReadFile(v, d, link16, rest, start);
      forall p: seq<nat> :: IsPath(v, d, link16, p) && Distinct(p) && p[0] == start ==> r.bytes == PathBytes(v, d, rest, p)
  {
    if ReadFile(v, d, link16, rest, start).ok {
      FollowedIsPath(v, d, link16, rest, start, AllSectors(v));
      assert IsPath(v, d, link16, PathOf(v, d, link16, rest, start, AllSectors(v)));
    }
    forall p: seq<nat> | IsPath(v, d, link16, p) && Distinct(p) && p[0] == start
      ensures ReadFile(v, d, link16, rest, start) == Reading(true, PathBytes(v, d, rest, p))
    {
      PathIsFollowed(v, d, link16, rest, p, AllSectors(v));
    }
  }

  // ------------------------------------------------------------------
  // Writing and reading
  // ------------------------------------------------------------------

  /** Short links cannot name sectors above 1023. */
  predicate Linkable(v: Volume, sectors: seq<nat>)
    requires v.Legal()
  {
    !v.Link16() ==> forall i :: 0 <= i < |sectors| ==> sectors[i] <= 1023
  }

  lemma {:induction false} ChainSectorReads(v: Volume, piece: seq<byte>, next: nat, entry: nat, rest: seq<byte>)
    requires v.Legal() && |piece| <= Payload(v) && next < 0x1_0000 && entry < 64 && v.seclen + |rest| == 256
    ensures var s := ChainSector(v, piece, next, entry);
      BytesOf(v, s, rest) == piece && LinkOf(v, s, v.Link16()) == if v.Link16() then next else next % 1024
  {
    var s := ChainSector(v, piece, next, entry);
    assert s[v.seclen - 1] == |piece|;
    assert s[v.seclen - 3] == Link(v, next, entry)[0] && s[v.seclen - 2] == Link(v, next, entry)[1];
    LinkReads(next, entry);
  }

  lemma {:induction false} LinkReads(next: nat, entry: nat)
    requires next < 0x1_0000 && entry < 64
    ensures (next % 1024 / 256 + 4 * entry) % 4 == next % 1024 / 256
    ensures next % 256 + 256 * (next % 1024 / 256) == next % 1024
    ensures next % 256 + 256 * (next / 256) == next
  {
  }

  lemma {:induction false} FirstContent(v: Volume, data: seq<byte>, sectors: seq<nat>, entry: nat)
    requires v.Legal() && AllInRange(v, sectors) && entry < 64 && |sectors| > 0
    ensures ChainContents(v, data, sectors, entry)[0] == ChainSector(v, Head(v, data), Next(sectors), entry)
  {
  }

  /** One sector of a chain, read. */
  lemma {:induction false} HeadReads(v: Volume, s: seq<byte>, piece: seq<byte>, sectors: seq<nat>, entry: nat, rest: seq<byte>)
    requires v.Legal() && AllInRange(v, sectors) && entry < 64 && v.seclen + |rest| == 256
    requires |sectors| > 0 && Linkable(v, sectors) && |piece| <= Payload(v)
    requires s == ChainSector(v, piece, Next(sectors), entry)
    ensures BytesOf(v, s, rest) == piece && LinkOf(v, s, v.Link16()) == Next(sectors)
  {
    ChainSectorReads(v, piece, Next(sectors), entry, rest);
  }

  lemma {:induction false} FirstSectorReads(v: Volume, d: Sectors, data: seq<byte>, sectors: seq<nat>, entry: nat, rest: seq<byte>)
    requires v.Legal() && Shaped(v, d) && AllInRange(v, sectors) && entry < 64 && v.seclen + |rest| == 256
    requires HoldsChain(v, d, data, sectors, entry) && Linkable(v, sectors)
    ensures BytesOf(v, d[sectors[0] - 1], rest) == Head(v, data)
    ensures LinkOf(v, d[sectors[0] - 1], v.Link16()) == Next(sectors)
  {
    var s := ChainContents(v, data, sectors, entry)[0];
    assert d[sectors[0] - 1] == s;
    FirstContent(v, data, sectors, entry);
    HeadReads(v, s, Head(v, data), sectors, entry, rest);
  }

  /** A sector of a file: with 10-bit links the number of its directory entry is in it, and what is not used is 0. */
  predicate SectorTells(v: Volume, s: seq<byte>, entry: nat)
    requires v.Legal() && |s| == v.seclen
  {
    && (!v.Link16() ==> s[v.seclen - 3] / 4 == entry)
    && forall j :: s[v.seclen - 1] <= j < v.seclen - 3 ==> s[j] == 0
  }

  lemma {:induction false} ChainSectorTells(v: Volume, piece: seq<byte>, next: nat, entry: nat)
    requires v.Legal() && |piece| <= Payload(v) && next < 0x1_0000 && entry < 64
    ensures SectorTells(v, ChainSector(v, piece, next, entry), entry)
  {
    var s := ChainSector(v, piece, next, entry);
    var high := next % 1024 / 256;
    assert high < 4 && (high + 4 * entry) / 4 == entry;
    assert s[v.seclen - 1] == |piece|;
  }

  lemma {:induction false} ChainTells(v: Volume, data: seq<byte>, sectors: seq<nat>, entry: nat, i: nat)
    requires v.Legal() && AllInRange(v, sectors) && entry < 64 && i < |sectors|
    ensures SectorTells(v, ChainContents(v, data, sectors, entry)[i], entry)
    decreases |sectors|
  {
    if i == 0 {
      ChainSectorTells(v, Head(v, data), Next(sectors), entry);
    } else {
      ChainTells(v, Tail(v, data), sectors[1..], entry, i - 1);
    }
  }

  lemma {:induction false} HoldsTail(v: Volume, d: Sectors, data: seq<byte>, sectors: seq<nat>, entry: nat)
    requires v.Legal() && Shaped(v, d) && AllInRange(v, sectors) && entry < 64 && |sectors| > 1
    requires HoldsChain(v, d, data, sectors, entry)
    ensures HoldsChain(v, d, Tail(v, data), sectors[1..], entry)
  {
    var c, t := ChainContents(v, data, sectors, entry), sectors[1..];
    assert c[1..] == ChainContents(v, Tail(v, data), t, entry);
    FileSectorsStep(v, |data|);
    HoldsRest(v, d, sectors, c);
  }

  lemma {:induction false} HoldsRest(v: Volume, d: Sectors, sectors: seq<nat>, c: seq<seq<byte>>)
    requires CanWrite(v, d, sectors, c) && Holds(v, d, sectors, c) && |sectors| > 0
    ensures CanWrite(v, d, sectors[1..], c[1..]) && Holds(v, d, sectors[1..], c[1..])
  {
    forall i | 0 <= i < |sectors| - 1
      ensures d[sectors[1..][i] - 1] == c[1..][i]
    {
      assert d[sectors[i + 1] - 1] == c[i + 1];
    }
  }

  lemma {:induction false} ChainIsPath(v: Volume, d: Sectors, data: seq<byte>, sectors: seq<nat>, entry: nat, rest: seq<byte>)
    requires v.Legal() && Shaped(v, d) && AllInRange(v, sectors) && entry < 64 && v.seclen + |rest| == 256
    requires HoldsChain(v, d, data, sectors, entry) && Linkable(v, sectors)
    ensures IsPath(v, d, v.Link16(), sectors) && PathBytes(v, d, rest, sectors) == data
    decreases |sectors|
  {
    FileSectorsStep(v, |data|);
    FirstSectorReads(v, d, data, sectors, entry, rest);
    if |sectors| > 1 {
      HoldsTail(v, d, data, sectors, entry);
      ChainIsPath(v, d, Tail(v, data), sectors[1..], entry, rest);
      PathExtend(v, d, v.Link16(), sectors);
    } else {
      assert PathBytes(v, d, rest, sectors[1..]) == [];
    }
  }

  lemma {:induction false} PathExtend(v: Volume, d: Sectors, link16: bool, path: seq<nat>)
    requires v.Legal() && Shaped(v, d) && |path| > 1 && AllInRange(v, path)
    requires IsPath(v, d, link16, path[1..]) && LinkOf(v, d[path[0] - 1], link16) == path[1]
    ensures IsPath(v, d, link16, path)
  {
    var t := path[1..];
    forall i | 0 < i < |path|
      ensures LinkOf(v, d[path[i - 1] - 1], link16) == path[i]
    {
      if i > 1 {
        assert path[i] == t[i - 1] && path[i - 1] == t[i - 2];
      }
    }
  }

  /** A file written to distinct sectors its links can name reads back byte for byte. */
  lemma {:induction false} ChainReadsBack(v: Volume, d: Sectors, data: seq<byte>, sectors: seq<nat>, entry: nat, rest: seq<byte>)
    requires v.Legal() && Shaped(v, d) && AllInRange(v, sectors) && entry < 64 && v.seclen + |rest| == 256
    requires Distinct(sectors) && HoldsChain(v, d, data, sectors, entry) && Linkable(v, sectors)
    ensures ReadFile(v, d, v.Link16(), rest, sectors[0]) == Reading(true, data)
  {
    ChainIsPath(v, d, data, sectors, entry, rest);
    PathIsFollowed(v, d, v.Link16(), rest, sectors, AllSectors(v));
  }
}
