/** Finding a sector on a turning track: `AtpTrack::GetSector` and the order `AddSector` keeps. */
module AtpSearch {
  import opened Bytes
  import opened AtpFormat

  /** Sectors in the order of their positions; several may begin at the same place. */
  predicate Sorted(sectors: seq<AtpSector>) {
    forall i, j :: 0 <= i < j < |sectors| ==> sectors[i].position <= sectors[j].position
  }

  lemma {:induction false} InsertionSplits(sectors: seq<AtpSector>, position: nat, i: nat)
    requires Sorted(sectors) && i <= |sectors|
    requires forall k :: 0 <= k < i ==> sectors[k].position <= position
    ensures var p := InsertionPoint(sectors, position, i);
      && (forall k :: 0 <= k < p ==> sectors[k].position <= position)
      && (forall k :: p <= k < |sectors| ==> position < sectors[k].position)
    decreases |sectors| - i
  {
    if i < |sectors| && sectors[i].position <= position {
      InsertionSplits(sectors, position, i + 1);
    }
  }

  lemma {:induction false} SortedTogether(a: seq<AtpSector>, s: AtpSector, b: seq<AtpSector>)
    requires Sorted(a) && Sorted(b)
    requires forall k :: 0 <= k < |a| ==> a[k].position <= s.position
    requires forall k :: 0 <= k < |b| ==> s.position < b[k].position
    ensures Sorted(a + [s] + b)
  {
    var r := a + [s] + b;
    forall i, j | 0 <= i < j < |r|
      ensures r[i].position <= r[j].position
    {
      assert i < |a| ==> r[i] == a[i];
      assert j > |a| ==> r[j] == b[j - |a| - 1];
      assert i > |a| ==> r[i] == b[i - |a| - 1];
    }
  }

  lemma {:induction false} Together(sectors: seq<AtpSector>, s: AtpSector, k: nat)
    requires k <= |sectors|
    ensures multiset(sectors[..k] + [s] + sectors[k..]) == multiset(sectors) + multiset{s}
  {
    assert sectors == sectors[..k] + sectors[k..];
  }

  /** Adding keeps the order, and adds just the one sector, behind those at the same position. */
  lemma {:induction false} AddSectorCorrect(sectors: seq<AtpSector>, s: AtpSector)
    requires Sorted(sectors)
    ensures Sorted(AddSector(sectors, s))
    ensures multiset(AddSector(sectors, s)) == multiset(sectors) + multiset{s}
  {
    var k := InsertionPoint(sectors, s.position, 0);
    InsertionSplits(sectors, s.position, 0);
    SortedTogether(sectors[..k], s, sectors[k..]);
    Together(sectors, s, k);
  }

  /** The first sector that has not yet passed; the first on the track if all have. */
  function SeekIndex(sectors: seq<AtpSector>, time: nat, i: nat): (k: nat)
    requires i <= |sectors|
    ensures i <= k <= |sectors|
    decreases |sectors| - i
  {
    if i < |sectors| && sectors[i].position < time then SeekIndex(sectors, time, i + 1) else i
  }

  function StartIndex(sectors: seq<AtpSector>, time: nat): (k: nat)
    requires sectors != []
    ensures k < |sectors|
  {
    var k := SeekIndex(sectors, time, 0);
    if k == |sectors| then 0 else k
  }

  /** The `k`-th sector to pass, beginning with the one at `start`. */
  function Passing(n: nat, start: nat, k: nat): (i: nat)
    requires start < n && k < n
    ensures i < n
  {
    if start + k < n then start + k else start + k - n
  }

  /** The first sector with the number, among those to pass from the `k`-th on. */
  function FirstPassing(sectors: seq<AtpSector>, id: nat, start: nat, k: nat): (r: Option<nat>)
    requires start < |sectors| && k <= |sectors|
    ensures r.Some? ==> r.value < |sectors| && sectors[r.value].id == id
    decreases |sectors| - k
  {
    if k == |sectors| then None
    else if sectors[Passing(|sectors|, start, k)].id == id then Some(Passing(|sectors|, start, k))
    else FirstPassing(sectors, id, start, k + 1)
  }

  /** `GetSector`: the index of the sector found. */
  function GetSector(sectors: seq<AtpSector>, id: nat, time: nat): (r: Option<nat>)
    ensures r.Some? ==> r.value < |sectors| && sectors[r.value].id == id
  {
    if sectors == [] then None else FirstPassing(sectors, id, StartIndex(sectors, time), 0)
  }

  /** How long it takes from `time` until a position passes under the head. */
  function Delay(position: nat, time: nat): (d: nat)
    requires position < ROTATION && time < ROTATION
  {
    (position + ROTATION - time) % ROTATION
  }

  lemma {:induction false} DelayCases(position: nat, time: nat)
    requires position < ROTATION && time < ROTATION
    ensures Delay(position, time) == if position >= time then position - time else position + ROTATION - time
  {
  }

  lemma {:induction false} SeekSplits(sectors: seq<AtpSector>, time: nat, i: nat)
    requires Sorted(sectors) && i <= |sectors|
    requires forall k :: 0 <= k < i ==> sectors[k].position < time
    ensures var s := SeekIndex(sectors, time, i);
      && (forall k :: 0 <= k < s ==> sectors[k].position < time)
      && (forall k :: s <= k < |sectors| ==> time <= sectors[k].position)
    decreases |sectors| - i
  {
    if i < |sectors| && sectors[i].position < time {
      SeekSplits(sectors, time, i + 1);
    }
  }

  predicate InRotation(sectors: seq<AtpSector>) {
    forall k :: 0 <= k < |sectors| ==> sectors[k].position < ROTATION
  }

  /** Sectors pass in the order of their delays. */
  lemma {:induction false} DelaysGrow(sectors: seq<AtpSector>, time: nat, k: nat, l: nat)
    requires Sorted(sectors) && InRotation(sectors) && time < ROTATION && k < l < |sectors|
    ensures var n, start := |sectors|, StartIndex(sectors, time);
      Delay(sectors[Passing(n, start, k)].position, time) <= Delay(sectors[Passing(n, start, l)].position, time)
  {
    var n, start := |sectors|, StartIndex(sectors, time);
    var a, b := sectors[Passing(n, start, k)].position, sectors[Passing(n, start, l)].position;
    SeekSplits(sectors, time, 0);
    DelayCases(a, time);
    DelayCases(b, time);
  }

  lemma {:induction false} EveryoneAppears(n: nat, start: nat, i: nat) returns (k: nat)
    requires start < n && i < n
    ensures k < n && Passing(n, start, k) == i
  {
    k := if i >= start then i - start else i - start + n;
  }

  lemma {:induction false} FirstPassingIsFirst(sectors: seq<AtpSector>, id: nat, start: nat, k: nat, l: nat)
    requires start < |sectors| && k <= l < |sectors| && sectors[Passing(|sectors|, start, l)].id == id
    ensures var r := FirstPassing(sectors, id, start, k);
      r.Some? && exists m: nat :: k <= m <= l && r.value == Passing(|sectors|, start, m)
    decreases |sectors| - k
  {
    if sectors[Passing(|sectors|, start, k)].id != id {
      FirstPassingIsFirst(sectors, id, start, k + 1, l);
    }
  }

  /**
   On a sorted track a sector is found exactly if some sector has the number, and
   of those that have it, it is one for which the drive has to wait least.
   */
  lemma {:induction false} GetSectorCorrect(sectors: seq<AtpSector>, id: nat, time: nat)
    requires Sorted(sectors) && InRotation(sectors) && time < ROTATION
    ensures var r := GetSector(sectors, id, time);
      && (r.Some? <==> exists i :: 0 <= i < |sectors| && sectors[i].id == id)
      && (r.Some? ==> forall i :: 0 <= i < |sectors| && sectors[i].id == id ==>
            Delay(sectors[r.value].position, time) <= Delay(sectors[i].position, time))
  {
    forall i | 0 <= i < |sectors| && sectors[i].id == id
      ensures GetSector(sectors, id, time).Some?
        && Delay(sectors[GetSector(sectors, id, time).value].position, time) <= Delay(sectors[i].position, time)
    {
      NoneSooner(sectors, id, time, i);
    }
  }

  lemma {:induction false} NoneSooner(sectors: seq<AtpSector>, id: nat, time: nat, i: nat)
    requires Sorted(sectors) && InRotation(sectors) && time < ROTATION && i < |sectors| && sectors[i].id == id
    ensures var r := GetSector(sectors, id, time);
      r.Some? && Delay(sectors[r.value].position, time) <= Delay(sectors[i].position, time)
  {
    var n, start := |sectors|, StartIndex(sectors, time);
    var l := EveryoneAppears(n, start, i);
    FirstPassingIsFirst(sectors, id, start, 0, l);
    var m: nat :| m <= l && FirstPassing(sectors, id, start, 0).value == Passing(n, start, m);
    if m < l {
      DelaysGrow(sectors, time, m, l);
    }
  }
}
