/** Names in a directory: `AddEntry` and `CheckNameUnique`. */
module Dos2xNames {
  import opened Bytes

  const MAX_ENTRIES := 64

  const BLANK: byte := 32

  /** Eight characters and three of extension, padded with blanks; none of them is NUL. */
  type Name = s: seq<byte> | |s| == 11 && forall i :: 0 <= i < |s| ==> s[i] != 0
    witness Repeat(BLANK, 11)

  /** Where the suffix goes: at the first blank, but no further than position 6. */
  function SuffixPosition(name: Name, from: nat): (p: nat)
    requires from <= 6
    ensures p <= 6
    decreases 6 - from
  {
    if from == 6 || name[from] == BLANK then from else SuffixPosition(name, from + 1)
  }

  /** The name with its two-digit suffix. */
  function Renamed(name: Name, i: nat): (r: Name)
    requires i < 100
  {
    var p := SuffixPosition(name, 0);
    var r := name[p := 48 + i / 10][p + 1 := 48 + i % 10];
    assert r[p] != 0 && r[p + 1] != 0;
    r
  }

  /** Two decimal digits replace the first blank and what follows it, or the last two of eight characters. */
  lemma {:induction false} RenamedTells(name: Name, i: nat)
    requires i < 100
    ensures exists p :: 0 <= p <= 6 && IsSuffixed(name, p, i, Renamed(name, i))
  {
    SuffixAtBlank(name, 0);
    assert IsSuffixed(name, SuffixPosition(name, 0), i, Renamed(name, i));
  }

  predicate IsSuffixed(name: Name, p: nat, i: nat, r: Name)
    requires p <= 6
  {
    && (forall j :: 0 <= j < p ==> name[j] != 32) && (p < 6 ==> name[p] == 32)
    && 48 <= r[p] <= 57 && 48 <= r[p + 1] <= 57 && 10 * (r[p] - 48) + (r[p + 1] - 48) == i
    && forall j :: 0 <= j < 11 && j != p && j != p + 1 ==> r[j] == name[j]
  }

  lemma {:induction false} SuffixAtBlank(name: Name, from: nat)
    requires from <= 6 && forall j :: 0 <= j < from ==> name[j] != 32
    ensures var p := SuffixPosition(name, from); (forall j :: 0 <= j < p ==> name[j] != 32) && (p < 6 ==> name[p] == 32)
    decreases 6 - from
  {
    if from < 6 && name[from] != 32 {
      SuffixAtBlank(name, from + 1);
    }
  }

  /** README.TXT becomes README00.TXT, and LONGNAME.DOC, for the eighth time, LONGNA07.DOC. */
  lemma {:induction false} RenamedExamples()
    ensures Renamed([82, 69, 65, 68, 77, 69, 32, 32, 84, 88, 84], 0) == [82, 69, 65, 68, 77, 69, 48, 48, 84, 88, 84]
    ensures Renamed([76, 79, 78, 71, 78, 65, 77, 69, 68, 79, 67], 7) == [76, 79, 78, 71, 78, 65, 48, 55, 68, 79, 67]
  {
    var a: Name, b: Name := [82, 69, 65, 68, 77, 69, 32, 32, 84, 88, 84], [76, 79, 78, 71, 78, 65, 77, 69, 68, 79, 67];
    RenamedTells(a, 0);
    RenamedTells(b, 7);
  }

  lemma {:induction false} SuffixesDiffer(name: Name, i: nat, j: nat)
    requires i < j < 100
    ensures Renamed(name, i) != Renamed(name, j)
  {
    var p := SuffixPosition(name, 0);
    assert Renamed(name, i)[p] == 48 + i / 10 && Renamed(name, i)[p + 1] == 48 + i % 10;
    assert Renamed(name, j)[p] == 48 + j / 10 && Renamed(name, j)[p + 1] == 48 + j % 10;
  }

  /** The `i`-th name tried. */
  function Try(name: Name, i: nat): Name
    requires i <= 100
  {
    if i == 0 then name else Renamed(name, i - 1)
  }

  ghost predicate TriedInVain(names: seq<Name>, name: Name, n: nat)
    requires n <= 100
  {
    forall i :: 0 <= i < n ==> Try(name, i) in names
  }

  lemma {:induction false} NewSuffix(name: Name, n: nat)
    requires n < 100
    ensures forall i: nat :: i < n ==> Renamed(name, i) != Renamed(name, n)
  {
    forall i: nat | i < n
      ensures Renamed(name, i) != Renamed(name, n)
    {
      SuffixesDiffer(name, i, n);
    }
  }

  ghost function FirstSuffixes(name: Name, n: nat): set<Name>
    requires n <= 100
  {
    set i: nat | i < n :: Renamed(name, i)
  }

  lemma {:induction false} FirstSuffixesSize(name: Name, n: nat)
    requires n <= 100
    ensures |FirstSuffixes(name, n)| == n
  {
    if n > 0 {
      FirstSuffixesSize(name, n - 1);
      NewSuffix(name, n - 1);
      assert FirstSuffixes(name, n) == FirstSuffixes(name, n - 1) + {Renamed(name, n - 1)};
    }
  }

  ghost function NameSet(names: seq<Name>): (s: set<Name>)
    ensures |s| <= |names|
    ensures forall x :: x in s <==> x in names
  {
    if names == [] then {} else NameSet(names[1..]) + {names[0]}
  }

  lemma {:induction false} SubsetSize<T>(a: set<T>, b: set<T>)
    requires a <= b
    ensures |a| <= |b|
  {
    if a != {} {
      var x :| x in a;
      SubsetSize(a - {x}, b - {x});
    }
  }

  /** By pigeonhole, at most one try more than there are names, and the first, can be in vain. */
  lemma {:induction false} VainTries(names: seq<Name>, name: Name, n: nat)
    requires n <= 100 && TriedInVain(names, name, n)
    ensures n <= |names| + 1
  {
    if n > 0 {
      forall i: nat | i < n - 1
        ensures Renamed(name, i) in names
      {
        assert Try(name, i + 1) in names;
      }
      FirstSuffixesSize(name, n - 1);
      SubsetSize(FirstSuffixes(name, n - 1), NameSet(names));
    }
  }

  /** The first name tried that is not taken, from the `i`-th on. */
  function FirstUnique(names: seq<Name>, name: Name, i: nat): (r: Name)
    requires |names| < MAX_ENTRIES && i <= 100 && TriedInVain(names, name, i)
    ensures r !in names
    decreases 100 - i
  {
    VainTries(names, name, i);
    if Try(name, i) in names then FirstUnique(names, name, i + 1) else Try(name, i)
  }

  /** `AddEntry`: the names after the addition. */
  function AddEntry(names: seq<Name>, name: Name, rename: bool): (r: Option<seq<Name>>)
    requires |names| <= MAX_ENTRIES
  {
    if |names| == MAX_ENTRIES then None
    else
      var n := if rename then FirstUnique(names, name, 0) else name;
      if n in names then None else Some(names + [n])
  }

  predicate Unique(names: seq<Name>) {
    forall i, j :: 0 <= i < j < |names| ==> names[i] != names[j]
  }

  /**
   Adding an entry keeps the names distinct. It fails only in a full directory,
   or on a taken name that must not be changed; a free name is never changed,
   and a taken one gets the lowest free suffix, after at most as many
   tries as there are names and two more.
   */
  lemma {:induction false} AddEntryCorrect(names: seq<Name>, name: Name, rename: bool)
    requires Unique(names) && |names| <= MAX_ENTRIES
    ensures var r := AddEntry(names, name, rename);
      && (r.None? <==> |names| == MAX_ENTRIES || (!rename && name in names))
      && (r.Some? ==> Unique(r.value) && |r.value| == |names| + 1 && names == r.value[..|names|])
      && (r.Some? ==> TryThatFits(names, name, r.value[|names|]))
  {
    if |names| < MAX_ENTRIES && rename {
      FirstUniqueTry(names, name, 0);
    }
    if |names| < MAX_ENTRIES && !rename {
      assert Try(name, 0) == name;
    }
  }

  /** The name is the first of the tries that is free. */
  ghost predicate TryThatFits(names: seq<Name>, name: Name, r: Name) {
    exists i: nat :: i <= |names| + 1 && i <= 100 && r == Try(name, i) && r !in names && TriedInVain(names, name, i)
  }

  /** One name more: a free one as it is, any other with two digits. */
  predicate Named(names: seq<Name>, name: Name, now: seq<Name>) {
    && |now| == |names| + 1 && now[..|names|] == names && now[|names|] !in names
    && if name !in names then now[|names|] == name else exists i :: 0 <= i < 100 && now[|names|] == Renamed(name, i)
  }

  lemma {:induction false} EntryNamed(names: seq<Name>, name: Name, rename: bool)
    requires Unique(names) && |names| <= MAX_ENTRIES && AddEntry(names, name, rename).Some?
    ensures Named(names, name, AddEntry(names, name, rename).value)
  {
    AddEntryCorrect(names, name, rename);
    var given := AddEntry(names, name, rename).value[|names|];
    var i: nat :| i <= 100 && given == Try(name, i) && given !in names && TriedInVain(names, name, i);
    FirstTry(names, name, i);
    if i > 0 {
      assert given == Renamed(name, i - 1);
    }
  }

  lemma {:induction false} FirstTry(names: seq<Name>, name: Name, n: nat)
    requires n <= 100 && TriedInVain(names, name, n)
    ensures n > 0 ==> name in names
  {
    if n > 0 {
      var i := 0;
      assert Try(name, i) in names;
    }
  }

  lemma {:induction false} FirstUniqueTry(names: seq<Name>, name: Name, i: nat)
    requires |names| < MAX_ENTRIES && i <= 100 && TriedInVain(names, name, i)
    ensures TryThatFits(names, name, FirstUnique(names, name, i))
    decreases 100 - i
  {
    VainTries(names, name, i);
    if Try(name, i) in names {
      FirstUniqueTry(names, name, i + 1);
    }
  }

  /** The bound is met: with only this name taken, the second suffix is the one that fits. */
  lemma {:induction false} BoundIsMet(name: Name)
    requires name == Renamed(name, 0)
    ensures FirstUnique([name], name, 0) == Try(name, |[name]| + 1)
  {
    SuffixesDiffer(name, 0, 1);
    assert Try(name, 0) == name && Try(name, 1) == name && Try(name, 2) == Renamed(name, 1);
    assert FirstUnique([name], name, 0) == FirstUnique([name], name, 1);
  }
}
