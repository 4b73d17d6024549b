/**
  The load-range partition of a plant equipment operation scheme.

  A scheme keeps an ordered list of load ranges `[lower, upper]`, each with its
  own list of equipment. The ranges are contiguous: the first starts at 0, each
  starts where the previous one ends, and the last ends at the maximum upper
  limit 1e9. The bounds are only compared and copied, so they are `real`s, and
  the tolerance comparison of the source is exact equality here. Equipment is
  identified by its handle, an `int`, whose order is the order used to sort
  equipment lists.
*/
module PlantLoadScheme {

  type Equipment = int

  /** The upper limit of the last load range. */
  const MaximumUpperLimit: real := 1000000000.0

  datatype LoadRange = LoadRange(lower: real, upper: real, equipment: seq<Equipment>)

  ghost predicate NoDuplicates(s: seq<Equipment>) {
    forall i, j :: 0 <= i < j < |s| ==> s[i] != s[j]
  }

  ghost predicate StrictlySorted(s: seq<Equipment>) {
    forall i, j :: 0 <= i < j < |s| ==> s[i] < s[j]
  }

  /** Each range starts where the previous one ends. */
  ghost predicate Contiguous(rs: seq<LoadRange>) {
    forall i :: 0 < i < |rs| ==> rs[i].lower == rs[i - 1].upper
  }

  /** The upper limits never decrease, and only the last one reaches 1e9. */
  ghost predicate OrderedLimits(rs: seq<LoadRange>) {
    && (forall i, j :: 0 <= i < j < |rs| ==> rs[i].upper <= rs[j].upper)
    && (forall i :: 0 <= i < |rs| - 1 ==> rs[i].upper < MaximumUpperLimit)
  }

  ghost predicate ListsWithoutDuplicates(rs: seq<LoadRange>) {
    forall i :: 0 <= i < |rs| ==> NoDuplicates(rs[i].equipment)
  }

  /** The ranges tile [0, MaximumUpperLimit] in order, and no list repeats a piece of equipment. */
  ghost predicate IsPartition(rs: seq<LoadRange>) {
    && |rs| >= 1
    && rs[0].lower == 0.0
    && Contiguous(rs)
    && rs[|rs| - 1].upper == MaximumUpperLimit
    && OrderedLimits(rs)
    && ListsWithoutDuplicates(rs)
  }

  // ---------------------------------------------------------------------------
  // Specification functions
  // ---------------------------------------------------------------------------

  /** The index of the first range whose upper limit exceeds `u`, or |rs| when there is none. */
  function FirstAbove(rs: seq<LoadRange>, u: real): (k: nat)
    ensures k <= |rs|
    ensures forall j :: 0 <= j < k ==> rs[j].upper <= u
    ensures k < |rs| ==> u < rs[k].upper
  {
    if |rs| == 0 then 0
    else if u < rs[0].upper then 0
    else 1 + FirstAbove(rs[1..], u)
  }

  /** The index of the first range whose upper limit equals `u`, or |rs| when there is none. */
  function FirstWithUpper(rs: seq<LoadRange>, u: real): (k: nat)
    ensures k <= |rs|
    ensures forall j :: 0 <= j < k ==> rs[j].upper != u
    ensures k < |rs| ==> rs[k].upper == u
  {
    if |rs| == 0 then 0
    else if rs[0].upper == u then 0
    else 1 + FirstWithUpper(rs[1..], u)
  }

  /** The index of the first range whose upper limit equals `u` and whose list lacks `e`, or |rs|. */
  function FirstWithUpperLacking(rs: seq<LoadRange>, u: real, e: Equipment): (k: nat)
    ensures k <= |rs|
    ensures forall j :: 0 <= j < k ==> rs[j].upper != u || e in rs[j].equipment
    ensures k < |rs| ==> rs[k].upper == u && e !in rs[k].equipment
  {
    if |rs| == 0 then 0
    else if rs[0].upper == u && e !in rs[0].equipment then 0
    else 1 + FirstWithUpperLacking(rs[1..], u, e)
  }

  /** `x` inserted into a strictly sorted list, where it is not already present. */
  function InsertSorted(x: Equipment, s: seq<Equipment>): (r: seq<Equipment>)
    requires StrictlySorted(s)
    ensures StrictlySorted(r)
    ensures forall y :: y in r <==> y == x || y in s
  {
    if s == [] then [x]
    else if x < s[0] then [x] + s
    else if x == s[0] then s
    else
      var rest := InsertSorted(x, s[1..]);
      assert forall k :: 0 <= k < |rest| ==> s[0] < rest[k] by {
        forall k | 0 <= k < |rest|
          ensures s[0] < rest[k]
        {
          assert rest[k] in rest;
          if rest[k] != x {
            var t :| 0 <= t < |s[1..]| && s[1..][t] == rest[k];
            assert s[t + 1] == rest[k];
          }
        }
      }
      [s[0]] + rest
  }

  /** The equipment sorted by handle with duplicates removed (std::sort followed by std::unique). */
  function SortedUnique(s: seq<Equipment>): (r: seq<Equipment>)
    ensures StrictlySorted(r)
    ensures forall y :: y in r <==> y in s
  {
    if s == [] then [] else InsertSorted(s[0], SortedUnique(s[1..]))
  }

  /** `s` without any occurrence of `e`, the order of the rest kept. */
  function RemoveAll(s: seq<Equipment>, e: Equipment): (r: seq<Equipment>)
    ensures forall y :: y in r <==> y in s && y != e
    ensures |r| <= |s|
  {
    if s == [] then []
    else if s[0] == e then RemoveAll(s[1..], e)
    else [s[0]] + RemoveAll(s[1..], e)
  }

  /** Range k split at `u`: a new range [lower_k, u] holding `equipment` goes in front of it,
      and range k now starts at `u`. */
  function Split(rs: seq<LoadRange>, k: nat, u: real, equipment: seq<Equipment>): seq<LoadRange>
    requires k < |rs|
  {
    rs[..k] + [LoadRange(rs[k].lower, u, SortedUnique(equipment)), rs[k].(lower := u)] + rs[k + 1..]
  }

  /** Range k dropped and its successor widened down to range k's lower limit. */
  function Merge(rs: seq<LoadRange>, k: nat): seq<LoadRange>
    requires k + 1 < |rs|
  {
    rs[..k] + [rs[k + 1].(lower := rs[k].lower)] + rs[k + 2..]
  }

  // ---------------------------------------------------------------------------
  // Lemmas
  // ---------------------------------------------------------------------------

  lemma StrictlySortedHasNoDuplicates(s: seq<Equipment>)
    requires StrictlySorted(s)
    ensures NoDuplicates(s)
  {
  }

  /** On a partition, a range whose upper limit exceeds `u` exists exactly when u < 1e9. */
  lemma FirstAboveInRange(rs: seq<LoadRange>, u: real)
    requires IsPartition(rs)
    ensures FirstAbove(rs, u) < |rs| <==> u < MaximumUpperLimit
  {
    var k := FirstAbove(rs, u);
    if k < |rs| {
      assert rs[k].upper <= rs[|rs| - 1].upper;
    }
  }

  /** Where each range of a split comes from. */
  lemma SplitAt(rs: seq<LoadRange>, k: nat, u: real, equipment: seq<Equipment>)
    requires k < |rs|
    ensures var r := Split(rs, k, u, equipment);
            && |r| == |rs| + 1
            && (forall i :: 0 <= i < k ==> r[i] == rs[i])
            && r[k] == LoadRange(rs[k].lower, u, SortedUnique(equipment))
            && r[k + 1] == rs[k].(lower := u)
            && (forall i :: k + 1 < i < |r| ==> r[i] == rs[i - 1])
  {
  }

  /** Splitting the first range above `u` keeps the ranges a partition. */
  lemma {:induction false} SplitIsPartition(rs: seq<LoadRange>, u: real, equipment: seq<Equipment>)
    requires IsPartition(rs)
    requires u < MaximumUpperLimit
    ensures FirstAbove(rs, u) < |rs|
    ensures IsPartition(Split(rs, FirstAbove(rs, u), u, equipment))
  {
    FirstAboveInRange(rs, u);
    var k := FirstAbove(rs, u);
    var r := Split(rs, k, u, equipment);
    SplitAt(rs, k, u, equipment);
    assert Contiguous(r) by {
      forall i | 0 < i < |r| ensures r[i].lower == r[i - 1].upper {
        if i < k {
        } else if i == k {
        } else if i == k + 1 {
        } else if i == k + 2 {
          assert r[i] == rs[k + 1];
        } else {
          assert r[i] == rs[i - 1] && r[i - 1] == rs[i - 2];
        }
      }
    }
    assert OrderedLimits(r) by {
      forall i, j | 0 <= i < j < |r| ensures r[i].upper <= r[j].upper {
        var ui := if i <= k then (if i < k then rs[i].upper else u) else rs[i - 1].upper;
        var uj := if j <= k then (if j < k then rs[j].upper else u) else rs[j - 1].upper;
        assert r[i].upper == ui && r[j].upper == uj;
        if j <= k {
          if j == k && i < k {
            assert rs[i].upper <= u;
          }
        } else if i <= k {
          assert rs[k].upper <= rs[j - 1].upper;
        }
      }
      forall i | 0 <= i < |r| - 1 ensures r[i].upper < MaximumUpperLimit {
        if i < k {
          assert rs[i].upper <= u;
        } else if i > k {
          assert r[i].upper == rs[i - 1].upper;
        }
      }
    }
    assert ListsWithoutDuplicates(r) by {
      StrictlySortedHasNoDuplicates(SortedUnique(equipment));
      forall i | 0 <= i < |r| ensures NoDuplicates(r[i].equipment) {
        if i > k + 1 {
          assert r[i] == rs[i - 1];
        }
      }
    }
  }

  /** Merging range k into its successor keeps the ranges a partition. */
  lemma {:induction false} MergeIsPartition(rs: seq<LoadRange>, k: nat)
    requires IsPartition(rs)
    requires k + 1 < |rs|
    ensures IsPartition(Merge(rs, k))
  {
    var r := Merge(rs, k);
    assert |r| == |rs| - 1;
    assert forall i :: 0 <= i < k ==> r[i] == rs[i];
    assert r[k] == rs[k + 1].(lower := rs[k].lower);
    assert forall i :: k < i < |r| ==> r[i] == rs[i + 1];
    assert Contiguous(r) by {
      forall i | 0 < i < |r| ensures r[i].lower == r[i - 1].upper {
        if i > k + 1 {
          assert r[i - 1] == rs[i];
        } else if i == k + 1 {
          assert r[i - 1].upper == rs[k + 1].upper;
        }
      }
    }
    assert OrderedLimits(r) by {
      forall i, j | 0 <= i < j < |r| ensures r[i].upper <= r[j].upper {
        var i' := if i < k then i else i + 1;
        var j' := if j < k then j else j + 1;
        assert r[i].upper == rs[i'].upper && r[j].upper == rs[j'].upper;
      }
      forall i | 0 <= i < |r| - 1 ensures r[i].upper < MaximumUpperLimit {
        var i' := if i < k then i else i + 1;
        assert r[i].upper == rs[i'].upper;
      }
    }
    assert ListsWithoutDuplicates(r) by {
      forall i | 0 <= i < |r| ensures NoDuplicates(r[i].equipment) {
        var i' := if i < k then i else i + 1;
        assert r[i].equipment == rs[i'].equipment;
      }
    }
  }

  /** Removing the range just added at a fresh limit `u` restores the ranges and gives back
      the new range's equipment, sorted and without duplicates. */
  lemma {:induction false} AddThenRemoveRoundTrip(rs: seq<LoadRange>, u: real, equipment: seq<Equipment>)
    requires IsPartition(rs)
    requires u < MaximumUpperLimit
    requires forall i :: 0 <= i < |rs| ==> rs[i].upper != u
    ensures FirstAbove(rs, u) < |rs|
    ensures var r := Split(rs, FirstAbove(rs, u), u, equipment);
            && |r| > 1
            && FirstWithUpper(r, u) == FirstAbove(rs, u)
            && r[FirstAbove(rs, u)].equipment == SortedUnique(equipment)
            && Merge(r, FirstAbove(rs, u)) == rs
  {
    SplitIsPartition(rs, u, equipment);
    var k := FirstAbove(rs, u);
    var r := Split(rs, k, u, equipment);
    assert forall i :: 0 <= i < k ==> r[i] == rs[i];
    assert r[k].upper == u;
    var m := Merge(r, k);
    assert |m| == |rs|;
    forall i | 0 <= i < |rs| ensures m[i] == rs[i] {
      if i < k {
      } else if i == k {
        assert m[k] == r[k + 1].(lower := r[k].lower);
      } else {
        assert m[i] == r[i + 1];
      }
    }
  }

  /** Taking out a piece of equipment just added to a list that lacked it restores the list. */
  lemma {:induction false} RemoveAddedEquipment(s: seq<Equipment>, e: Equipment)
    requires e !in s
    ensures RemoveAll(s + [e], e) == s
  {
    if s == [] {
      assert [] + [e] == [e];
    } else {
      assert (s + [e])[1..] == s[1..] + [e];
      RemoveAddedEquipment(s[1..], e);
    }
  }

  /** Removing equipment keeps a list free of duplicates and keeps the order of the rest. */
  lemma {:induction false} RemoveAllKeepsNoDuplicates(s: seq<Equipment>, e: Equipment)
    requires NoDuplicates(s)
    ensures NoDuplicates(RemoveAll(s, e))
  {
    if s != [] {
      RemoveAllKeepsNoDuplicates(s[1..], e);
      assert NoDuplicates(s[1..]) by {
        forall i, j | 0 <= i < j < |s[1..]| ensures s[1..][i] != s[1..][j] {
          assert s[1..][i] == s[i + 1] && s[1..][j] == s[j + 1];
        }
      }
      if s[0] != e {
        var t := RemoveAll(s[1..], e);
        assert s[0] !in t by {
          assert s[0] !in s[1..];
        }
        forall i, j | 0 <= i < j < |[s[0]] + t| ensures ([s[0]] + t)[i] != ([s[0]] + t)[j] {
          if i == 0 {
            assert ([s[0]] + t)[j] == t[j - 1];
          } else {
            assert ([s[0]] + t)[i] == t[i - 1] && ([s[0]] + t)[j] == t[j - 1];
          }
        }
      }
    }
  }

  /** A negative limit is accepted: when every range ends at or above 0, the new first range
      [0, u] ends below the 0 at which it starts. */
  lemma NegativeLimitInvertsFirstRange(rs: seq<LoadRange>, u: real, equipment: seq<Equipment>)
    requires IsPartition(rs)
    requires u < 0.0 <= rs[0].upper
    ensures FirstAbove(rs, u) == 0
    ensures IsPartition(Split(rs, 0, u, equipment))
    ensures Split(rs, 0, u, equipment)[0].upper < Split(rs, 0, u, equipment)[0].lower
  {
    SplitIsPartition(rs, u, equipment);
  }

  // ---------------------------------------------------------------------------
  // The scheme object
  // ---------------------------------------------------------------------------

  class LoadScheme {
    /** The extensible groups of the scheme, in order. */
    var ranges: seq<LoadRange>

    ghost predicate Valid()
      reads this
    {
      IsPartition(ranges)
    }

    /** A new scheme holds the one range [0, 1e9] with an empty equipment list. */
    constructor ()
      ensures Valid()
      ensures ranges == [LoadRange(0.0, MaximumUpperLimit, [])]
    {
      ranges := [LoadRange(0.0, MaximumUpperLimit, [])];
    }

    /** Splits the first range whose upper limit exceeds `upperLimit`; false when there is none. */
    method AddLoadRange(upperLimit: real, equipment: seq<Equipment>) returns (added: bool)
      requires Valid()
      modifies this
      ensures Valid()
      ensures added <==> upperLimit < MaximumUpperLimit
      ensures added ==> ranges == Split(old(ranges), FirstAbove(old(ranges), upperLimit), upperLimit, equipment)
      ensures !added ==> ranges == old(ranges)
    {
      FirstAboveInRange(ranges, upperLimit);
      var i := 0;
      while i < |ranges|
        invariant 0 <= i <= |ranges|
        invariant ranges == old(ranges)
        invariant forall j :: 0 <= j < i ==> ranges[j].upper <= upperLimit
      {
        if upperLimit < ranges[i].upper {
          SplitIsPartition(ranges, upperLimit, equipment);
          var current := ranges[i];
          ranges := ranges[..i]
            + [LoadRange(current.lower, upperLimit, SortedUnique(equipment)), current.(lower := upperLimit)]
            + ranges[i + 1..];
          return true;
        }
        i := i + 1;
      }
      return false;
    }

    /** Merges the first range whose upper limit is `upperLimit` into its successor and returns
        that range's equipment; returns nothing and changes nothing when there is only one range,
        when `upperLimit` is not below 1e9, or when no range ends at `upperLimit`. */
    method RemoveLoadRange(upperLimit: real) returns (removed: seq<Equipment>)
      requires Valid()
      modifies this
      ensures Valid()
      ensures var k := FirstWithUpper(old(ranges), upperLimit);
              if |old(ranges)| == 1 || upperLimit >= MaximumUpperLimit || k == |old(ranges)| then
                removed == [] && ranges == old(ranges)
              else
                k + 1 < |old(ranges)| && removed == old(ranges)[k].equipment && ranges == Merge(old(ranges), k)
    {
      if |ranges| == 1 {
        return [];
      }
      if upperLimit >= MaximumUpperLimit {
        return [];
      }
      var i := 0;
      while i < |ranges|
        invariant 0 <= i <= |ranges|
        invariant ranges == old(ranges)
        invariant forall j :: 0 <= j < i ==> ranges[j].upper != upperLimit
      {
        if ranges[i].upper == upperLimit {
          // the last range ends at 1e9, so the matched range has a successor
          assert i + 1 < |ranges|;
          MergeIsPartition(ranges, i);
          removed := ranges[i].equipment;
          ranges := ranges[..i] + [ranges[i + 1].(lower := ranges[i].lower)] + ranges[i + 2..];
          return;
        }
        i := i + 1;
      }
      return [];
    }

    /** The upper limit of every range, in order. */
    method LoadRangeUpperLimits() returns (limits: seq<real>)
      ensures |limits| == |ranges|
      ensures forall i :: 0 <= i < |ranges| ==> limits[i] == ranges[i].upper
    {
      limits := [];
      var i := 0;
      while i < |ranges|
        invariant 0 <= i <= |ranges|
        invariant |limits| == i
        invariant forall j :: 0 <= j < i ==> limits[j] == ranges[j].upper
      {
        limits := limits + [ranges[i].upper];
        i := i + 1;
      }
    }

    /** The equipment of the first range ending at `upperLimit`, or nothing when none does. */
    method EquipmentAt(upperLimit: real) returns (equipment: seq<Equipment>)
      ensures var k := FirstWithUpper(ranges, upperLimit);
              equipment == if k < |ranges| then ranges[k].equipment else []
    {
      var i := 0;
      while i < |ranges|
        invariant 0 <= i <= |ranges|
        invariant forall j :: 0 <= j < i ==> ranges[j].upper != upperLimit
      {
        if ranges[i].upper == upperLimit {
          return ranges[i].equipment;
        }
        i := i + 1;
      }
      return [];
    }

    /** Appends `e` to the first range ending at `upperLimit` that lacks it; false when every
        range ending there already holds it, or when no range ends there. */
    method AddEquipmentAt(upperLimit: real, e: Equipment) returns (added: bool)
      requires Valid()
      modifies this
      ensures Valid()
      ensures var k := FirstWithUpperLacking(old(ranges), upperLimit, e);
              && (added <==> k < |old(ranges)|)
              && ranges == if added then old(ranges)[k := old(ranges)[k].(equipment := old(ranges)[k].equipment + [e])]
                           else old(ranges)
    {
      var i := 0;
      while i < |ranges|
        invariant 0 <= i <= |ranges|
        invariant ranges == old(ranges)
        invariant forall j :: 0 <= j < i ==> ranges[j].upper != upperLimit || e in ranges[j].equipment
      {
        if ranges[i].upper == upperLimit && e !in ranges[i].equipment {
          ranges := ranges[i := ranges[i].(equipment := ranges[i].equipment + [e])];
          return true;
        }
        i := i + 1;
      }
      return false;
    }

    /** Appends `e` to the last range unless it already holds it. */
    method AddEquipment(e: Equipment) returns (added: bool)
      requires Valid()
      modifies this
      ensures Valid()
      ensures var last := |old(ranges)| - 1;
              && (added <==> e !in old(ranges)[last].equipment)
              && ranges == if added then old(ranges)[last := old(ranges)[last].(equipment := old(ranges)[last].equipment + [e])]
                           else old(ranges)
    {
      var last := |ranges| - 1;
      if e !in ranges[last].equipment {
        ranges := ranges[last := ranges[last].(equipment := ranges[last].equipment + [e])];
        return true;
      }
      return false;
    }

    /** Takes `e` out of the first range ending at `upperLimit`; true exactly when that range held it. */
    method RemoveEquipment(upperLimit: real, e: Equipment) returns (removed: bool)
      requires Valid()
      modifies this
      ensures Valid()
      ensures var k := FirstWithUpper(old(ranges), upperLimit);
              && (removed <==> k < |old(ranges)| && e in old(ranges)[k].equipment)
              && ranges == if removed then old(ranges)[k := old(ranges)[k].(equipment := RemoveAll(old(ranges)[k].equipment, e))]
                           else old(ranges)
    {
      var i := 0;
      while i < |ranges|
        invariant 0 <= i <= |ranges|
        invariant ranges == old(ranges)
        invariant forall j :: 0 <= j < i ==> ranges[j].upper != upperLimit
      {
        if ranges[i].upper == upperLimit {
          if e in ranges[i].equipment {
            RemoveAllKeepsNoDuplicates(ranges[i].equipment, e);
            ranges := ranges[i := ranges[i].(equipment := RemoveAll(ranges[i].equipment, e))];
            return true;
          } else {
            return false;
          }
        }
        i := i + 1;
      }
      return false;
    }

    /** The source leaves this operation empty: it changes nothing. */
    method ClearLoadRanges()
    {
    }
  }
}
