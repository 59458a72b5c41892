/**
 * The band-name partition of `LandsatImage._scale_refl`: which bands are
 * surface reflectance bands (rescaled) and which are passed through.
 */
module Reflectance {

  /** The prefix of Landsat surface reflectance band names. */
  const SrPrefix: string := "SR_B"

  /** `sub` occurs in `s` at index `j`. */
  predicate OccursAt(s: string, sub: string, j: int) {
    0 <= j && j + |sub| <= |s| && s[j..j + |sub|] == sub
  }

  /** The largest index `<= j` at which `sub` occurs in `s`, or -1. */
  function LastIndexUpTo(s: string, sub: string, j: int): (k: int)
    ensures k == -1 || 0 <= k <= j
    ensures k >= 0 ==> OccursAt(s, sub, k)
    ensures forall m :: k < m <= j ==> !OccursAt(s, sub, m)
    decreases j + 1
  {
    if j < 0 then -1
    else if OccursAt(s, sub, j) then j
    else LastIndexUpTo(s, sub, j - 1)
  }

  /** `ee.String(s).rindex(sub)`: where the last occurrence of `sub` starts, or -1 if none. */
  function RIndex(s: string, sub: string): (k: int)
    ensures k >= -1
    ensures k >= 0 ==> OccursAt(s, sub, k)
    ensures forall m :: k < m ==> !OccursAt(s, sub, m)
  {
    LastIndexUpTo(s, sub, |s| - |sub|)
  }

  /**
   * `rindex('SR_B').eq(0)`: a reflectance band name is one whose only
   * occurrence of `SR_B` is its prefix.
   */
  function IsReflectanceBand(name: string): (b: bool)
    ensures b <==> OccursAt(name, SrPrefix, 0) && forall m :: 0 < m ==> !OccursAt(name, SrPrefix, m)
  {
    RIndex(name, SrPrefix) == 0
  }

  /** Plain reflectance bands qualify; QA bands and a doubled prefix do not. */
  lemma ReflectanceBandExamples()
    ensures IsReflectanceBand("SR_B4")
    ensures !IsReflectanceBand("SR_QA_AEROSOL")
    ensures !IsReflectanceBand("SR_B1SR_B")
  {
    assert "SR_QA_AEROSOL"[0..4][3] != SrPrefix[3];
    assert OccursAt("SR_B1SR_B", SrPrefix, 5);
  }

  /** `all_bands.iterate(add_refl_bands, [])`: the reflectance bands, in band order. */
  function ReflectanceBands(names: seq<string>): (sr: seq<string>)
    ensures forall n :: n in sr <==> n in names && IsReflectanceBand(n)
    ensures |sr| <= |names|
  {
    if names == [] then []
    else ReflectanceBands(names[..|names| - 1]) +
         (if IsReflectanceBand(names[|names| - 1]) then [names[|names| - 1]] else [])
  }

  /** `list.removeAll(other)`: the elements of `names` that are not in `other`, in order. */
  function RemoveAll(names: seq<string>, other: seq<string>): (rest: seq<string>)
    ensures forall n :: n in rest <==> n in names && n !in other
  {
    if names == [] then []
    else (if names[0] in other then [] else [names[0]]) + RemoveAll(names[1..], other)
  }

  /** The bands `_scale_refl` leaves unscaled. */
  function OtherBands(names: seq<string>): (other: seq<string>)
    ensures forall n :: n in other <==> n in names && !IsReflectanceBand(n)
  {
    RemoveAll(names, ReflectanceBands(names))
  }

  /** The band names whose reflectance test equals `keep`, in order. */
  function Filter(names: seq<string>, keep: bool): (s: seq<string>)
    ensures forall n :: n in s <==> n in names && IsReflectanceBand(n) == keep
  {
    if names == [] then []
    else (if IsReflectanceBand(names[0]) == keep then [names[0]] else []) + Filter(names[1..], keep)
  }

  /**
   * The two lists partition the band names: together they hold every name
   * exactly as often as the image does, reflectance bands first.
   */
  lemma {:induction false} PartitionIsPermutation(names: seq<string>)
    ensures ReflectanceBands(names) == Filter(names, true)
    ensures OtherBands(names) == Filter(names, false)
    ensures multiset(ReflectanceBands(names)) + multiset(OtherBands(names)) == multiset(names)
  {
    ReflectanceIsFilter(names);
    RemoveAllIsFilter(names, ReflectanceBands(names));
    FilterSplits(names);
  }

  lemma {:induction false} ReflectanceIsFilter(names: seq<string>)
    ensures ReflectanceBands(names) == Filter(names, true)
  {
    if names != [] {
      var init := names[..|names| - 1];
      ReflectanceIsFilter(init);
      FilterAppend(init, [names[|names| - 1]], true);
      assert init + [names[|names| - 1]] == names;
    }
  }

  lemma {:induction false} FilterAppend(a: seq<string>, b: seq<string>, keep: bool)
    ensures Filter(a + b, keep) == Filter(a, keep) + Filter(b, keep)
  {
    if a != [] {
      FilterAppend(a[1..], b, keep);
      assert (a + b)[1..] == a[1..] + b;
    } else {
      assert a + b == b;
    }
  }

  lemma {:induction false} RemoveAllIsFilter(names: seq<string>, sr: seq<string>)
    requires forall n :: n in sr <==> n in names && IsReflectanceBand(n)
    ensures RemoveAll(names, sr) == Filter(names, false)
  {
    if names != [] {
      assert forall n :: n in sr ==> IsReflectanceBand(n);
      assert names[0] in sr <==> IsReflectanceBand(names[0]);
      RemoveAllTail(names[1..], sr);
    }
  }

  lemma {:induction false} RemoveAllTail(names: seq<string>, sr: seq<string>)
    requires forall n :: n in sr ==> IsReflectanceBand(n)
    requires forall n :: n in names && IsReflectanceBand(n) ==> n in sr
    ensures RemoveAll(names, sr) == Filter(names, false)
  {
    if names != [] {
      RemoveAllTail(names[1..], sr);
    }
  }

  lemma {:induction false} FilterSplits(names: seq<string>)
    ensures multiset(Filter(names, true)) + multiset(Filter(names, false)) == multiset(names)
  {
    if names != [] {
      FilterSplits(names[1..]);
      assert names == [names[0]] + names[1..];
    }
  }
}
