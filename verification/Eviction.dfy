/**
 Choosing which sections to evict: the halving search for an approximate
 median of the section usage counters.
 */
module Eviction {
  import opened Blocks

  datatype Section = Section(hasData: bool, usage: nat, mappings: Option<seq<nat>>)

  predicate Resident(s: Section) { s.mappings.Some? }

  function UsedMoreThan(t: nat): Section -> bool { (s: Section) => s.usage > t }

  /** Largest usage counter, 0 for an empty table. */
  function MaxUsage(s: seq<Section>): (m: nat)
    ensures forall i :: 0 <= i < |s| ==> s[i].usage <= m
    ensures m > 0 ==> exists i :: 0 <= i < |s| && s[i].usage == m
  {
    if s == [] then 0
    else
      var n := |s| - 1;
      assert forall i :: 0 <= i < n ==> s[..n][i] == s[i];
      Max(MaxUsage(s[..n]), s[n].usage)
  }

  /** The search from threshold `t` with step `g`; subtraction stays in range
      because the steps still to come never add up to more than `g`. */
  function HalvingSearch(s: seq<Section>, t: nat, g: nat): (r: nat)
    requires g <= t
    ensures t - g <= r <= t + g
    ensures g > 0 ==> t - g < r < t + g
    decreases g
  {
    if g == 0 then t
    else
      var more := Count(s, UsedMoreThan(t));
      if more > |s| - more then HalvingSearch(s, t + g / 2, g / 2)
      else if more < |s| - more then HalvingSearch(s, t - g / 2, g / 2)
      else t
  }

  /** The search moves to the side where most sections are. */
  lemma HalvingSearchFollowsMajority(s: seq<Section>, t: nat, g: nat)
    requires g <= t
    ensures 2 * Count(s, UsedMoreThan(t)) >= |s| ==> HalvingSearch(s, t, g) >= t
    ensures 2 * Count(s, UsedMoreThan(t)) <= |s| ==> HalvingSearch(s, t, g) <= t
  {
  }

  /** It really moves, unless the sections are balanced or the step is too small. */
  lemma HalvingSearchMoves(s: seq<Section>, t: nat, g: nat)
    requires g <= t
    ensures g >= 2 && 2 * Count(s, UsedMoreThan(t)) > |s| ==> HalvingSearch(s, t, g) > t
    ensures g >= 2 && 2 * Count(s, UsedMoreThan(t)) < |s| ==> HalvingSearch(s, t, g) < t
    ensures g < 2 || 2 * Count(s, UsedMoreThan(t)) == |s| ==> HalvingSearch(s, t, g) == t
  {
  }

  /** At threshold `r` the sections are balanced, or most of them are above the next
      threshold below, or only few are above the next one above. */
  ghost predicate NearMedian(s: seq<Section>, r: nat) {
    || 2 * Count(s, UsedMoreThan(r)) == |s|
    || (r > 0 && 2 * Count(s, UsedMoreThan(r - 1)) > |s|)
    || 2 * Count(s, UsedMoreThan(r + 1)) < |s|
  }

  lemma OneStep(s: seq<Section>, t: nat)
    ensures 2 * Count(s, UsedMoreThan(t)) > |s| ==> NearMedian(s, t + 1)
    ensures 2 * Count(s, UsedMoreThan(t)) < |s| && t > 0 ==> NearMedian(s, t - 1)
    ensures 2 * Count(s, UsedMoreThan(t)) == |s| ==> NearMedian(s, t)
  {
  }

  /** There the search stops: balanced, or one step from a threshold that sent it this way. */
  lemma {:induction false} HalvingSearchStops(s: seq<Section>, t: nat, g: nat)
    requires 2 <= g <= t
    ensures NearMedian(s, HalvingSearch(s, t, g))
    decreases g
  {
    var more, h := Count(s, UsedMoreThan(t)), g / 2;
    HalvingStep(s, t, g, h);
    OneStep(s, t);
    hide Count;
    hide HalvingSearch;
    hide NearMedian;
    if 2 * more > |s| {
      if h == 1 { HalvingSearchMoves(s, t + 1, 1); } else { HalvingSearchStops(s, t + h, h); }
    } else if 2 * more < |s| {
      if h == 1 { HalvingSearchMoves(s, t - 1, 1); } else { HalvingSearchStops(s, t - h, h); }
    }
  }

  lemma HalvingStep(s: seq<Section>, t: nat, g: nat, h: nat)
    requires 0 < g <= t && h == g / 2
    ensures var more := Count(s, UsedMoreThan(t));
      HalvingSearch(s, t, g) ==
        if 2 * more > |s| then HalvingSearch(s, t + h, h) else if 2 * more < |s| then HalvingSearch(s, t - h, h) else t
  {
  }

  method FindMax(sects: array<Section>) returns (max: nat)
    ensures max == MaxUsage(sects[..])
  {
    max := 0;
    var i := 0;
    while i < sects.Length
      invariant 0 <= i <= sects.Length
      invariant max == MaxUsage(sects[..i])
    {
      if sects[i].usage > max { max := sects[i].usage; }
      assert sects[..i + 1][..i] == sects[..i];
      i := i + 1;
    }
    assert sects[..i] == sects[..];
  }

  /** Eviction threshold of a section table. */
  method Threshold(sects: array<Section>) returns (thresh: nat)
    ensures var max := MaxUsage(sects[..]);
      && thresh == HalvingSearch(sects[..], max / 2, max / 2)
      && (thresh == 0 <==> max <= 1)
      && (max > 1 ==> 1 <= thresh <= max - 1)
  {
    hide MaxUsage;
    hide Count;
    thresh := FindMax(sects);
    thresh := thresh / 2;
    var granularity: nat := thresh;
    ghost var goal := HalvingSearch(sects[..], thresh, thresh);
    while granularity > 0
      invariant granularity <= thresh
      invariant HalvingSearch(sects[..], thresh, granularity) == goal
    {
      var less, greater := CountAround(sects, thresh);
      granularity := granularity / 2;
      if greater > less { thresh := thresh + granularity; }
      else if greater < less { thresh := thresh - granularity; }
      else { break; }
    }
  }

  method CountAround(sects: array<Section>, thresh: nat) returns (less: nat, greater: nat)
    ensures greater == Count(sects[..], UsedMoreThan(thresh))
    ensures less == sects.Length - greater
  {
    less, greater := 0, 0;
    var i := 0;
    while i < sects.Length
      invariant 0 <= i <= sects.Length
      invariant greater == Count(sects[..i], UsedMoreThan(thresh))
      invariant less == i - greater
    {
      assert sects[..i + 1][..i] == sects[..i];
      if sects[i].usage <= thresh { less := less + 1; } else { greater := greater + 1; }
      i := i + 1;
    }
    assert sects[..i] == sects[..];
  }
}
