/** lib/tour.ts: the place record, weighted random selection, the
    time-of-day bucket and the candidate filter. The haversine distance is
    a parameter `dist`; the random draw and the clock's hour are inputs. */
module Tour {
  import opened Basics

  datatype TimeOfDay = Morning | Afternoon | Evening

  /** The narrative slot a place can fill in a tour. */
  datatype SpotRole = Anchor | Highlight | Supporting | Micro

  datatype Coord = Coord(lat: real, lon: real)

  /** A point of interest of the curated catalog. A `generationWeight` of 0
      stands for an absent weight: both are falsy for `||` in the source. */
  datatype Place = Place(
    id: string,
    name: string,
    coordinates: Coord,
    spotRole: SpotRole,
    durationEstimateMin: nat,
    generationWeight: nat,
    timeOfDay: seq<TimeOfDay>)

  /** The great-circle distance in kilometres between two coordinates. */
  type Distance = (Coord, Coord) -> real

  // ---------------------------------------------------------------------
  // Weighted random selection
  // ---------------------------------------------------------------------

  /** `s.generation_weight || 1`: an absent or zero weight counts as 1. */
  function Weight(p: Place): (w: nat)
    ensures w >= 1
    ensures p.generationWeight == 0 ==> w == 1
    ensures p.generationWeight != 0 ==> w == p.generationWeight
  {
    if p.generationWeight == 0 then 1 else p.generationWeight
  }

  /** The `reduce` of line 30: the sum of the weights, in list order. Every
      spot contributes at least 1, so a non-empty list has a positive total. */
  function TotalWeight(spots: seq<Place>): (total: nat)
    ensures total >= |spots|
  {
    if spots == [] then 0
    else TotalWeight(spots[..|spots| - 1]) + Weight(spots[|spots| - 1])
  }

  /** Cumulative weight of the first k spots: the value of `running` once
      the loop has passed k spots. */
  function CumulativeWeight(spots: seq<Place>, k: nat): nat
    requires k <= |spots|
  {
    TotalWeight(spots[..k])
  }

  lemma CumulativeStep(spots: seq<Place>, k: nat)
    requires k < |spots|
    ensures CumulativeWeight(spots, k + 1) == CumulativeWeight(spots, k) + Weight(spots[k])
  {
    assert spots[..k + 1][..k] == spots[..k];
  }

  /** Each further spot raises the cumulative weight by at least 1. */
  lemma {:induction false} CumulativeIncreasing(spots: seq<Place>, i: nat, j: nat)
    requires i <= j <= |spots|
    ensures CumulativeWeight(spots, i) + (j - i) <= CumulativeWeight(spots, j)
    decreases j - i
  {
    if i < j {
      CumulativeIncreasing(spots, i, j - 1);
      CumulativeStep(spots, j - 1);
    }
  }

  /** The first position at or after `i` whose cumulative weight reaches
      `rand`; 0 (the `spots[0]` fallback) when there is none. */
  function FirstCovering(spots: seq<Place>, rand: real, i: nat): (k: nat)
    requires i <= |spots|
    ensures spots != [] ==> k < |spots|
    decreases |spots| - i
  {
    if i == |spots| then 0
    else if rand <= CumulativeWeight(spots, i + 1) as real then i
    else FirstCovering(spots, rand, i + 1)
  }

  /** The position `weightedRandom` returns for `rand == Math.random() * total`. */
  function SelectIndex(spots: seq<Place>, rand: real): (k: nat)
    ensures spots != [] ==> k < |spots|
  {
    FirstCovering(spots, rand, 0)
  }

  /** What `weightedRandom(spots)` returns when `Math.random()` yields `u`. */
  function WeightedPick(spots: seq<Place>, u: real): (r: Option<Place>)
    ensures r.None? <==> spots == []
    ensures r.Some? ==> r.value in spots
  {
    if spots == [] then None
    else Some(spots[SelectIndex(spots, ScaledDraw(u, TotalWeight(spots)))])
  }

  /** `Math.random() * totalWeight`. */
  function ScaledDraw(u: real, totalWeight: nat): real
  {
    u * totalWeight as real
  }

  /** weightedRandom: the running-sum scan of lines 27-44, with the draw
      `u` (the value of `Math.random()`) as an input. */
  method WeightedRandom(spots: seq<Place>, u: real) returns (r: Option<Place>)
    ensures r == WeightedPick(spots, u)
    ensures r.None? <==> spots == []
    ensures r.Some? ==> r.value in spots
  {
    if |spots| == 0 {
      return None;
    }
    var totalWeight := TotalWeight(spots);
    var rand := ScaledDraw(u, totalWeight);
    var running := 0;
    for i := 0 to |spots|
      invariant running == CumulativeWeight(spots, i)
      invariant SelectIndex(spots, rand) == FirstCovering(spots, rand, i)
    {
      CumulativeStep(spots, i);
      running := running + Weight(spots[i]);
      if rand <= running as real {
        return Some(spots[i]);
      }
    }
    assert SelectIndex(spots, rand) == 0;
    return Some(spots[0]);
  }

  /** Scanning from `i` on, with no earlier position covering `rand`, finds
      the first covering position as soon as the whole list covers it. */
  lemma {:induction false} FirstCoveringFinds(spots: seq<Place>, rand: real, i: nat)
    requires i < |spots|
    requires rand <= TotalWeight(spots) as real
    requires forall j :: 1 <= j <= i ==> CumulativeWeight(spots, j) as real < rand
    ensures var k := FirstCovering(spots, rand, i);
      && i <= k < |spots|
      && rand <= CumulativeWeight(spots, k + 1) as real
      && forall j :: 1 <= j <= k ==> CumulativeWeight(spots, j) as real < rand
    decreases |spots| - i
  {
    assert spots[..|spots|] == spots;
    if rand > CumulativeWeight(spots, i + 1) as real {
      FirstCoveringFinds(spots, rand, i + 1);
    }
  }

  /** For a draw no larger than the total weight the scan always returns
      inside the loop: the result is the first spot whose cumulative weight
      reaches the draw, and the `spots[0]` fallback is never taken. */
  lemma SelectionRule(spots: seq<Place>, rand: real)
    requires spots != []
    requires rand <= TotalWeight(spots) as real
    ensures var k := SelectIndex(spots, rand);
      && k < |spots|
      && rand <= CumulativeWeight(spots, k + 1) as real
      && forall j :: 1 <= j <= k ==> CumulativeWeight(spots, j) as real < rand
  {
    FirstCoveringFinds(spots, rand, 0);
  }

  /** The draws that select position i form the interval
      (CumulativeWeight(i), CumulativeWeight(i + 1)] (closed at 0 for the
      first spot), whose width is exactly the spot's weight: the
      deterministic core of "probability weight / total". */
  lemma SelectionInterval(spots: seq<Place>, rand: real, i: nat)
    requires i < |spots|
    requires rand <= TotalWeight(spots) as real
    ensures SelectIndex(spots, rand) == i <==>
      (i == 0 || CumulativeWeight(spots, i) as real < rand) && rand <= CumulativeWeight(spots, i + 1) as real
    ensures CumulativeWeight(spots, i + 1) - CumulativeWeight(spots, i) == Weight(spots[i])
  {
    SelectionRule(spots, rand);
    CumulativeStep(spots, i);
    var k := SelectIndex(spots, rand);
    if k < i {
      CumulativeIncreasing(spots, k + 1, i);
    } else if i < k {
      CumulativeIncreasing(spots, i + 1, k);
    }
  }

  /** `Math.random()` lies in [0, 1), so the scaled draw lies in [0, total). */
  lemma DrawBelowTotal(spots: seq<Place>, u: real)
    requires spots != []
    requires 0.0 <= u < 1.0
    ensures 0.0 <= ScaledDraw(u, TotalWeight(spots)) < TotalWeight(spots) as real
  {
    var t := TotalWeight(spots) as real;
    assert t >= 1.0;
    ProductSigns(u, t);
    ProductSigns(1.0 - u, t);
    assert t - u * t == (1.0 - u) * t;
  }

  lemma ProductSigns(a: real, b: real)
    requires a >= 0.0 && b > 0.0
    ensures a * b >= 0.0
    ensures a > 0.0 ==> a * b > 0.0
  {
  }

  // ---------------------------------------------------------------------
  // Time of day and candidates
  // ---------------------------------------------------------------------

  /** getCurrentTimeOfDay, with the clock's hour as an input. */
  function TimeOfDayAt(hour: int): (t: TimeOfDay)
    ensures t == Morning <==> hour < 12
    ensures t == Afternoon <==> 12 <= hour < 18
    ensures t == Evening <==> hour >= 18
  {
    if hour < 12 then Morning
    else if hour < 18 then Afternoon
    else Evening
  }

  /** The test inside candidatesNearby's filter. */
  predicate Eligible(dist: Distance, origin: Coord, radiusKm: real, time: TimeOfDay, p: Place)
  {
    dist(origin, p.coordinates) <= radiusKm && time in p.timeOfDay
  }

  /** candidatesNearby over `catalog`: exactly the places within the radius
      that are valid at `time`, in catalog order, duplicates kept. */
  function CandidatesNearby(dist: Distance, catalog: seq<Place>, origin: Coord, radiusKm: real, time: TimeOfDay): (r: seq<Place>)
    ensures forall p :: p in r <==> p in catalog && dist(origin, p.coordinates) <= radiusKm && time in p.timeOfDay
  {
    Filter(catalog, p => Eligible(dist, origin, radiusKm, time, p))
  }

  /** The candidates keep the catalog's order and every copy of an eligible
      place. */
  lemma CandidatesInCatalogOrder(dist: Distance, catalog: seq<Place>, origin: Coord, radiusKm: real, time: TimeOfDay)
    ensures var r := CandidatesNearby(dist, catalog, origin, radiusKm, time);
      && IsSubsequence(r, catalog)
      && forall p :: multiset(r)[p] == if Eligible(dist, origin, radiusKm, time, p) then multiset(catalog)[p] else 0
  {
    FilterIsSubsequence(catalog, p => Eligible(dist, origin, radiusKm, time, p));
    FilterCounts(catalog, p => Eligible(dist, origin, radiusKm, time, p));
  }

  /** Raising the radius never removes a candidate or reorders the rest. */
  lemma RadiusMonotone(dist: Distance, catalog: seq<Place>, origin: Coord, small: real, large: real, time: TimeOfDay)
    requires small <= large
    ensures IsSubsequence(CandidatesNearby(dist, catalog, origin, small, time),
                          CandidatesNearby(dist, catalog, origin, large, time))
  {
    FilterMonotone(catalog, p => Eligible(dist, origin, small, time, p), p => Eligible(dist, origin, large, time, p));
  }
}
