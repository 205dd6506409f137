/** app/page.tsx: the curated tour engine inside `generateTour`, the stop
    editor (`removeStop`, `replaceStop`) and the page state that they set.
    The start point arrives already resolved (geolocation and geocoding
    are not part of this model); the clock's hour and every `Math.random()`
    draw are inputs. */
module Page {
  import opened Basics
  import opened Tour

  const BaseRadius: nat := 4000   // metres
  const WideRadius: nat := 10000  // metres
  const MinCandidates: nat := 3
  const MaxDuration: nat := 180   // minutes
  const MaxStops: nat := 4

  const NoPlacesMessage: string := "Keine passenden Orte im Radius."
  const NoReplacementMessage: string := "Kein Ersatz verfügbar"
  const InvalidStartMessage: string := "Kein gültiger Startpunkt."
  const RemovedNotice: string := "Stopp entfernt"
  const ReplacedNotice: string := "Stopp ersetzt"

  // ---------------------------------------------------------------------
  // Stops, ids and durations
  // ---------------------------------------------------------------------

  /** The ids held by a list of stops. */
  function Ids(stops: seq<Place>): set<string>
  {
    set p | p in stops :: p.id
  }

  predicate UniqueIds(stops: seq<Place>)
  {
    forall i, j :: 0 <= i < j < |stops| ==> stops[i].id != stops[j].id
  }

  /** The catalog's own promise: every place has a non-empty id of its own. */
  predicate WellFormedCatalog(catalog: seq<Place>)
  {
    UniqueIds(catalog) && forall p :: p in catalog ==> p.id != ""
  }

  /** The sum of the estimated visit durations, in minutes. */
  function SumDurations(stops: seq<Place>): nat
  {
    if stops == [] then 0
    else SumDurations(stops[..|stops| - 1]) + stops[|stops| - 1].durationEstimateMin
  }

  lemma SumDurationsAppend(stops: seq<Place>, p: Place)
    ensures SumDurations(stops + [p]) == SumDurations(stops) + p.durationEstimateMin
  {
    assert (stops + [p])[..|stops|] == stops;
  }

  lemma IdsAppend(stops: seq<Place>, p: Place)
    ensures Ids(stops + [p]) == Ids(stops) + {p.id}
  {
    assert forall q :: q in stops + [p] <==> q in stops || q == p;
  }

  lemma {:induction false} SubsequenceMembers<T>(a: seq<T>, b: seq<T>)
    requires IsSubsequence(a, b)
    ensures forall x :: x in a ==> x in b
    decreases |b|
  {
    if a != [] {
      if a[0] == b[0] && IsSubsequence(a[1..], b[1..]) {
        SubsequenceMembers(a[1..], b[1..]);
        assert a == [a[0]] + a[1..];
      } else {
        SubsequenceMembers(a, b[1..]);
      }
    }
  }

  /** Dropping places from a list with distinct ids keeps the ids distinct. */
  lemma {:induction false} SubsequenceUniqueIds(a: seq<Place>, b: seq<Place>)
    requires IsSubsequence(a, b) && UniqueIds(b)
    ensures UniqueIds(a)
    decreases |b|
  {
    if a != [] {
      assert UniqueIds(b[1..]) by {
        forall i, j | 0 <= i < j < |b[1..]| ensures b[1..][i].id != b[1..][j].id {
          assert b[1..][i] == b[i + 1] && b[1..][j] == b[j + 1];
        }
      }
      if a[0] == b[0] && IsSubsequence(a[1..], b[1..]) {
        SubsequenceUniqueIds(a[1..], b[1..]);
        SubsequenceMembers(a[1..], b[1..]);
        forall i, j | 0 <= i < j < |a| ensures a[i].id != a[j].id {
          if i == 0 {
            assert a[j] == a[1..][j - 1];
            assert a[j] in b[1..];
            var m :| 0 <= m < |b[1..]| && b[1..][m] == a[j];
            assert b[m + 1] == a[j];
          } else {
            assert a[i] == a[1..][i - 1] && a[j] == a[1..][j - 1];
          }
        }
      } else {
        SubsequenceUniqueIds(a, b[1..]);
      }
    }
  }

  // ---------------------------------------------------------------------
  // The candidate pools of the engine
  // ---------------------------------------------------------------------

  /** `RADIUS / 1000`: a radius in metres as kilometres. */
  function Km(radius: nat): real
  {
    radius as real / 1000.0
  }

  /** `candidatesNearby(lat, lon, RADIUS / 1000, TIME)` for the hour `hour`. */
  function SearchCandidates(dist: Distance, catalog: seq<Place>, origin: Coord, hour: int, radius: nat): seq<Place>
  {
    CandidatesNearby(dist, catalog, origin, Km(radius), TimeOfDayAt(hour))
  }

  /** The radius the engine settles on: 4 km, or 10 km when 4 km gives
      fewer than three candidates. */
  function ChosenRadius(dist: Distance, catalog: seq<Place>, origin: Coord, hour: int): (radius: nat)
    ensures radius == WideRadius <==> |SearchCandidates(dist, catalog, origin, hour, BaseRadius)| < MinCandidates
    ensures radius == BaseRadius || radius == WideRadius
  {
    if |SearchCandidates(dist, catalog, origin, hour, BaseRadius)| < MinCandidates && BaseRadius < WideRadius
    then WideRadius
    else BaseRadius
  }

  predicate IsFill(p: Place)
  {
    p.spotRole == Supporting || p.spotRole == Micro
  }

  /** The anchor-role candidates, in order. */
  function Anchors(candidates: seq<Place>): (r: seq<Place>)
    ensures forall p :: p in r <==> p in candidates && p.spotRole == Anchor
  {
    Filter(candidates, (p: Place) => p.spotRole == Anchor)
  }

  /** The highlight-role candidates whose id is not yet in the tour. */
  function Highlights(candidates: seq<Place>, tour: seq<Place>): (r: seq<Place>)
    ensures forall p :: p in r <==> p in candidates && p.spotRole == Highlight && p.id !in Ids(tour)
  {
    Filter(candidates, (p: Place) => p.spotRole == Highlight && p.id !in Ids(tour))
  }

  /** The supporting and micro candidates whose id is not yet in the tour:
      the initial `remaining` of the fill loop. */
  function FillPool(candidates: seq<Place>, tour: seq<Place>): (r: seq<Place>)
    ensures forall p :: p in r <==> p in candidates && p.id !in Ids(tour) && IsFill(p)
  {
    Filter(candidates, (p: Place) => p.id !in Ids(tour) && IsFill(p))
  }

  /** `weightedRandom(anchors) || weightedRandom(candidates)`. */
  function FirstStop(candidates: seq<Place>, draws: nat -> real): (r: Option<Place>)
    ensures candidates != [] ==> r.Some? && r.value in candidates
    ensures Anchors(candidates) != [] ==> r.Some? && r.value.spotRole == Anchor
  {
    if Anchors(candidates) != [] then WeightedPick(Anchors(candidates), draws(0))
    else WeightedPick(candidates, draws(1))
  }

  /** `findIndex(r => r.id === id)`: the first position holding `id`, or -1. */
  function IndexOfId(s: seq<Place>, id: string): (i: int)
    ensures -1 <= i < |s|
    ensures i == -1 <==> forall j :: 0 <= j < |s| ==> s[j].id != id
    ensures 0 <= i ==> s[i].id == id && forall j :: 0 <= j < i ==> s[j].id != id
  {
    if s == [] then -1
    else if s[0].id == id then 0
    else
      var i := IndexOfId(s[1..], id);
      if i == -1 then -1 else i + 1
  }

  /** `s.filter((_, i) => i !== idx)`, which is also what `splice(idx, 1)`
      leaves behind: the element at `idx` is dropped, the others keep their
      order, and an index outside the list changes nothing. */
  function RemoveAt<T>(s: seq<T>, idx: int): (r: seq<T>)
    ensures 0 <= idx < |s| ==> r == s[..idx] + s[idx + 1..]
    ensures !(0 <= idx < |s|) ==> r == s
  {
    if s == [] then []
    else
      assert s == [s[0]] + s[1..];
      (if idx == 0 then [] else [s[0]]) + RemoveAt(s[1..], idx - 1)
  }

  /** Removing the one place that holds a given id from a list with
      distinct ids removes exactly the places with that id. */
  lemma RemoveAtShifts<T>(s: seq<T>, idx: nat, i: nat)
    requires idx < |s| && i < |s| - 1
    ensures |RemoveAt(s, idx)| == |s| - 1
    ensures RemoveAt(s, idx)[i] == s[if i < idx then i else i + 1]
  {
  }

  lemma RemoveUniqueId(s: seq<Place>, idx: nat)
    requires UniqueIds(s) && idx < |s|
    ensures UniqueIds(RemoveAt(s, idx))
    ensures forall p :: p in RemoveAt(s, idx) <==> p in s && p.id != s[idx].id
  {
    RemoveKeepsUnique(s, idx);
    RemoveDropsId(s, idx);
    RemoveKeepsOtherIds(s, idx);
  }

  lemma RemoveKeepsUnique(s: seq<Place>, idx: nat)
    requires UniqueIds(s) && idx < |s|
    ensures UniqueIds(RemoveAt(s, idx))
  {
    var r := RemoveAt(s, idx);
    forall i, j | 0 <= i < j < |r| ensures r[i].id != r[j].id {
      RemoveAtShifts(s, idx, i);
      RemoveAtShifts(s, idx, j);
    }
  }

  lemma RemoveDropsId(s: seq<Place>, idx: nat)
    requires UniqueIds(s) && idx < |s|
    ensures forall p :: p in RemoveAt(s, idx) ==> p in s && p.id != s[idx].id
  {
    var r := RemoveAt(s, idx);
    forall p | p in r ensures p in s && p.id != s[idx].id {
      var m :| 0 <= m < |r| && r[m] == p;
      RemoveAtShifts(s, idx, m);
    }
  }

  lemma RemoveKeepsOtherIds(s: seq<Place>, idx: nat)
    requires idx < |s|
    ensures forall p :: p in s && p.id != s[idx].id ==> p in RemoveAt(s, idx)
  {
    var r := RemoveAt(s, idx);
    forall p | p in s && p.id != s[idx].id ensures p in r {
      var m :| 0 <= m < |s| && s[m] == p;
      var n := if m < idx then m else m - 1;
      RemoveAtShifts(s, idx, n);
    }
  }

  lemma UniqueIdsAppend(stops: seq<Place>, p: Place)
    requires UniqueIds(stops) && p.id !in Ids(stops)
    ensures UniqueIds(stops + [p])
  {
    forall i, j | 0 <= i < j < |stops + [p]| ensures (stops + [p])[i].id != (stops + [p])[j].id {
      if j == |stops| {
        assert stops[i] in stops;
      }
    }
  }

  // ---------------------------------------------------------------------
  // The curated tour engine
  // ---------------------------------------------------------------------

  datatype CuratedTour = CuratedTour(stops: seq<Place>, totalDuration: nat)

  /** What every tour the engine produces satisfies: one to four stops, no
      id twice, every stop a candidate, and the 180-minute budget kept as
      soon as there is more than the first stop. */
  predicate IsTourOf(stops: seq<Place>, candidates: seq<Place>)
  {
    && 1 <= |stops| <= MaxStops
    && UniqueIds(stops)
    && (forall p :: p in stops ==> p in candidates)
    && (|stops| > 1 ==> SumDurations(stops) <= MaxDuration)
  }

  /** The highlight sits in second place exactly when the draw from the
      highlights not yet in the tour yields one that fits the budget
      together with the first stop. */
  ghost predicate HighlightRule(candidates: seq<Place>, draws: nat -> real, stops: seq<Place>)
    requires stops != []
  {
    var h := WeightedPick(Highlights(candidates, stops[..1]), draws(2));
    && ((|stops| >= 2 && stops[1].spotRole == Highlight) <==>
        (h.Some? && stops[0].durationEstimateMin + h.value.durationEstimateMin <= MaxDuration))
    && (|stops| >= 2 && stops[1].spotRole == Highlight ==> stops[1] == h.value)
  }

  /** The fill loop stops short of four stops only when the pool is used up
      or a pick would overflow the budget. */
  ghost predicate FillRule(candidates: seq<Place>, stops: seq<Place>, totalDuration: nat)
  {
    |stops| < MaxStops ==>
      (forall p :: p in candidates && IsFill(p) ==> p.id in Ids(stops)) ||
      (exists p :: p in candidates && IsFill(p) && p.id !in Ids(stops) &&
                   totalDuration + p.durationEstimateMin > MaxDuration)
  }

  /** What the engine promises of the tour it builds from `candidates`
      with the draws `draws`. */
  ghost predicate EngineTour(candidates: seq<Place>, draws: nat -> real, stops: seq<Place>, totalDuration: nat)
  {
    && IsTourOf(stops, candidates)
    && totalDuration == SumDurations(stops)
    // the first stop: an anchor whenever there is one, admitted unconditionally
    && FirstStop(candidates, draws) == Some(stops[0])
    && HighlightRule(candidates, draws, stops)
    // everything after is a supporting or micro stop
    && (forall i :: 1 <= i < |stops| && stops[i].spotRole != Highlight ==> IsFill(stops[i]))
    && (forall i :: 2 <= i < |stops| ==> IsFill(stops[i]))
    && FillRule(candidates, stops, totalDuration)
  }

  /** The highlight rule carries over from the head of the tour to the
      whole tour, since the fill loop appends only supporting and micro
      stops. */
  lemma HighlightRuleExtends(candidates: seq<Place>, draws: nat -> real, head: seq<Place>, tour: seq<Place>)
    requires 1 <= |head| <= 2 && HighlightRule(candidates, draws, head)
    requires |head| <= |tour| && tour[..|head|] == head
    requires |head| == 2 ==> head[1].spotRole == Highlight
    requires forall i :: |head| <= i < |tour| ==> IsFill(tour[i])
    ensures HighlightRule(candidates, draws, tour)
  {
    assert tour[..1] == head[..1];
    assert |tour| >= 2 && tour[1].spotRole == Highlight ==> |head| == 2;
  }

  /** Lines 158-226 of generateTour: the candidate search, then BuildTour
      when there is a candidate. `radius` is the search radius in metres
      that the engine settled on. The tour is the one `PlanTour` describes
      for the candidates at that radius. */
  method AssembleTour(dist: Distance, catalog: seq<Place>, origin: Coord, hour: int, draws: nat -> real)
    returns (result: Result<CuratedTour>, radius: nat)
    requires UniqueIds(catalog)
    ensures radius == ChosenRadius(dist, catalog, origin, hour)
    ensures result.Err? <==> SearchCandidates(dist, catalog, origin, hour, radius) == []
    ensures result.Err? ==> result.message == NoPlacesMessage
    ensures result == EngineOutcome(dist, catalog, origin, hour, draws)
    ensures result.Ok? ==>
      && EngineTour(SearchCandidates(dist, catalog, origin, hour, radius), draws, result.value.stops, result.value.totalDuration)
  {
    var candidates;
    candidates, radius := FindCandidates(dist, catalog, origin, hour);
    if |candidates| == 0 {
      return Err(NoPlacesMessage), radius;
    }
    var tour, totalDuration := BuildTour(candidates, draws);
    return Ok(CuratedTour(tour, totalDuration)), radius;
  }

  /** What lines 158-226 yield for the start point `origin`: the message
      of line 170 when there is no candidate at the chosen radius, the
      planned tour otherwise. */
  ghost function EngineOutcome(dist: Distance, catalog: seq<Place>, origin: Coord, hour: int, draws: nat -> real): Result<CuratedTour>
  {
    var candidates := SearchCandidates(dist, catalog, origin, hour, ChosenRadius(dist, catalog, origin, hour));
    if candidates == [] then Err(NoPlacesMessage) else Ok(PlanTour(candidates, draws))
  }

  /** Lines 162-177: the candidates at 4 km, widened to 10 km when there
      are fewer than three. */
  method FindCandidates(dist: Distance, catalog: seq<Place>, origin: Coord, hour: int)
    returns (candidates: seq<Place>, radius: nat)
    requires UniqueIds(catalog)
    ensures radius == ChosenRadius(dist, catalog, origin, hour)
    ensures candidates == SearchCandidates(dist, catalog, origin, hour, radius)
    ensures UniqueIds(candidates)
  {
    var time := TimeOfDayAt(hour);
    radius := BaseRadius;
    candidates := CandidatesNearby(dist, catalog, origin, Km(radius), time);
    if |candidates| < MinCandidates && radius < WideRadius {
      radius := WideRadius;
      candidates := CandidatesNearby(dist, catalog, origin, Km(radius), time);
    }
    CandidatesInCatalogOrder(dist, catalog, origin, Km(radius), time);
    SubsequenceUniqueIds(candidates, catalog);
  }

  /** The first stop, followed by the drawn highlight when one is left and
      fits the 180-minute budget together with it (lines 187-201). */
  function TourHead(candidates: seq<Place>, start: Place, draws: nat -> real): (head: seq<Place>)
    ensures 1 <= |head| <= 2 && head[0] == start
  {
    var h := WeightedPick(Highlights(candidates, [start]), draws(2));
    if h.Some? && start.durationEstimateMin + h.value.durationEstimateMin <= MaxDuration
    then [start, h.value]
    else [start]
  }

  /** The fill loop of lines 210-226 from `tour`, its running duration and
      `remaining`, with `draws(k)` the value of the next draw. The first
      test of line 210: the loop ends at four stops. */
  function FillRun(tour: seq<Place>, totalDuration: nat, remaining: seq<Place>, draws: nat -> real, k: nat): CuratedTour
    decreases MaxStops - |tour|, 3
  {
    if |tour| >= MaxStops then CuratedTour(tour, totalDuration)
    else FillLeft(tour, totalDuration, remaining, draws, k)
  }

  /** The second test of line 210: the loop ends when the pool is empty. */
  function FillLeft(tour: seq<Place>, totalDuration: nat, remaining: seq<Place>, draws: nat -> real, k: nat): CuratedTour
    requires |tour| < MaxStops
    decreases MaxStops - |tour|, 2
  {
    if remaining == [] then CuratedTour(tour, totalDuration)
    else FillDraw(tour, totalDuration, remaining, draws, k)
  }

  /** Lines 211-218: `weightedRandom(remaining)` with the draw `draws(k)`;
      the loop ends when there is no pick or when the pick would overrun
      the budget, and that pick is not retried. */
  function FillDraw(tour: seq<Place>, totalDuration: nat, remaining: seq<Place>, draws: nat -> real, k: nat): CuratedTour
    requires |tour| < MaxStops
    decreases MaxStops - |tour|, 1
  {
    var next := WeightedPick(remaining, draws(k));
    if next.None? || totalDuration + next.value.durationEstimateMin > MaxDuration then CuratedTour(tour, totalDuration)
    else FillPush(tour, totalDuration, remaining, next.value, draws, k)
  }

  /** Lines 220-225: the pick joins the tour, its id is spliced out of
      `remaining`, and the loop goes on with the next draw. */
  function FillPush(tour: seq<Place>, totalDuration: nat, remaining: seq<Place>, x: Place, draws: nat -> real, k: nat): CuratedTour
    requires |tour| < MaxStops
    decreases MaxStops - |tour|, 0
  {
    FillRun(tour + [x], totalDuration + x.durationEstimateMin, RemoveAt(remaining, IndexOfId(remaining, x.id)), draws, k + 1)
  }

  /** The tour that lines 175-226 build from a non-empty candidate list and
      the draws: `draws(0)` is the draw for the anchor pool, `draws(1)` the
      one for the whole candidate set, `draws(2)` the highlight's, and
      `draws(3)`, `draws(4)`, ... those of the fill loop. */
  function PlanTour(candidates: seq<Place>, draws: nat -> real): CuratedTour
    requires candidates != []
  {
    var head := TourHead(candidates, FirstStop(candidates, draws).value, draws);
    FillRun(head, SumDurations(head), FillPool(candidates, head), draws, 3)
  }

  /** Lines 175-226 on a non-empty candidate list: the anchor, the
      highlight, then the fill loop. */
  method BuildTour(candidates: seq<Place>, draws: nat -> real) returns (tour: seq<Place>, totalDuration: nat)
    requires candidates != [] && UniqueIds(candidates)
    ensures CuratedTour(tour, totalDuration) == PlanTour(candidates, draws)
    ensures EngineTour(candidates, draws, tour, totalDuration)
  {
    var start := ChooseStart(candidates, draws);
    var head, headDuration := AddHighlight(candidates, start, draws);
    tour, totalDuration := FillStops(candidates, head, headDuration, draws);
    PlanTourFollowsRules(candidates, draws);
  }

  /** The planned tour obeys every rule of the engine. */
  lemma PlanTourFollowsRules(candidates: seq<Place>, draws: nat -> real)
    requires candidates != [] && UniqueIds(candidates)
    ensures var t := PlanTour(candidates, draws); EngineTour(candidates, draws, t.stops, t.totalDuration)
  {
    var start := FirstStop(candidates, draws).value;
    HeadFollowsHighlightRule(candidates, start, draws);
    HeadWithinBudget(candidates, start, draws);
    FillFollowsRules(candidates, draws, TourHead(candidates, start, draws));
  }

  /** The fill loop, run from a head that obeys the rules for the first
      stop and the highlight, yields a tour that obeys every rule. */
  lemma FillFollowsRules(candidates: seq<Place>, draws: nat -> real, head: seq<Place>)
    requires UniqueIds(candidates) && 1 <= |head| <= 2
    requires FirstStop(candidates, draws) == Some(head[0]) && HighlightRule(candidates, draws, head)
    requires |head| == 2 ==> head[1].spotRole == Highlight
    requires UniqueIds(head) && (forall p :: p in head ==> p in candidates)
    requires |head| == 2 ==> SumDurations(head) <= MaxDuration
    ensures var t := FillRun(head, SumDurations(head), FillPool(candidates, head), draws, 3);
      EngineTour(candidates, draws, t.stops, t.totalDuration)
  {
    FillPoolStarts(candidates, head);
    assert head[..|head|] == head;
    FillRunFollowsRules(candidates, head, head, SumDurations(head), FillPool(candidates, head), draws, 3);
    var t := FillRun(head, SumDurations(head), FillPool(candidates, head), draws, 3);
    HighlightRuleExtends(candidates, draws, head, t.stops);
    FillRolesExtend(head, t.stops);
    assert t.stops[0] == head[0];
  }

  /** After a head whose second stop, if any, is a highlight, every stop
      but the first that is not a highlight is a supporting or micro stop,
      and so is every stop from the third on. */
  lemma FillRolesExtend(head: seq<Place>, tour: seq<Place>)
    requires 1 <= |head| <= 2 && |head| <= |tour| && tour[..|head|] == head
    requires |head| == 2 ==> head[1].spotRole == Highlight
    requires forall i :: |head| <= i < |tour| ==> IsFill(tour[i])
    ensures forall i :: 1 <= i < |tour| && tour[i].spotRole != Highlight ==> IsFill(tour[i])
    ensures forall i :: 2 <= i < |tour| ==> IsFill(tour[i])
  {
    if |head| == 2 {
      assert tour[1] == head[1];
    }
  }

  /** `weightedRandom(anchors) || weightedRandom(candidates)` (lines 179-180):
      never empty-handed, since there is at least one candidate. */
  method ChooseStart(candidates: seq<Place>, draws: nat -> real) returns (start: Place)
    requires candidates != []
    ensures FirstStop(candidates, draws) == Some(start)
    ensures start in candidates
  {
    var anchors := Anchors(candidates);
    var pick := WeightedRandom(anchors, draws(0));
    if pick.None? {
      pick := WeightedRandom(candidates, draws(1));
    }
    start := pick.value;
  }

  /** Lines 184-200: the highlight joins the first stop when one is left
      and fits the 180-minute budget together with it. */
  method AddHighlight(candidates: seq<Place>, start: Place, draws: nat -> real)
    returns (head: seq<Place>, headDuration: nat)
    ensures head == TourHead(candidates, start, draws)
    ensures headDuration == SumDurations(head)
  {
    head := [start];
    headDuration := start.durationEstimateMin;
    SumDurationsAppend([], start);
    assert [start][..0] == [];
    var highlights := Highlights(candidates, head);
    var highlight := WeightedRandom(highlights, draws(2));
    if highlight.Some? && headDuration + highlight.value.durationEstimateMin <= MaxDuration {
      SumDurationsAppend(head, highlight.value);
      head := head + [highlight.value];
      headDuration := headDuration + highlight.value.durationEstimateMin;
    }
  }

  /** The one- or two-stop head obeys the highlight rule, and its second
      stop, if any, is a highlight. */
  lemma HeadFollowsHighlightRule(candidates: seq<Place>, start: Place, draws: nat -> real)
    ensures HighlightRule(candidates, draws, TourHead(candidates, start, draws))
    ensures var head := TourHead(candidates, start, draws); |head| == 2 ==> head[1].spotRole == Highlight
  {
    assert TourHead(candidates, start, draws)[..1] == [start];
  }

  /** The head holds distinct candidates and, with two stops, keeps the
      budget. */
  lemma HeadWithinBudget(candidates: seq<Place>, start: Place, draws: nat -> real)
    requires start in candidates
    ensures var head := TourHead(candidates, start, draws);
      && UniqueIds(head) && (forall p :: p in head ==> p in candidates)
      && SumDurations(head) == start.durationEstimateMin + (if |head| == 2 then head[1].durationEstimateMin else 0)
      && (|head| == 2 ==> SumDurations(head) <= MaxDuration)
  {
    var head := TourHead(candidates, start, draws);
    SumDurationsAppend([], start);
    assert [start][..0] == [];
    if |head| == 2 {
      assert head[1] in Highlights(candidates, [start]);
      SumDurationsAppend([start], head[1]);
    }
  }

  /** The loop's `remaining`: the supporting and micro candidates whose id
      is not in the tour, each id once. */
  ghost predicate IsFillPool(candidates: seq<Place>, tour: seq<Place>, remaining: seq<Place>)
  {
    && UniqueIds(remaining)
    && forall p :: p in remaining <==> p in candidates && IsFill(p) && p.id !in Ids(tour)
  }

  /** The initial `remaining` is the loop's pool. */
  lemma FillPoolStarts(candidates: seq<Place>, tour: seq<Place>)
    requires UniqueIds(candidates)
    ensures IsFillPool(candidates, tour, FillPool(candidates, tour))
  {
    FilterIsSubsequence(candidates, (p: Place) => p.id !in Ids(tour) && IsFill(p));
    SubsequenceUniqueIds(FillPool(candidates, tour), candidates);
  }

  /** Adding a pick of the pool to the tour and splicing its id out of the
      pool leaves exactly the pool of the longer tour. */
  lemma FillPoolStep(candidates: seq<Place>, tour: seq<Place>, remaining: seq<Place>, x: Place)
    requires IsFillPool(candidates, tour, remaining) && x in remaining
    ensures IsFillPool(candidates, tour + [x], RemoveAt(remaining, IndexOfId(remaining, x.id)))
  {
    IdsAppend(tour, x);
    var i := IndexOfId(remaining, x.id);
    assert i != -1;
    RemoveUniqueId(remaining, i);
  }

  /** What the fill loop keeps of its tour: the head unchanged, supporting
      and micro stops after it, distinct ids, candidates only, and the
      running duration within the budget once there are two stops. */
  ghost predicate FillProgress(candidates: seq<Place>, head: seq<Place>, tour: seq<Place>, totalDuration: nat)
  {
    && |head| <= |tour| <= MaxStops
    && tour[..|head|] == head
    && (forall i :: |head| <= i < |tour| ==> IsFill(tour[i]))
    && UniqueIds(tour) && (forall p :: p in tour ==> p in candidates)
    && totalDuration == SumDurations(tour)
    && (|tour| > 1 ==> totalDuration <= MaxDuration)
  }

  /** Appending a fill candidate with a new id that fits the budget keeps
      the loop's tour invariant. */
  lemma FillProgressStep(candidates: seq<Place>, head: seq<Place>, tour: seq<Place>, totalDuration: nat, x: Place)
    requires FillProgress(candidates, head, tour, totalDuration) && |tour| < MaxStops
    requires x in candidates && IsFill(x) && x.id !in Ids(tour)
    requires totalDuration + x.durationEstimateMin <= MaxDuration
    ensures FillProgress(candidates, head, tour + [x], totalDuration + x.durationEstimateMin)
  {
    UniqueIdsAppend(tour, x);
    SumDurationsAppend(tour, x);
    assert (tour + [x])[..|head|] == tour[..|head|];
  }


  /** A pick of the pool that fits the budget, pushed onto the tour and
      spliced out of the pool, leaves a state that keeps the loop's
      invariant. */
  lemma FillStep(candidates: seq<Place>, head: seq<Place>, tour: seq<Place>, totalDuration: nat,
                 remaining: seq<Place>, x: Place)
    requires FillProgress(candidates, head, tour, totalDuration) && IsFillPool(candidates, tour, remaining)
    requires |tour| < MaxStops && x in remaining && totalDuration + x.durationEstimateMin <= MaxDuration
    ensures FillProgress(candidates, head, tour + [x], totalDuration + x.durationEstimateMin)
    ensures IsFillPool(candidates, tour + [x], RemoveAt(remaining, IndexOfId(remaining, x.id)))
  {
    FillProgressStep(candidates, head, tour, totalDuration, x);
    FillPoolStep(candidates, tour, remaining, x);
  }

  /** What the fill loop leaves behind: its tour invariant, and an end short
      of four stops only when the pool is used up or the drawn pick would
      overrun the budget. */
  ghost predicate FillKeepsRules(candidates: seq<Place>, head: seq<Place>, r: CuratedTour)
  {
    FillProgress(candidates, head, r.stops, r.totalDuration) && FillRule(candidates, r.stops, r.totalDuration)
  }

  /** The fill loop, from any state that keeps its invariant, follows the
      rules to the end. */
  lemma {:induction false} FillRunFollowsRules(candidates: seq<Place>, head: seq<Place>, tour: seq<Place>, totalDuration: nat,
                                               remaining: seq<Place>, draws: nat -> real, k: nat)
    requires FillProgress(candidates, head, tour, totalDuration) && IsFillPool(candidates, tour, remaining)
    ensures FillKeepsRules(candidates, head, FillRun(tour, totalDuration, remaining, draws, k))
    decreases MaxStops - |tour|, 3
  {
    if |tour| < MaxStops && remaining != [] {
      FillDrawFollowsRules(candidates, head, tour, totalDuration, remaining, draws, k);
    } else if |tour| < MaxStops {
      assert forall p :: p in candidates && IsFill(p) ==> p.id in Ids(tour);
    }
  }

  /** One draw of the fill loop: a pick that overruns the budget ends the
      loop with that pick as the witness of the rule. */
  lemma {:induction false} FillDrawFollowsRules(candidates: seq<Place>, head: seq<Place>, tour: seq<Place>, totalDuration: nat,
                                                remaining: seq<Place>, draws: nat -> real, k: nat)
    requires FillProgress(candidates, head, tour, totalDuration) && IsFillPool(candidates, tour, remaining)
    requires |tour| < MaxStops && remaining != []
    ensures FillKeepsRules(candidates, head, FillDraw(tour, totalDuration, remaining, draws, k))
    decreases MaxStops - |tour|, 1
  {
    var x := WeightedPick(remaining, draws(k)).value;
    if totalDuration + x.durationEstimateMin > MaxDuration {
      assert x in candidates && IsFill(x) && x.id !in Ids(tour);
    } else {
      FillStep(candidates, head, tour, totalDuration, remaining, x);
      FillPushFollowsRules(candidates, head, tour, totalDuration, remaining, x, draws, k);
    }
  }

  /** One push of the fill loop: from the next state on, the rules hold. */
  lemma {:induction false} FillPushFollowsRules(candidates: seq<Place>, head: seq<Place>, tour: seq<Place>, totalDuration: nat,
                                                remaining: seq<Place>, x: Place, draws: nat -> real, k: nat)
    requires |tour| < MaxStops
    requires FillProgress(candidates, head, tour + [x], totalDuration + x.durationEstimateMin)
    requires IsFillPool(candidates, tour + [x], RemoveAt(remaining, IndexOfId(remaining, x.id)))
    ensures FillKeepsRules(candidates, head, FillPush(tour, totalDuration, remaining, x, draws, k))
    decreases MaxStops - |tour|, 0
  {
    FillRunFollowsRules(candidates, head, tour + [x], totalDuration + x.durationEstimateMin,
                        RemoveAt(remaining, IndexOfId(remaining, x.id)), draws, k + 1);
  }

  /** While the loop test of line 210 holds, the fill loop goes on with
      its draw. */
  lemma FillDraws(tour: seq<Place>, totalDuration: nat, remaining: seq<Place>, draws: nat -> real, k: nat)
    requires |tour| < MaxStops && remaining != []
    ensures FillRun(tour, totalDuration, remaining, draws, k) == FillDraw(tour, totalDuration, remaining, draws, k)
  {
  }

  /** The fill loop of lines 203-226, from the first stop (and highlight)
      in `head` on. Its draws are `draws(3)`, `draws(4)`, ... */
  method FillStops(candidates: seq<Place>, head: seq<Place>, headDuration: nat, draws: nat -> real)
    returns (tour: seq<Place>, totalDuration: nat)
    ensures CuratedTour(tour, totalDuration) == FillRun(head, headDuration, FillPool(candidates, head), draws, 3)
  {
    tour, totalDuration := head, headDuration;
    var remaining := FillPool(candidates, tour);
    var k := 3;
    ghost var plan := FillRun(head, headDuration, remaining, draws, k);
    while |tour| < MaxStops && |remaining| > 0
      invariant FillRun(tour, totalDuration, remaining, draws, k) == plan
      decreases MaxStops - |tour|
    {
      FillDraws(tour, totalDuration, remaining, draws, k);
      var next := WeightedRandom(remaining, draws(k));
      if next.None? {
        break;
      }
      if totalDuration + next.value.durationEstimateMin > MaxDuration {
        break;
      }
      k := k + 1;
      tour := tour + [next.value];
      totalDuration := totalDuration + next.value.durationEstimateMin;

      var index := IndexOfId(remaining, next.value.id);
      ghost var pool := remaining;
      if index != -1 {
        remaining := RemoveAt(remaining, index);
      }
      assert remaining == RemoveAt(pool, index);
    }
  }

  // ---------------------------------------------------------------------
  // The stop editor
  // ---------------------------------------------------------------------

  /** `excludeIds`: the ids of every stop but the one at `idx`, without the
      falsy empty id that `.filter(Boolean)` drops. */
  function ExcludedIds(stops: seq<Place>, idx: int): set<string>
  {
    set j | 0 <= j < |stops| && j != idx && stops[j].id != "" :: stops[j].id
  }

  /** Some candidate that no other stop excludes has the role of the stop
      being replaced. */
  predicate SameRoleAvailable(candidates: seq<Place>, stops: seq<Place>, idx: int)
  {
    0 <= idx < |stops| &&
    exists p :: p in candidates && p.id !in ExcludedIds(stops, idx) && p.spotRole == stops[idx].spotRole
  }

  /** `candidates.filter(p => !excludeIds.includes(p.id))`. */
  function Allowed(candidates: seq<Place>, stops: seq<Place>, idx: int): (r: seq<Place>)
    ensures forall p :: p in r <==> p in candidates && p.id !in ExcludedIds(stops, idx)
  {
    Filter(candidates, (p: Place) => p.id !in ExcludedIds(stops, idx))
  }

  /** The `pool` of replaceStop: the candidates whose id no other stop
      holds, narrowed to the replaced stop's role when that leaves any. */
  function ReplacementPool(candidates: seq<Place>, stops: seq<Place>, idx: int): (pool: seq<Place>)
  {
    var allowed := Allowed(candidates, stops, idx);
    if 0 <= idx < |stops| then
      var sameRole := Filter(allowed, (p: Place) => p.spotRole == stops[idx].spotRole);
      if |sameRole| > 0 then sameRole else allowed
    else
      allowed
  }

  /** The pool holds exactly the candidates no other stop excludes, those
      of the replaced stop's role among them whenever there is one, and is
      empty exactly when every candidate is excluded. */
  lemma ReplacementPoolChoice(candidates: seq<Place>, stops: seq<Place>, idx: int)
    ensures var pool := ReplacementPool(candidates, stops, idx);
      && (SameRoleAvailable(candidates, stops, idx) ==>
            forall p :: p in pool <==> p in candidates && p.id !in ExcludedIds(stops, idx) && p.spotRole == stops[idx].spotRole)
      && (!SameRoleAvailable(candidates, stops, idx) ==>
            forall p :: p in pool <==> p in candidates && p.id !in ExcludedIds(stops, idx))
      && (pool == [] <==> forall p :: p in candidates ==> p.id in ExcludedIds(stops, idx))
  {
    var allowed := Allowed(candidates, stops, idx);
    if allowed != [] {
      assert allowed[0] in allowed;
    }
    if 0 <= idx < |stops| {
      var sameRole := Filter(allowed, (p: Place) => p.spotRole == stops[idx].spotRole);
      if |sameRole| > 0 {
        assert sameRole[0] in sameRole;
      } else {
        assert !SameRoleAvailable(candidates, stops, idx);
      }
    }
  }

  /** `stops.map((s, i) => (i === idx ? x : s))`. */
  function Replaced(stops: seq<Place>, idx: int, x: Place): (r: seq<Place>)
    ensures |r| == |stops|
    ensures forall i :: 0 <= i < |stops| && i != idx ==> r[i] == stops[i]
    ensures 0 <= idx < |stops| ==> r[idx] == x
  {
    seq(|stops|, i requires 0 <= i < |stops| => if i == idx then x else stops[i])
  }

  /** What the page keeps true of its stops: at most four, with distinct
      and non-empty ids. */
  predicate ValidStops(stops: seq<Place>)
  {
    |stops| <= MaxStops && UniqueIds(stops) && forall p :: p in stops ==> p.id != ""
  }

  /** removeStop keeps the page's stops valid. */
  lemma RemoveKeepsStopsValid(stops: seq<Place>, idx: int)
    requires ValidStops(stops)
    ensures ValidStops(RemoveAt(stops, idx))
    ensures 0 <= idx < |stops| ==> |RemoveAt(stops, idx)| == |stops| - 1
  {
    if 0 <= idx < |stops| {
      RemoveUniqueId(stops, idx);
    }
  }

  /** A replacement drawn from the pool keeps the page's stops valid: its id
      is held by no other stop. */
  lemma ReplaceKeepsStopsValid(catalog: seq<Place>, candidates: seq<Place>, stops: seq<Place>, idx: int, x: Place)
    requires WellFormedCatalog(catalog) && ValidStops(stops)
    requires forall p :: p in candidates ==> p in catalog
    requires x in ReplacementPool(candidates, stops, idx)
    ensures ValidStops(Replaced(stops, idx, x))
    ensures forall j :: 0 <= j < |stops| && j != idx ==> Replaced(stops, idx, x)[j].id != x.id
  {
    ReplacementPoolChoice(candidates, stops, idx);
    assert x in candidates && x.id !in ExcludedIds(stops, idx);
    var r := Replaced(stops, idx, x);
    forall j | 0 <= j < |stops| && j != idx ensures stops[j].id != x.id {
      assert stops[j] in stops;
      assert stops[j].id in ExcludedIds(stops, idx);
    }
    forall i, j | 0 <= i < j < |r| ensures r[i].id != r[j].id {
      if i != idx && j != idx {
        assert r[i] == stops[i] && r[j] == stops[j];
      }
    }
    forall p | p in r ensures p.id != "" {
      var m :| 0 <= m < |r| && r[m] == p;
      if m != idx {
        assert stops[m] in stops;
      }
    }
  }

  // ---------------------------------------------------------------------
  // The start-point check of generateTour
  // ---------------------------------------------------------------------

  /** `if (!lat || !lon)` as written: 0 is falsy, so the check also refuses
      a start point on the equator or on the prime meridian. */
  predicate StartPointAcceptedAsWritten(lat: Option<real>, lon: Option<real>)
  {
    lat.Some? && lat.value != 0.0 && lon.Some? && lon.value != 0.0
  }

  /** A start exactly on longitude 0.0 (here at latitude 51.5) is refused. */
  lemma MeridianStartRefused()
    ensures !StartPointAcceptedAsWritten(Some(51.5), Some(0.0))
  {
  }

  /** The intended check: refuse a start point only when no coordinate was
      resolved. */
  predicate StartPointResolved(lat: Option<real>, lon: Option<real>)
  {
    lat.Some? && lon.Some?
  }

  /** Every resolved coordinate pair is accepted, zeros included, and only
      a missing coordinate is refused; the written check differs from it
      exactly on the pairs with a zero coordinate. */
  lemma ResolvedStartAccepted(lat: real, lon: real)
    ensures StartPointResolved(Some(lat), Some(lon))
    ensures !StartPointResolved(None, Some(lon)) && !StartPointResolved(Some(lat), None)
    ensures StartPointAcceptedAsWritten(Some(lat), Some(lon)) <==> lat != 0.0 && lon != 0.0
  {
  }

  // ---------------------------------------------------------------------
  // The page state
  // ---------------------------------------------------------------------

  /** A tour of catalog places is a valid list of stops for the page. */
  lemma EngineTourIsValid(dist: Distance, catalog: seq<Place>, origin: Coord, hour: int, radius: nat, stops: seq<Place>)
    requires WellFormedCatalog(catalog)
    requires IsTourOf(stops, SearchCandidates(dist, catalog, origin, hour, radius))
    ensures ValidStops(stops)
  {
  }

  /** The state of the Home component that the engine and the editor set. */
  class Home {
    var stops: seq<Place>
    var errorMessage: Option<string>
    var snackbar: Option<string>
    var startPoint: Option<Coord>

    predicate Valid()
      reads this
    {
      ValidStops(stops)
    }

    constructor ()
      ensures Valid()
      ensures stops == [] && errorMessage == None && snackbar == None && startPoint == None
    {
      stops, errorMessage, snackbar, startPoint := [], None, None, None;
    }

    /** generateTour once the start point is resolved: clear the stops and
        the error, check the start point, run the engine, and show either
        its tour (remembering the start point) or its message. A `None`
        coordinate stands for a value that line 148 treats as missing. */
    method GenerateTour(dist: Distance, catalog: seq<Place>, lat: Option<real>, lon: Option<real>, hour: int, draws: nat -> real)
      requires Valid() && WellFormedCatalog(catalog)
      modifies this
      ensures Valid()
      ensures snackbar == old(snackbar)
      ensures !StartPointResolved(lat, lon) ==>
        stops == [] && errorMessage == Some(InvalidStartMessage) && startPoint == old(startPoint)
      ensures StartPointResolved(lat, lon) ==>
        var origin := Coord(lat.value, lon.value);
        var candidates := SearchCandidates(dist, catalog, origin, hour, ChosenRadius(dist, catalog, origin, hour));
        match EngineOutcome(dist, catalog, origin, hour, draws)
        case Err(message) =>
          stops == [] && errorMessage == Some(message) && startPoint == old(startPoint)
        case Ok(tour) =>
          && stops == tour.stops && errorMessage == None && startPoint == Some(origin)
          && EngineTour(candidates, draws, stops, tour.totalDuration)
    {
      stops := [];
      errorMessage := None;
      if !StartPointResolved(lat, lon) {
        errorMessage := Some(InvalidStartMessage);
        return;
      }
      var origin := Coord(lat.value, lon.value);
      var result, radius := AssembleTour(dist, catalog, origin, hour, draws);
      match result {
        case Err(message) =>
          errorMessage := Some(message);
        case Ok(tour) =>
          EngineTourIsValid(dist, catalog, origin, hour, radius, tour.stops);
          startPoint := Some(origin);
          stops := tour.stops;
      }
    }

    /** removeStop: drop the stop at `idx`, clear the error, confirm. */
    method RemoveStop(idx: int)
      requires Valid()
      modifies this
      ensures Valid()
      ensures stops == RemoveAt(old(stops), idx)
      ensures errorMessage == None && snackbar == Some(RemovedNotice) && startPoint == old(startPoint)
    {
      RemoveKeepsStopsValid(stops, idx);
      stops := RemoveAt(stops, idx);
      errorMessage := None;
      snackbar := Some(RemovedNotice);
    }

    /** replaceStop: nothing without a start point; otherwise draw a
        replacement from the 4 km candidates (with `u` as the draw) and put
        it at `idx`, or report that none is available. */
    method ReplaceStop(dist: Distance, catalog: seq<Place>, hour: int, u: real, idx: int)
      requires Valid() && WellFormedCatalog(catalog)
      modifies this
      ensures Valid()
      ensures startPoint == old(startPoint)
      ensures old(startPoint).None? ==>
        stops == old(stops) && errorMessage == old(errorMessage) && snackbar == old(snackbar)
      ensures old(startPoint).Some? ==>
        var candidates := SearchCandidates(dist, catalog, old(startPoint).value, hour, BaseRadius);
        var pick := WeightedPick(ReplacementPool(candidates, old(stops), idx), u);
        if pick.Some? then
          stops == Replaced(old(stops), idx, pick.value) && errorMessage == None && snackbar == Some(ReplacedNotice)
        else
          stops == old(stops) && errorMessage == Some(NoReplacementMessage) && snackbar == old(snackbar)
    {
      if startPoint.None? {
        return;
      }
      var radius := BaseRadius;
      var candidates := SearchCandidates(dist, catalog, startPoint.value, hour, radius);
      var pool := ReplacementPool(candidates, stops, idx);
      var replacement := WeightedRandom(pool, u);
      if replacement.Some? {
        ReplaceKeepsStopsValid(catalog, candidates, stops, idx, replacement.value);
        stops := Replaced(stops, idx, replacement.value);
        errorMessage := None;
        snackbar := Some(ReplacedNotice);
      } else {
        errorMessage := Some(NoReplacementMessage);
      }
    }
  }
}
