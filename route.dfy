/** app/api/generate/route.ts: the live-fetch tour of the API route. A mood
    selects amenity categories, the points of interest around the start
    come from the Overpass service through a process-wide cache, the search
    widens once from 2 km to 4 km, and three stops are chained by nearest
    neighbour. The Overpass round trip is the parameter `overpass`, which
    maps a query to what the service answered; the random shuffle that
    picks the start is the input `pick`. */
module Route {
  import opened Basics

  const FirstRadius: nat := 2000  // metres
  const WideRadius: nat := 4000   // metres
  const MinPois: nat := 3

  const TooFewMessage: string := "Hier gibt es gerade zu wenig passende Orte in deiner Nähe."
  const FailureMessage: string := "Fehler bei Generierung"
  const UnnamedPlace: string := "Unbenannter Ort"
  const UnknownCategory: string := "unknown"

  /** A point of interest as the route hands it to the page. */
  datatype Poi = Poi(id: int, name: string, lat: real, lon: real, category: string)

  // ---------------------------------------------------------------------
  // Moods and categories
  // ---------------------------------------------------------------------

  /** The fixed amenity lists of the four moods. */
  const MoodCategories: map<string, seq<string>> := map[
    "Genuss" := ["restaurant", "bar", "cafe", "pub", "biergarten"],
    "Natur" := ["park", "garden", "viewpoint"],
    "Kultur" := ["museum", "theatre", "gallery", "attraction", "artwork"],
    "Entspannt" := ["cafe", "park", "garden", "viewpoint", "ice_cream"]
  ]

  /** The `if (mood === ...)` assignments of lines 31-47; the four moods are
      distinct, so at most one of them fires and they read as one chain. */
  function Categories(mood: string): (categories: seq<string>)
    ensures categories == if mood in MoodCategories then MoodCategories[mood] else []
    ensures categories != [] <==> mood in MoodCategories
  {
    if mood == "Genuss" then ["restaurant", "bar", "cafe", "pub", "biergarten"]
    else if mood == "Natur" then ["park", "garden", "viewpoint"]
    else if mood == "Kultur" then ["museum", "theatre", "gallery", "attraction", "artwork"]
    else if mood == "Entspannt" then ["cafe", "park", "garden", "viewpoint", "ice_cream"]
    else []
  }

  // ---------------------------------------------------------------------
  // The Overpass reply and its conversion
  // ---------------------------------------------------------------------

  /** A node of the Overpass answer; `tags` is absent on an untagged node. */
  datatype Element = Element(id: int, lat: real, lon: real, tags: Option<map<string, string>>)

  /** `el.tags?.[key]`, with an absent tag and a missing key both read as
      the empty string, which is falsy like them. */
  function Tag(el: Element, key: string): string
  {
    if el.tags.Some? && key in el.tags.value then el.tags.value[key] else ""
  }

  /** `value || fallback` for a string. */
  function OrElse(value: string, fallback: string): (s: string)
    ensures value != "" ==> s == value
    ensures value == "" ==> s == fallback
  {
    if value == "" then fallback else value
  }

  /** The element to POI conversion of lines 142-148. */
  function ToPoi(el: Element): (p: Poi)
    ensures p.id == el.id && p.lat == el.lat && p.lon == el.lon
    ensures p.name != "" && p.category != ""
  {
    Poi(el.id, OrElse(Tag(el, "name"), UnnamedPlace), el.lat, el.lon, OrElse(Tag(el, "amenity"), UnknownCategory))
  }

  /** A name or amenity the element carries is kept as it is; only a
      missing or empty one is replaced by the placeholder. */
  lemma ToPoiKeepsTags(el: Element)
    ensures Tag(el, "name") != "" ==> ToPoi(el).name == Tag(el, "name")
    ensures Tag(el, "name") == "" ==> ToPoi(el).name == UnnamedPlace
    ensures Tag(el, "amenity") != "" ==> ToPoi(el).category == Tag(el, "amenity")
    ensures Tag(el, "amenity") == "" ==> ToPoi(el).category == UnknownCategory
  {
  }

  /** What one Overpass round trip came back with: no usable answer at all
      (the request or the JSON decoding threw), a non-OK HTTP status, or the
      `elements` of an OK answer. */
  datatype Reply = Unreachable | Failed(status: int) | Delivered(elements: seq<Element>)

  /** The request fetchPOIs sends (lines 117-132, without its text form). */
  datatype Query = Query(lat: real, lon: real, radius: nat, categories: seq<string>)

  /** The outcome of fetchPOIs for the reply `reply`: None when it throws,
      the empty list for a non-OK status, otherwise every element converted,
      in order. */
  function FetchPois(reply: Reply): (r: Option<seq<Poi>>)
    ensures r.None? <==> reply.Unreachable?
    ensures reply.Failed? ==> r == Some([])
    ensures reply.Delivered? ==>
      && r.Some? && |r.value| == |reply.elements|
      && forall i :: 0 <= i < |r.value| ==> r.value[i].id == reply.elements[i].id && r.value[i] == ToPoi(reply.elements[i])
  {
    match reply
    case Unreachable => None
    case Failed(_) => Some([])
    case Delivered(elements) => Some(seq(|elements|, i requires 0 <= i < |elements| => ToPoi(elements[i])))
  }

  // ---------------------------------------------------------------------
  // The nearest-neighbour chain
  // ---------------------------------------------------------------------

  /** The square of the planar `distance` of lines 13-17. The square root
      keeps the order of distances, so sorting by it sorts alike. */
  function SquaredDistance(a: Poi, b: Poi): real
  {
    (a.lat - b.lat) * (a.lat - b.lat) + (a.lon - b.lon) * (a.lon - b.lon)
  }

  /** The route's answer: three stops (the second and third are
      `undefined`, sent as null, when too few distinct ids remain), or an
      error message. */
  datatype Response = Stops(start: Poi, second: Option<Poi>, third: Option<Poi>) | Error(message: string)

  /** `pois.sort((a, b) => distance(origin, a) - distance(origin, b))`: the
      same POIs in order of distance from `origin`, equal distances in list
      order, so that the head is a nearest one. */
  function ByDistance(origin: Poi, pois: seq<Poi>): (r: seq<Poi>)
    ensures |r| == |pois| && forall p :: p in r <==> p in pois
    ensures forall i, j :: 0 <= i < j < |r| ==> SquaredDistance(origin, r[i]) <= SquaredDistance(origin, r[j])
    ensures pois != [] ==> forall p :: p in pois ==> SquaredDistance(origin, r[0]) <= SquaredDistance(origin, p)
  {
    SortByKeyMembers(pois, DistanceFrom(origin));
    if pois != [] then SortedHeadIsLeast(pois, DistanceFrom(origin)); SortByKey(pois, DistanceFrom(origin))
    else SortByKey(pois, DistanceFrom(origin))
  }

  /** The sort key of `ByDistance`. */
  function DistanceFrom(origin: Poi): Poi -> real
  {
    (p: Poi) => SquaredDistance(origin, p)
  }

  /** `others.sort(by distance from origin)[0]`: the first of the nearest. */
  function Nearest(origin: Poi, others: seq<Poi>): (r: Option<Poi>)
    ensures r.None? <==> others == []
    ensures r.Some? ==> r.value in others && forall p :: p in others ==> SquaredDistance(origin, r.value) <= SquaredDistance(origin, p)
  {
    if others == [] then None else Some(ByDistance(origin, others)[0])
  }

  /** The POIs whose id differs from `id`. */
  function WithoutId(pois: seq<Poi>, id: int): (r: seq<Poi>)
    ensures forall p :: p in r <==> p in pois && p.id != id
  {
    Filter(pois, OtherId(id))
  }

  /** The test of `p => p.id !== id`. */
  function OtherId(id: int): Poi -> bool
  {
    (p: Poi) => p.id != id
  }

  /** Lines 85-102 on a non-empty list: the start is the POI at `pick` of
      the shuffle; the other ids are sorted in place by distance from the
      start (line 90), whose head is the second stop; the third is the
      nearest to the second among the ids left of that sorted list, so that
      equal distances from the second go to the one nearer the start. */
  function NearestChain(pois: seq<Poi>, pick: nat): (r: Response)
    requires pois != []
    ensures r.Stops?
  {
    var start := pois[pick % |pois|];
    var byStart := ByDistance(start, WithoutId(pois, start.id));
    var second := if byStart == [] then None else Some(byStart[0]);
    var third := if second.None? then None else Nearest(second.value, WithoutId(byStart, second.value.id));
    Stops(start, second, third)
  }

  /** The chain's stops come from the list; the second is a nearest POI to
      the start among the other ids and exists exactly when there is one;
      the third is a nearest POI to the second among the ids of neither,
      and exists exactly when there is one. */
  lemma NearestChainChoice(pois: seq<Poi>, pick: nat)
    requires pois != []
    ensures var r := NearestChain(pois, pick);
      && r.start in pois
      && (r.second.Some? <==> exists p :: p in pois && p.id != r.start.id)
      && (r.second.Some? ==>
            && r.second.value in pois && r.second.value.id != r.start.id
            && forall p :: p in pois && p.id != r.start.id ==>
                 SquaredDistance(r.start, r.second.value) <= SquaredDistance(r.start, p))
      && (r.third.Some? <==> r.second.Some? && exists p :: p in pois && p.id != r.start.id && p.id != r.second.value.id)
      && (r.third.Some? ==>
            && r.third.value in pois && r.third.value.id != r.start.id && r.third.value.id != r.second.value.id
            && forall p :: p in pois && p.id != r.start.id && p.id != r.second.value.id ==>
                 SquaredDistance(r.second.value, r.third.value) <= SquaredDistance(r.second.value, p))
  {
  }

  // Four POIs for the tie example: S at (0, 0), A at (-2, 4), B at (1, 0)
  // and C at (-4, 0). From S, B is nearest (1), then C (16), then A (20);
  // from B, A and C are both at squared distance 25.
  const TieS := Poi(1, "S", 0.0, 0.0, "cafe")
  const TieA := Poi(2, "A", -2.0, 4.0, "cafe")
  const TieB := Poi(3, "B", 1.0, 0.0, "cafe")
  const TieC := Poi(4, "C", -4.0, 0.0, "cafe")

  lemma TieFirstHop()
    ensures ByDistance(TieS, WithoutId([TieS, TieA, TieB, TieC], 1)) == [TieB, TieC, TieA]
  {
    assert [TieS, TieA, TieB, TieC][1..] == [TieA, TieB, TieC];
    assert !OtherId(1)(TieS);
    FilterKeepsAll([TieA, TieB, TieC], OtherId(1));
    assert WithoutId([TieS, TieA, TieB, TieC], 1) == [TieA, TieB, TieC];
    var key := DistanceFrom(TieS);
    assert key(TieA) == 20.0 && key(TieB) == 1.0 && key(TieC) == 16.0;
    SortThreeLastFirst(TieA, TieB, TieC, key);
  }

  lemma TieSecondHop()
    ensures ByDistance(TieB, WithoutId([TieB, TieC, TieA], 3)) == [TieC, TieA]
  {
    assert [TieB, TieC, TieA][1..] == [TieC, TieA];
    assert !OtherId(3)(TieB);
    FilterKeepsAll([TieC, TieA], OtherId(3));
    assert WithoutId([TieB, TieC, TieA], 3) == [TieC, TieA];
    var key := DistanceFrom(TieB);
    assert key(TieC) == 25.0 && key(TieA) == 25.0;
    SortTwo(TieC, TieA, key);
  }

  /** Equal distances from the second stop go to the POI nearer the start:
      A and C are both 5 away from B, and C, which the sort by distance from
      S put first, is the third stop. */
  lemma NearestChainTieGoesNearerStart()
    ensures NearestChain([TieS, TieA, TieB, TieC], 0) == Stops(TieS, Some(TieB), Some(TieC))
  {
    TieFirstHop();
    TieSecondHop();
  }

  predicate DistinctIds(pois: seq<Poi>)
  {
    forall i, j :: 0 <= i < j < |pois| ==> pois[i].id != pois[j].id
  }

  /** With at least three POIs of distinct ids, all three stops exist and
      their ids are pairwise different. */
  lemma NearestChainDistinct(pois: seq<Poi>, pick: nat)
    requires |pois| >= MinPois && DistinctIds(pois)
    ensures var r := NearestChain(pois, pick);
      && r.second.Some? && r.third.Some?
      && r.start.id != r.second.value.id
      && r.start.id != r.third.value.id
      && r.second.value.id != r.third.value.id
  {
    NearestChainChoice(pois, pick);
    var r := NearestChain(pois, pick);
    var a, b, c := pois[0], pois[1], pois[2];
    assert a.id != b.id && a.id != c.id && b.id != c.id;
    assert a in pois && b in pois && c in pois;
    if a.id != r.start.id {
      assert r.second.Some?;
    } else {
      assert b.id != r.start.id;
    }
    var s := r.second.value;
    if a.id != r.start.id && a.id != s.id {
    } else if b.id != r.start.id && b.id != s.id {
    } else {
      assert c.id != r.start.id && c.id != s.id;
    }
  }

  // ---------------------------------------------------------------------
  // The cache and the radius escalation
  // ---------------------------------------------------------------------

  /** The cache key `${mood}-${lat}-${lon}-${radius}`, kept structured. */
  datatype CacheKey = CacheKey(mood: string, lat: real, lon: real, radius: nat)

  type Cache = map<CacheKey, seq<Poi>>

  /** The query fetchPOIs sends for a key. */
  function QueryFor(key: CacheKey, categories: seq<string>): Query
  {
    Query(key.lat, key.lon, key.radius, categories)
  }

  /** The outcome of one lookup: the POIs (None when the fetch threw), the
      cache afterwards and the queries it sent. */
  datatype Lookup = Lookup(pois: Option<seq<Poi>>, entries: Cache, queries: seq<Query>)

  /** Lines 55-61 (and 68-75): a hit returns the stored list and sends
      nothing; a miss sends one query and stores what fetchPOIs returned,
      the empty list of a non-OK reply included. A fetch that throws leaves
      the cache as it was. */
  function CachedFetch(entries: Cache, key: CacheKey, categories: seq<string>, overpass: Query -> Reply): (l: Lookup)
    ensures key in entries ==> l.pois == Some(entries[key]) && l.entries == entries && l.queries == []
    ensures key !in entries ==>
      && l.queries == [QueryFor(key, categories)]
      && l.pois == FetchPois(overpass(QueryFor(key, categories)))
    ensures l.pois.Some? <==> key in l.entries
    ensures l.pois.Some? ==> l.entries[key] == l.pois.value
    ensures forall k :: k in entries ==> k in l.entries && l.entries[k] == entries[k]
    ensures forall k :: k in l.entries ==> k in entries || k == key
  {
    if key in entries then Lookup(Some(entries[key]), entries, [])
    else
      var q := QueryFor(key, categories);
      var pois := FetchPois(overpass(q));
      if pois.Some? then Lookup(pois, entries[key := pois.value], [q])
      else Lookup(None, entries, [q])
  }

  /** The outcome of one POST: the response, the cache afterwards and the
      queries sent while answering. */
  datatype Exchange = Exchange(response: Response, entries: Cache, queries: seq<Query>)

  /** Lines 18-109 as a function of the cache before the request. */
  function PostSpec(entries: Cache, mood: string, lat: real, lon: real, pick: nat, overpass: Query -> Reply): Exchange
  {
    var categories := Categories(mood);
    var near := CachedFetch(entries, CacheKey(mood, lat, lon, FirstRadius), categories, overpass);
    if near.pois.None? then Exchange(Error(FailureMessage), near.entries, near.queries)
    else if |near.pois.value| >= MinPois then Exchange(NearestChain(near.pois.value, pick), near.entries, near.queries)
    else
      var wide := CachedFetch(near.entries, CacheKey(mood, lat, lon, WideRadius), categories, overpass);
      if wide.pois.None? then Exchange(Error(FailureMessage), wide.entries, near.queries + wide.queries)
      else if |wide.pois.value| >= MinPois then Exchange(NearestChain(wide.pois.value, pick), wide.entries, near.queries + wide.queries)
      else Exchange(Error(TooFewMessage), wide.entries, near.queries + wide.queries)
  }

  /** A request never overwrites or removes an entry, and adds entries only
      under its own two keys. */
  lemma PostNeverOverwrites(entries: Cache, mood: string, lat: real, lon: real, pick: nat, overpass: Query -> Reply)
    ensures var ex := PostSpec(entries, mood, lat, lon, pick, overpass);
      && (forall k :: k in entries ==> k in ex.entries && ex.entries[k] == entries[k])
      && (forall k :: k in ex.entries ==>
            k in entries || k == CacheKey(mood, lat, lon, FirstRadius) || k == CacheKey(mood, lat, lon, WideRadius))
      && |ex.queries| <= 2
  {
    var categories := Categories(mood);
    var near := CachedFetch(entries, CacheKey(mood, lat, lon, FirstRadius), categories, overpass);
    if near.pois.Some? && |near.pois.value| < MinPois {
      var wide := CachedFetch(near.entries, CacheKey(mood, lat, lon, WideRadius), categories, overpass);
    }
  }

  /** With three or more POIs under the 2 km key after the request, the
      answer is the chain over that list and the 4 km entry is untouched. */
  lemma PostAnswersFromDenseNearList(entries: Cache, mood: string, lat: real, lon: real, pick: nat, overpass: Query -> Reply)
    ensures var ex := PostSpec(entries, mood, lat, lon, pick, overpass);
      var near := CacheKey(mood, lat, lon, FirstRadius);
      var wide := CacheKey(mood, lat, lon, WideRadius);
      near in ex.entries && |ex.entries[near]| >= MinPois ==>
        && (wide in ex.entries <==> wide in entries)
        && ex.response == NearestChain(ex.entries[near], pick)
  {
    var near := CacheKey(mood, lat, lon, FirstRadius);
    var wide := CacheKey(mood, lat, lon, WideRadius);
    assert near != wide;
  }

  /** Overpass is asked about 4 km only after the 2 km list turned out to
      have fewer than three POIs; with three or more already cached under
      the 2 km key nothing is sent at all. */
  lemma PostEscalatesOnlyWhenSparse(entries: Cache, mood: string, lat: real, lon: real, pick: nat, overpass: Query -> Reply)
    ensures var ex := PostSpec(entries, mood, lat, lon, pick, overpass);
      var near := CacheKey(mood, lat, lon, FirstRadius);
      && (forall q :: q in ex.queries && q.radius == WideRadius ==> near in ex.entries && |ex.entries[near]| < MinPois)
      && (near in entries && |entries[near]| >= MinPois ==> ex.queries == [] && ex.entries == entries)
  {
    var near := CacheKey(mood, lat, lon, FirstRadius);
    var l := CachedFetch(entries, near, Categories(mood), overpass);
    assert forall q :: q in l.queries ==> q.radius == FirstRadius;
  }

  /** The "too few places" answer comes exactly when both lists, now both
      cached, have fewer than three POIs; stops come only from a cached
      list of at least three. */
  lemma PostTooFewIff(entries: Cache, mood: string, lat: real, lon: real, pick: nat, overpass: Query -> Reply)
    ensures var ex := PostSpec(entries, mood, lat, lon, pick, overpass);
      var near := CacheKey(mood, lat, lon, FirstRadius);
      var wide := CacheKey(mood, lat, lon, WideRadius);
      && (ex.response == Error(TooFewMessage) <==>
            near in ex.entries && |ex.entries[near]| < MinPois && wide in ex.entries && |ex.entries[wide]| < MinPois)
      && (ex.response.Stops? ==>
            exists k :: k in ex.entries && (k == near || k == wide) && |ex.entries[k]| >= MinPois &&
                        ex.response == NearestChain(ex.entries[k], pick))
  {
    var ex := PostSpec(entries, mood, lat, lon, pick, overpass);
    var near := CacheKey(mood, lat, lon, FirstRadius);
    var wide := CacheKey(mood, lat, lon, WideRadius);
    assert near != wide;
  }

  /** A repeated request with the same inputs that did not fail is served
      from the cache: nothing is sent, whatever Overpass would answer now,
      the cache stays as it is and the answer is the same. */
  lemma RepeatServedFromCache(entries: Cache, mood: string, lat: real, lon: real, pick: nat,
                              overpass: Query -> Reply, later: Query -> Reply)
    requires PostSpec(entries, mood, lat, lon, pick, overpass).response != Error(FailureMessage)
    ensures var first := PostSpec(entries, mood, lat, lon, pick, overpass);
      var second := PostSpec(first.entries, mood, lat, lon, pick, later);
      && second.queries == []
      && second.entries == first.entries
      && second.response == first.response
  {
    var categories := Categories(mood);
    var nearKey := CacheKey(mood, lat, lon, FirstRadius);
    var wideKey := CacheKey(mood, lat, lon, WideRadius);
    assert nearKey != wideKey;
    var near := CachedFetch(entries, nearKey, categories, overpass);
    var first := PostSpec(entries, mood, lat, lon, pick, overpass);
    assert near.pois.Some?;
    var again := CachedFetch(first.entries, nearKey, categories, later);
    if |near.pois.value| < MinPois {
      var wide := CachedFetch(near.entries, wideKey, categories, overpass);
      assert wide.pois.Some?;
      var wideAgain := CachedFetch(first.entries, wideKey, categories, later);
    }
  }

  /** A non-OK reply is remembered as an empty list: after both radii were
      refused, a repeat gets the "too few places" answer without asking
      Overpass again, even if it would now deliver. */
  lemma RefusedReplyIsRemembered(mood: string, lat: real, lon: real, pick: nat, later: Query -> Reply)
    ensures var first := PostSpec(map[], mood, lat, lon, pick, (q: Query) => Failed(429));
      var second := PostSpec(first.entries, mood, lat, lon, pick, later);
      && first.response == Error(TooFewMessage)
      && |first.queries| == 2
      && second.response == Error(TooFewMessage)
      && second.queries == []
  {
    var near := CacheKey(mood, lat, lon, FirstRadius);
    var wide := CacheKey(mood, lat, lon, WideRadius);
    assert near != wide;
  }

  /** The process-wide POI cache of line 2, as an object the route owns.
      `queries` records every request sent to Overpass, in order. */
  class PoiCache {
    var entries: Cache
    ghost var queries: seq<Query>

    constructor ()
      ensures entries == map[] && queries == []
    {
      entries := map[];
      queries := [];
    }

    /** `cache.has(key) ? cache.get(key) : (fetchPOIs(...), cache.set(...))`. */
    method Lookup(key: CacheKey, categories: seq<string>, overpass: Query -> Reply) returns (pois: Option<seq<Poi>>)
      modifies this
      ensures var l := CachedFetch(old(entries), key, categories, overpass);
        pois == l.pois && entries == l.entries && queries == old(queries) + l.queries
    {
      if key in entries {
        pois := Some(entries[key]);
      } else {
        var query := QueryFor(key, categories);
        queries := queries + [query];
        pois := FetchPois(overpass(query));
        if pois.Some? {
          entries := entries[key := pois.value];
        }
      }
    }
  }

  /** POST: the mood's categories, the 2 km lookup, the 4 km lookup when
      that gives fewer than three POIs, then the error or the chain. A
      fetch that throws ends in the generic failure message. */
  method Post(cache: PoiCache, mood: string, lat: real, lon: real, pick: nat, overpass: Query -> Reply)
    returns (response: Response)
    modifies cache
    ensures var ex := PostSpec(old(cache.entries), mood, lat, lon, pick, overpass);
      response == ex.response && cache.entries == ex.entries && cache.queries == old(cache.queries) + ex.queries
  {
    var categories := Categories(mood);
    var radius := FirstRadius;
    var fetched := cache.Lookup(CacheKey(mood, lat, lon, radius), categories, overpass);
    if fetched.None? {
      return Error(FailureMessage);
    }
    var pois := fetched.value;
    if |pois| < MinPois {
      radius := WideRadius;
      fetched := cache.Lookup(CacheKey(mood, lat, lon, radius), categories, overpass);
      if fetched.None? {
        return Error(FailureMessage);
      }
      pois := fetched.value;
    }
    if |pois| < MinPois {
      return Error(TooFewMessage);
    }
    response := NearestChain(pois, pick);
  }
}
