# Curated city tours: the tour engine, the stop editor and the live-fetch route

This project models in Dafny the core of a small web app. The app builds a
short walking tour around a start point.

- **Tour engine** (`generateTour` in `app/page.tsx`, helpers in `lib/tour.ts`):
  - Gathers the catalog places within 4 km that are open at the current time of day.
  - Widens the search to 10 km when fewer than three are found.
  - Picks the first stop by weighted random choice: among the anchors when
    there is one, otherwise among all candidates.
  - Adds a highlight when one fits the 180-minute budget.
  - Fills up to four stops with supporting and micro places until the pool
    is used up or the next pick would overrun the budget.
- **Stop editor** (`removeStop`, `replaceStop`):
  - Drops a stop.
  - Or replaces one with a weighted pick among the 4 km candidates that no
    other stop holds, preferring the same role.
- **Live-fetch route** (`POST` in `app/api/generate/route.ts`):
  - Maps a mood to a list of amenity categories.
  - Asks the Overpass service for points of interest within 2 km, through
    a process-wide cache.
  - Asks again at 4 km when fewer than three come back.
  - Answers with a start stop and two nearest-neighbour stops, or with a
    message.

Files:

- `basics.dfy`, module `Basics`:
  - `Option` and `Result`.
  - `Filter`, a model of `Array.prototype.filter`.
  - `IsSubsequence`.
  - The key-ordered insertion sort that models `Array.prototype.sort` with a numeric comparator.
- `tour.dfy`, module `Tour`:
  - The place record.
  - `weightedRandom`: the specification function `WeightedPick` and the imperative `WeightedRandom` proved equal to it.
  - `getCurrentTimeOfDay` and `candidatesNearby`.
- `page.dfy`, module `Page`:
  - The engine: `AssembleTour`, split into `FindCandidates`, `ChooseStart`, `AddHighlight` and `FillStops`. `FillStops` runs the fill loop with its invariants.
  - The pools and the editor functions.
  - Class `Home`, holding the component state that the engine and the editor set.
- `route.dfy`, module `Route`:
  - The category map, the element-to-POI conversion and the nearest-neighbour chain.
  - The cache as the class `PoiCache`.
  - The request as the method `Post`, proved equal to the function `PostSpec`. The lemmas are stated about `PostSpec`.

Randomness, the clock and the network are inputs:

- `u` is one value of `Math.random()`.
- `draws(k)` is the engine's k-th draw: 0 for the anchor pool, 1 for the
  whole candidate set, 2 for the highlight, 3, 4, ... for the fill loop.
- `hour` is the clock's hour.
- `dist` is the haversine distance.
- `overpass` maps a query to the reply of the Overpass service.
- `pick` is the position that the random shuffle puts first.

## Model

| member | source | states |
|---|---|---|
| Tour.Weight | lib/tour.ts:31 | An absent (0) weight counts as exactly 1, and any other weight is kept as it is, so every spot weighs at least 1 |
| Tour.TotalWeight | lib/tour.ts:30-33 | The total weight is at least the number of spots, so it is positive for a non-empty list |
| Tour.CumulativeIncreasing | lib/tour.ts:38-41 | Each further spot raises the running sum by at least one |
| Tour.WeightedPick | lib/tour.ts:27-44 | The pick is absent exactly for an empty list, and otherwise is one of the spots |
| Tour.WeightedRandom | lib/tour.ts:27-44 | The running-sum loop returns exactly what the specification `WeightedPick` selects. Null exactly for an empty list, otherwise a member |
| Tour.FirstCoveringFinds | lib/tour.ts:38-41 | Scanning on from a position no earlier spot covers finds the first spot whose running sum reaches the draw |
| Tour.SelectionRule | lib/tour.ts:38-43 | For a draw up to the total, the result is the first spot whose running sum reaches the draw, so the `spots[0]` fallback is never taken |
| Tour.SelectionInterval | lib/tour.ts:35-41 | Spot i is returned exactly for draws in (running sum before i, running sum after i], an interval as wide as its weight |
| Tour.DrawBelowTotal | lib/tour.ts:35 | `Math.random() * totalWeight` lies in [0, total) |
| Tour.TimeOfDayAt | lib/tour.ts:46-51 | Morning exactly before 12, afternoon exactly from 12 to before 18, evening exactly from 18 |
| Tour.CandidatesNearby | lib/tour.ts:54-64 | A place is a candidate exactly when it is in the catalog, within the radius and valid at the time of day |
| Tour.CandidatesInCatalogOrder | lib/tour.ts:60-63 | The candidates keep catalog order and every copy of an eligible place |
| Tour.RadiusMonotone | lib/tour.ts:62 | A larger radius keeps every candidate of a smaller one, in order |
| Basics.Filter | lib/tour.ts:60 | The filter keeps exactly the elements passing the test and is no longer than its input |
| Basics.FilterCounts | lib/tour.ts:60 | A filter keeps every copy of a kept value and no copy of the others |
| Basics.SortByKey | app/api/generate/route.ts:90-92 | The sort returns a permutation of its input, ordered by the distance key |
| Basics.SortByKeyMembers | app/api/generate/route.ts:90-92 | The sorted list has the same length and the same members as its input |
| Basics.SortedHeadIsLeast | app/api/generate/route.ts:90-92 | The head of the sorted list is a member with the least key |
| Page.ChosenRadius | app/page.tsx:158-168 | The 10 km radius is chosen exactly when 4 km gives fewer than three candidates. The radius is always 4 km or 10 km |
| Page.FindCandidates | app/page.tsx:162-168 | Returns the candidates at the chosen radius. Their ids stay distinct |
| Page.AssembleTour | app/page.tsx:158-226 | The radius is the chosen one. Fails with "Keine passenden Orte im Radius." exactly when there is no candidate at it. Otherwise the result is the tour `PlanTour` describes for the draws, and it follows every engine rule (`EngineTour`) |
| Page.BuildTour | app/page.tsx:175-226 | The tour is the one `PlanTour` derives from the draws, and it follows the engine's rules (`EngineTour`): 1-4 distinct candidates within 180 minutes, the first stop as `FirstStop`, the highlight rule, only supporting or micro stops afterwards, and stopping short of four only when the pool is used up or the drawn pick would overrun the budget |
| Page.TourHead | app/page.tsx:187-201 | The head of the tour has one or two stops and starts with the given first stop |
| Page.PlanTourFollowsRules | app/page.tsx:175-226 | The tour `PlanTour` derives from the draws satisfies `EngineTour` |
| Page.FillFollowsRules | app/page.tsx:203-226 | Running the fill loop from a head that obeys the first-stop and highlight rules gives a tour that obeys every rule |
| Page.FillRunFollowsRules | app/page.tsx:210 | From any state that keeps the loop invariant, the rest of the loop keeps it and ends full, with the pool used up, or on an overrunning pick |
| Page.FillDrawFollowsRules | app/page.tsx:211-218 | A drawn pick that overruns the budget ends the loop and is the witness of the stopping rule. A fitting pick continues the loop with the rules intact |
| Page.FillPushFollowsRules | app/page.tsx:220-225 | After a push and a splice that keep the invariant, the rest of the loop follows the rules |
| Page.FillStep | app/page.tsx:220-225 | Pushing a fitting pick of the pool and splicing its id out keeps the loop invariant and leaves the pool of the longer tour |
| Page.FirstStop | app/page.tsx:179-180 | With candidates there is always a first stop among them, and it is an anchor whenever there is an anchor |
| Page.ChooseStart | app/page.tsx:179-185 | The fallback from the anchors to all candidates yields the start that `FirstStop` describes |
| Page.Anchors | app/page.tsx:179 | Exactly the anchor-role candidates |
| Page.Highlights | app/page.tsx:188-192 | Exactly the highlight candidates whose id is not in the tour |
| Page.AddHighlight | app/page.tsx:187-201 | The head is the start, plus the drawn highlight exactly when it fits the budget. Distinct ids, duration summed |
| Page.HeadFollowsHighlightRule | app/page.tsx:194-201 | The head built by lines 194-201 satisfies the highlight rule |
| Page.HeadWithinBudget | app/page.tsx:195-200 | A two-stop head has distinct ids and stays within 180 minutes |
| Page.HighlightRuleExtends | app/page.tsx:203-226 | The fill loop never disturbs the highlight rule of the head |
| Page.FillRolesExtend | app/page.tsx:204-208 | Every stop after the head is supporting or micro |
| Page.FillPool | app/page.tsx:204-208 | Exactly the supporting and micro candidates whose id is not in the tour |
| Page.FillPoolStarts | app/page.tsx:204-208 | The initial `remaining` has distinct ids and is the fill pool of the tour |
| Page.FillPoolStep | app/page.tsx:220-225 | Pushing a pick and splicing its id out of `remaining` leaves the pool of the longer tour |
| Page.FillProgressStep | app/page.tsx:214-221 | Appending a fitting fill candidate with a new id keeps the loop invariant |
| Page.FillStops | app/page.tsx:203-226 | The loop yields exactly the tour and total of `FillRun`, the draw-by-draw description of lines 210-226: it ends at four stops or an empty pool, and on the first drawn pick that overruns the budget, without retrying. Otherwise it pushes the pick and splices its id out |
| Page.IndexOfId | app/page.tsx:224 | `findIndex` returns the first position with the id, or -1 exactly when no element has it |
| Page.RemoveAt | app/page.tsx:35 | Drops exactly the element at the index and keeps the order. An index outside the list changes nothing |
| Page.RemoveUniqueId | app/page.tsx:224-225 | In a list of distinct ids, the splice removes exactly the places with that id and keeps ids distinct |
| Page.SumDurationsAppend | app/page.tsx:184 | Pushing a stop adds its duration to the total |
| Page.SubsequenceUniqueIds | app/page.tsx:164 | Filtering a list with distinct ids keeps them distinct |
| Page.Allowed | app/page.tsx:47-48 | Exactly the candidates whose id no other stop holds |
| Page.ReplacementPoolChoice | app/page.tsx:45-53 | The pool is the same-role allowed candidates when there is one, else all allowed ones. It is empty exactly when every candidate is excluded |
| Page.Replaced | app/page.tsx:57 | Only position idx changes, to the replacement |
| Page.RemoveKeepsStopsValid | app/page.tsx:34-35 | Removing keeps at most four stops with distinct non-empty ids, and shortens the list by one for a valid index |
| Page.ReplaceKeepsStopsValid | app/page.tsx:45-57 | A replacement from the pool shares no id with any other stop, so the stops stay valid |
| Page.EngineTourIsValid | app/page.tsx:229 | A tour of catalog places is a valid stop list for the page |
| Page.MeridianStartRefused | app/page.tsx:148 | The written check refuses a start exactly on longitude 0.0 (51.5/0.0) |
| Page.ResolvedStartAccepted | app/page.tsx:148-152 | The corrected check accepts every resolved pair, zeros included, and refuses only a missing coordinate. The written check differs exactly on zeros |
| Page.Home.GenerateTour | app/page.tsx:105-229 | Clears the stops and error. Refuses an unresolved start. Reports "no places" exactly when there is no candidate, otherwise shows the tour the engine plans from the draws, which follows every engine rule, and remembers the start |
| Page.Home.RemoveStop | app/page.tsx:34-38 | The stops lose position idx, the error is cleared, "Stopp entfernt" is shown, and the stops stay valid |
| Page.Home.ReplaceStop | app/page.tsx:40-63 | Nothing happens without a start point. Otherwise the weighted pick from the pool replaces stop idx and "Stopp ersetzt" is shown, or "Kein Ersatz verfügbar" is reported with the stops unchanged |
| Route.Categories | app/api/generate/route.ts:31-47 | The categories are the list the map gives the mood, and empty exactly for a mood outside the map |
| Route.OrElse | app/api/generate/route.ts:144 | The JavaScript "or" of a string and a fallback yields the string when it is not empty, and the fallback otherwise |
| Route.ToPoi | app/api/generate/route.ts:142-148 | The id and coordinates are kept. Name and category are never empty |
| Route.ToPoiKeepsTags | app/api/generate/route.ts:144-147 | A present name or amenity is kept. A missing one becomes "Unbenannter Ort" or "unknown" |
| Route.FetchPois | app/api/generate/route.ts:134-148 | A thrown request gives no list, a non-OK status the empty list, and an OK reply one POI per element, in order |
| Route.ByDistance | app/api/generate/route.ts:90-92 | The sorted list has the input's members and length, in non-decreasing distance from the origin, with a nearest member first |
| Route.Nearest | app/api/generate/route.ts:98-100 | The first element after sorting by distance is a member at least as near as every other |
| Route.WithoutId | app/api/generate/route.ts:88 | Exactly the POIs with a different id |
| Route.NearestChain | app/api/generate/route.ts:85-102 | A non-empty list always yields three stops (two may be absent). The third stop is drawn from the list already sorted by distance from the start |
| Route.NearestChainTieGoesNearerStart | app/api/generate/route.ts:90-100 | On S (0,0), A (-2,4), B (1,0), C (-4,0) starting at S, the stops are S, B and C: A and C tie at distance 5 from B, and C comes first because the list was sorted by distance from S |
| Route.NearestChainChoice | app/api/generate/route.ts:85-102 | The start is from the list. The second is nearest to the start among the other ids, and exists exactly when there is one. Likewise the third, relative to the second |
| Route.NearestChainDistinct | app/api/generate/route.ts:85-102 | With at least three distinct ids, all three stops exist with pairwise different ids |
| Route.CachedFetch | app/api/generate/route.ts:55-61 | A hit returns the stored list and sends nothing. A miss sends one query and stores the fetched list, the empty list of a non-OK reply included. Entries are never overwritten |
| Route.PoiCache.Lookup | app/api/generate/route.ts:68-75 | The imperative lookup matches `CachedFetch` in its result, cache and queries sent |
| Route.Post | app/api/generate/route.ts:18-109 | The imperative request matches `PostSpec` in its response, cache and queries sent |
| Route.PostNeverOverwrites | app/api/generate/route.ts:55-76 | A request never changes or removes an entry, adds only its own two keys, and sends at most two queries |
| Route.PostAnswersFromDenseNearList | app/api/generate/route.ts:63-64 | With three or more POIs under the 2 km key, the answer is their chain and the 4 km key is untouched |
| Route.PostEscalatesOnlyWhenSparse | app/api/generate/route.ts:63-76 | A 4 km query is sent only after a 2 km list of fewer than three. A dense cached 2 km list means no queries and an unchanged cache |
| Route.PostTooFewIff | app/api/generate/route.ts:78-83 | The "too few places" answer comes exactly when both cached lists have fewer than three POIs. Stops come from a cached list of at least three |
| Route.RepeatServedFromCache | app/api/generate/route.ts:55-76 | A repeat of a request that did not fail sends nothing, keeps the cache and gives the same answer |
| Route.RefusedReplyIsRemembered | app/api/generate/route.ts:134-137 | A non-OK reply at both radii is cached as empty, so a repeat answers "too few places" without asking again |

## Left out

- The haversine distance (`calculateDistance`) is the parameter `dist`. Floating-point arithmetic is not modelled, and the route's planar distance is replaced by its square, which orders alike.
- `Math.random()`, the clock and the random shuffle of line 85 of the route are inputs (`u`, `draws`, `hour`, `pick`). Only the draw-to-result mapping is modelled, not the distribution. The shuffle comparator is not a uniform shuffle, and any start position is allowed.
- Geolocation, the Nominatim geocoder (`geocodeAddress`), `req.json()`, `NextResponse` and the HTTP/JSON layer of Overpass are left out. The start arrives as optional coordinates. The Overpass reply arrives as a `Reply` value, and a throw in the request or decoding is `Unreachable`.
- The "Adresse nicht gefunden." exit for an address the geocoder cannot resolve (lines 138-141) is left out with the geocoder. Line 148 is only reached with numbers, so a `None` coordinate stands for a value it treats as missing; a NaN coordinate has no counterpart among Dafny's reals.
- The page's catch-all message ("Fehler bei der Tour-Generierung.", line 233) is left out with the steps that reach it: a refused or timed-out position request, and a failing Nominatim `fetch` or `res.json()` (lines 86-92). The engine has no throwing step once the start is resolved.
- The React parts are left out: `isLoading`, the snackbar timeout, `getHookForStop`, rendering and the address form.
- The Overpass query text (lines 117-124) is kept as a structured `Query`. Its regex, timeout and 50-result cap are not modelled.
- The cache key is structured as (mood, lat, lon, radius). The source's joined string could collide, for example mood "Genuss-" with lat 1 against mood "Genuss" with lat -1.
- `data/tours.ts` and the catalog contents are not part of this model. The catalog is a parameter, assumed to have distinct non-empty ids (`WellFormedCatalog`).
- A missing `generation_weight` is a weight of 0. Both are falsy for `||`.
- The sort's stability is not proved in general. `SortByKey` is a stable insertion sort, but only its order and permutation are stated, and `Route.NearestChainTieGoesNearerStart` shows one tie.
- The in-place `splice` and `sort` are modelled on sequence values (`RemoveAt`, `SortByKey`). The sort at line 90 of the route reorders `remainingAfterStart` itself, and the model keeps that effect: the third stop is taken from the sorted list, so ties go to the POI nearer the start. No other array is shared.
- Concurrent requests sharing the cache are not modelled. Each `Post` runs to completion.
- Page.Home.GenerateTour: uses the corrected start check `StartPointResolved`, which accepts a coordinate of 0. Line 148 as written refuses it; `Page.MeridianStartRefused` models that check (see Findings).
- Three behaviours of the code that a reader might not expect, all modelled as written:
  - The page fails only when there is no candidate at all. With one or two candidates it still builds a tour.
  - The route has no retry on HTTP 429. A non-OK reply is cached as an empty list, so a rate-limited key stays empty until restart.
  - A request whose fetch threw caches nothing, so the next request asks again.

## Findings

| source | as written | input that shows it | evidently intended | confidence | as-written member | corrected member |
|---|---|---|---|---|---|---|
| app/page.tsx:148 | The start check `!lat` or `!lon` refuses a coordinate of 0, which is falsy, as "Kein gültiger Startpunkt." | A start exactly on longitude 0.0, such as (51.5, 0.0), or exactly on latitude 0.0 | Refuse only a start with no resolved coordinate | not executed | Page.MeridianStartRefused | Page.ResolvedStartAccepted |

`Page.Home.GenerateTour` uses the corrected check, `StartPointResolved`.
