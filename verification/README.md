# SipMap search and swipe deck, modelled in Dafny

SipMap is a cafe-discovery app. Its backend endpoint `GET /api/search-cafes`
(server/server.js) does one of three things:

- with coordinates, it searches the places API twice, nearby search and text
  search, then merges the two result lists by a key derived from the display
  name;
- with a `query`, it runs one text search;
- otherwise it refuses the request.

In every successful case it normalizes each place into a record with a
default for every field. The browser side (script.js) keeps a swipe deck:
rejected ids, saved cafes, the last result list, the last "surprise" index
and a cached location fix. It filters, reorders and updates these as the
user swipes.

The model has six modules:

- `JsValue` (jsvalue.dfy): JavaScript values and the operators the source
  relies on: truthiness, `||`, `?.` and `?.[i]`.
- `Merge` (merge.dfy): the merge loop over an insertion-ordered `Map`,
  written as a class `PlaceMap` and a method `MergePlaces`. The method is
  proved equal to `MergedSpec`, a reference definition that groups the
  places by key and folds each group.
- `MergeProperties` (merge_props.dfy): what the merge guarantees:
  - each key appears once, in the order of its first appearance;
  - places without a key are dropped;
  - the precedence rules for each field.
- `Normalize` (normalize.dfy): the two normalizers. The coordinate branch
  and the text branch each have their own defaults.
- `Gateway` (gateway.dfy): the handler as a whole:
  - parameter validation and branch selection;
  - the upstream requests each branch makes;
  - the response and its status code.
- `Client` (client.dfy): the swipe deck as a class `SwipeDeck`, plus the pure
  filters and the price-tier labels.

Points where the code does something other than what it may seem to do:

- The comments at server/server.js:127 and 131 say the merge prefers
  "non-null" values. The code uses `||`, so an earlier falsy value is also
  replaced by the later one. This applies to a rating of `0` and to an empty
  string.
- Fields outside the whitelist keep their earlier value when the later place
  lacks them, because the merge spreads the existing place first.
- The coordinate branch runs only when both `lat` and `lng` are truthy. A
  lone `lat` falls through to the `query` branch, or to "Invalid search
  parameters".
- The filter at server/server.js:148 drops nothing, because the loop has
  already skipped every place without a key (`Normalize.OneRecordPerKey`).

## Model

| member | source | states |
|---|---|---|
| Merge.MergeKey | server/server.js:122-123 | the key is `displayName.text` when that is truthy, otherwise `name` when that is truthy; there is no key exactly when both are falsy, and a key is always truthy |
| Merge.MergeInto | server/server.js:128-140 | the merged place has the fields of both places plus the seven whitelisted ones; a whitelisted field keeps the existing value when it is truthy and otherwise takes the new one; any other field comes from the new place when the new place has it, otherwise from the existing one |
| Merge.PlaceMap.constructor | server/server.js:119 | a new map is empty and well formed |
| Merge.PlaceMap.Lookup | server/server.js:125 | `get` finds a value exactly for the keys present, and returns the stored value |
| Merge.PlaceMap.Set | server/server.js:128-142 | `set` stores the value under the key; a new key goes to the end of the insertion order, and an existing key keeps its position; no key is listed twice |
| Merge.PlaceMap.Values | server/server.js:147 | `values()` lists one value per key, in insertion order |
| Merge.AddPlace | server/server.js:121-143 | the callback skips a place without a key, stores a place under a new key at the end of the insertion order, and merges a place with a known key into the stored one; the map stays well formed |
| Merge.EntriesFold | server/server.js:121-144 | after any prefix of the input, the map holds exactly the keys met so far, each mapped to the fold of that key's places |
| Merge.MergePlaces | server/server.js:116-147 | the loop over nearby-then-text results leaves the map holding exactly the reference merge: for each key in first-appearance order, the fold of that key's places |
| MergeProperties.KeyOrderDistinct | server/server.js:119-144 | no key appears twice in the merged output |
| MergeProperties.KeyOrderMembers | server/server.js:121-123 | a key appears in the output exactly when some input place carries it |
| MergeProperties.KeyOrderByFirstAppearance | server/server.js:121-142 | output order is first-appearance order: a key listed earlier first occurs in the input before any occurrence of a key listed later |
| MergeProperties.KeylessPlaceDropped | server/server.js:122-123 | inserting a place with no key anywhere in the input leaves the merged output unchanged |
| MergeProperties.MergeIntoKeepsKey | server/server.js:128-130 | merging two places with the same key gives a place with that key |
| MergeProperties.FoldKeepsKey | server/server.js:125-142 | folding a group of same-key places keeps the key |
| MergeProperties.OnePlacePerKey | server/server.js:116-147 | the merged list has one place per distinct input key, the i-th carries the i-th key, and no two carry the same key |
| MergeProperties.WhitelistFirstTruthyWins | server/server.js:132-139 | for a whitelisted field, the first truthy value among a key's places is the merged value |
| MergeProperties.WhitelistNoneTruthy | server/server.js:132-139 | when no place of a group has the whitelisted field truthy, the last place's value is kept |
| MergeProperties.OtherFieldLastWriterWins | server/server.js:128-130 | a field outside the whitelist takes the value of the last place in the group that has it |
| MergeProperties.OtherFieldNeverWritten | server/server.js:128-130 | a field outside the whitelist that no place has stays absent |
| MergeProperties.SameCafeFromBothSearches | server/server.js:116-144 | "Cafe A" rated 4.2 nearby and priced moderate in text search merges into one place with both the rating and the price |
| Normalize.NormalizePlace | server/server.js:149-166 | no field of the record is missing; the name is the merge key or "Unknown Place"; place_id prefers `id`, then `place_id`, then a generated id; rating is `toFixed(1)` of a number and "N/A" otherwise; photo is the media URL of the first photo when there is one, else a placeholder captioned with the name; openNow holds exactly when businessStatus is "OPERATIONAL" |
| Normalize.ObjectPhotos | server/server.js:157-158 | `photos?.[0]` on an object reads its property "0", so both branches build the media photo from it |
| Normalize.ObjectTypes | server/server.js:213 | `types?.[0]` on an object reads its property "0", which becomes the text record's type |
| Normalize.EmptyPlaceDefaults | server/server.js:150-165 | a place with no fields becomes the all-defaults record |
| Normalize.Keyed | server/server.js:148 | a place is kept exactly when it is in the list and has a key, and every place is kept when all have one |
| Normalize.KeyedAppend | server/server.js:148 | the filter keeps the input order: filtering a concatenation filters each part |
| Normalize.NormalizeAll | server/server.js:147-167 | one complete record per kept place, in order, each the normalization of that place |
| Normalize.OneRecordPerKey | server/server.js:116-167 | after merging, the filter drops nothing and the response has one record per distinct key, in first-appearance order, named by the key, with no two names equal |
| Normalize.NormalizeTextPlace | server/server.js:204-215 | no field of the text record is missing; the name is displayName.text or "Unknown Place"; place_id is `id` or generated; the rating is passed through raw or is "N/A"; the photo placeholder caption falls back to "No Image"; the type is the first of `types` or "Restaurant" |
| Normalize.TextResults | server/server.js:197-215 | an absent `places` gives no results; otherwise one record per upstream place, in order, with no merging |
| Gateway.Route | server/server.js:66-74 | the coordinate branch runs exactly when lat and lng are both given and both numeric; a given but non-numeric pair is refused with "Invalid coordinates"; otherwise a non-empty query selects the text branch, and without one the request is refused with "Invalid search parameters" |
| Gateway.UpstreamCalls | server/server.js:76-113 | a refused request calls nothing; the coordinate branch makes a nearby search for the given lat and lng (types cafe and restaurant, 10 results, radius 1500) and then a text search "cafes and restaurants near lat,lng" (10 results); the text branch makes one text search "restaurants and cafes in query" (20 results, language "en") |
| Gateway.Respond | server/server.js:61-226 | the status is 400 exactly when the request is refused; nearby-style results come only from the coordinate branch, text-style results only from the text branch; the answer is a 500 exactly when a planned upstream call fails; a coordinate search whose two requests succeed answers the normalized merge of nearby-then-text places; a successful text search answers the text records of its places |
| Gateway.OnlyPlannedCallsMatter | server/server.js:66-192 | the response depends on the places API only through the requests the chosen branch makes |
| Gateway.InvalidCoordinatesRefused | server/server.js:68-73 | non-numeric coordinates give "Invalid coordinates" and make no upstream request |
| Gateway.MissingParametersRefused | server/server.js:221-226 | with neither both coordinates nor a query, the answer is a 400 "Invalid search parameters" and no upstream request is made |
| Gateway.CoordinatesTakePriority | server/server.js:66-174 | with valid coordinates the query parameter is ignored |
| Gateway.EmptyTextSearch | server/server.js:197-202 | a text search whose `places` is absent or empty succeeds with no results |
| Gateway.TextSearchResults | server/server.js:174-220 | a text search that succeeds answers 200 with one record per upstream place, in order, each the text normalization of that place |
| Gateway.CoordinateResultsOnePerKey | server/server.js:76-172 | when both coordinate-branch requests succeed, the response is a success with one complete record per distinct key of nearby-then-text results, in first-appearance order, with distinct names |
| Client.Display | script.js:147-164 | the empty state shows exactly when every cafe is rejected or saved; otherwise the cards shown are the cafes that are neither, in their original order |
| Client.ExcludeMembers | script.js:148 | the filter keeps exactly the cafes whose id is not excluded |
| Client.ExcludeAppend | script.js:148-154 | the filter distributes over concatenation |
| Client.AvailableMembers | script.js:148-154 | a cafe is shown exactly when it is in the list, not rejected and not saved |
| Client.AvailableIsOneFilter | script.js:148-154 | the two filters in turn equal one filter against rejected ids together with saved ids |
| Client.AvailableKeepsOrder | script.js:148-154 | filtering preserves the relative order of the cafes |
| Client.HasId | script.js:270 | the duplicate check is true exactly when a saved cafe has the id |
| Client.ExcludeAbsentId | script.js:272-274 | removing an id nobody has leaves the saved list unchanged |
| Client.AppendNewIdKeepsUnique | script.js:272-276 | appending a cafe with a new id keeps saved ids unique |
| Client.WithoutIndex | script.js:244 | dropping one position shortens the list by one |
| Client.MoveToFrontIsPermutation | script.js:244 | the chosen cafe comes first, the rest keep their order, and the result is a permutation of the list |
| Client.StoredFixFreshForTenMinutes | script.js:84-86 | a stored fix with a non-zero timestamp is reused exactly while less than 600000 ms have passed |
| Client.PriceLevelSymbols | script.js:332-347 | a label is non-empty exactly for the five known tiers, and each tier maps to its label (Free, $, $$, $$$, $$$$) |
| Client.PriceLabelsDistinct | script.js:332-347 | different tiers have different labels |
| Client.SwipeDeck.constructor | script.js:5 | the rejected set holds the stored ids; nothing is displayed yet and no surprise has been drawn |
| Client.SwipeDeck.DisplayCards | script.js:142-164 | records the full list, and shows what `Display` prescribes for the current rejected and saved state |
| Client.SwipeDeck.AcceptCafe | script.js:267-277 | a cafe is appended exactly when no saved cafe has its id, otherwise nothing changes; saved ids stay unique |
| Client.SwipeDeck.RejectCafe | script.js:248-251 | the id joins the rejected set, storage holds the new set, and rejecting twice changes nothing |
| Client.SwipeDeck.ClearRejected | script.js:402-404 | the rejected set and its stored copy are emptied |
| Client.SwipeDeck.SurpriseMe | script.js:233-245 | with no results nothing changes; otherwise the chosen index is a valid draw that differs from the previous one whenever there are at least two cafes, it is remembered, and the list redisplayed is that cafe moved to the front |
| Client.SwipeDeck.LocationCachedOrNew | script.js:84-95 | a fresh cached fix is reused unchanged; otherwise a granted position is used and stored with the current time, and a refusal leaves the cache as it was and reports the location as unavailable |

## Left out

- Express setup, CORS, dotenv, request logging and `app.listen` are not modelled: they are configuration with no logic.
- `fetch` and `Promise.all` are represented by the parameter `answer`, which gives each request's reply. The API key, headers and field masks are not modelled.
- When both coordinate-branch requests fail, `Promise.all` reports whichever failure happens first in time. The model always reports the nearby search's failure.
- `await r.json()` failing and an upstream error body both reduce to `Failed` or to an absent `places`. The error payload's shape beyond its message is not modelled.
- The code after the if/else chain (server/server.js:228-295) is unreachable, because every branch returns. It is not modelled.
- The catch block's `timestamp` field of the 500 response is not modelled, because it depends on the clock.
- `Date.now()` and `Math.random()` in generated ids are represented by the parameter `stamps`, which gives the suffix for each position.
- `Number.prototype.toFixed(1)` and the global `isNaN` coercion are parameters. Their numeric behaviour is not modelled.
- `parseFloat` is not modelled. The nearby-search request carries the `lat` and `lng` parameter strings as they were received.
- Photo URLs are modelled by what they embed: the photo `name`, or the placeholder caption. The URL text, `encodeURIComponent` and the embedded API key are not modelled.
- The JS `Map` compares object keys by identity; the model compares merge keys structurally. This differs only when a key is an object or an array. NaN is not representable.
- Upstream `places` entries are modelled as objects. A `null` entry (which throws in the loop) and a non-array `places` value are not modelled.
- Repeated query parameters, which Express turns into arrays, are not modelled. Each parameter is a string, and "" stands for absent.
- The rendering and the UI are not modelled. This covers the DOM, Hammer gestures, animations, toasts, `confirm`, `window.open` and `getStarRating`.
- The browser geolocation API is represented by the parameter `position`, and `Date.now()` by `now`.
- `searchByText`, `useLocation` and the re-search at the end of `clearRejected` (script.js:405-411) are network round trips and are not modelled.
- `showSaved` and `clearSaved` are not modelled: they are saved-list views outside the swipe deck's filtering. The Remove button calls `removeSavedCafe` (script.js:384), which script.js does not define, so there is nothing to model.
- The image fallback inside the card loop (script.js:175) is DOM content and is not modelled.
- The rejected set is stored as an array in insertion order. The model keeps it as a set, because reading it back only tests membership.
- Client.SwipeDeck.SurpriseMe: `Math.random()` becomes a finite list of draws. The requires clause says that the list contains an acceptable draw. This replaces the loop's probability-one termination.
- Normalize.NormalizePlace: for priceLevel, address, type, description, phone and website, the contract states only that each field is a value or its documented default. The exact fallback chain for each of these fields is not in the contract.
- Normalize.NormalizeTextPlace: for priceLevel, address and description, the contract states only that each field is a value or its default. The exact fallback is not in the contract.
