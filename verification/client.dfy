/** The browser side of script.js, without the DOM: which cards are shown,
    the saved list and the rejected set kept in `localStorage`, the "surprise
    me" reorder, the cached geolocation fix and the price-tier labels.
    `localStorage` entries are fields holding what they read back as; time and
    randomness are parameters. */
module Client {
  import opened JsValue

  /** A cafe as the page holds it: its `place_id` and the rest of its record
      (name, photo, rating, ...), carried along unchanged. */
  datatype Cafe = Cafe(placeId: string, fields: map<string, string>)

  /** The place ids of a list of cafes. */
  function Ids(cafes: seq<Cafe>): set<string> {
    set c | c in cafes :: c.placeId
  }

  /** No two cafes of the list share a place id. */
  predicate UniqueIds(cafes: seq<Cafe>) {
    forall i, j :: 0 <= i < j < |cafes| ==> cafes[i].placeId != cafes[j].placeId
  }

  // ---------------------------------------------------------------------
  // displayCards: which cards are shown.

  /** `cafes.filter(cafe => !ids.has(cafe.place_id))`. */
  function Exclude(cafes: seq<Cafe>, ids: set<string>): seq<Cafe> {
    if cafes == [] then []
    else (if cafes[0].placeId in ids then [] else [cafes[0]]) + Exclude(cafes[1..], ids)
  }

  /** The rejected cafes are filtered out first, then the saved ones. */
  function Available(cafes: seq<Cafe>, rejected: set<string>, saved: seq<Cafe>): seq<Cafe> {
    Exclude(Exclude(cafes, rejected), Ids(saved))
  }

  /** What the card container shows. */
  datatype View = EmptyState | Cards(shown: seq<Cafe>)

  /** The outcome of `displayCards`: the empty-state message when no cafe is
      left, otherwise the available cafes as cards, in input order. */
  function Display(cafes: seq<Cafe>, rejected: set<string>, saved: seq<Cafe>): (v: View)
    ensures v.EmptyState? <==> forall c :: c in cafes ==> c.placeId in rejected || c.placeId in Ids(saved)
    ensures v.Cards? ==> v.shown != [] && v.shown == Available(cafes, rejected, saved)
  {
    var available := Available(cafes, rejected, saved);
    AvailableMembers(cafes, rejected, saved);
    assert available != [] ==> available[0] in available;
    if available == [] then EmptyState else Cards(available)
  }

  /** A cafe survives a filter exactly when it is in the input and its id is not excluded. */
  lemma {:induction false} ExcludeMembers(cafes: seq<Cafe>, ids: set<string>)
    ensures forall c :: c in Exclude(cafes, ids) <==> c in cafes && c.placeId !in ids
  {
    if cafes != [] {
      ExcludeMembers(cafes[1..], ids);
      assert cafes == [cafes[0]] + cafes[1..];
    }
  }

  /** Filtering commutes with concatenation, so the input order is kept. */
  lemma {:induction false} ExcludeAppend(a: seq<Cafe>, b: seq<Cafe>, ids: set<string>)
    ensures Exclude(a + b, ids) == Exclude(a, ids) + Exclude(b, ids)
  {
    if a == [] {
      assert a + b == b;
    } else {
      var head := if a[0].placeId in ids then [] else [a[0]];
      assert (a + b)[0] == a[0];
      assert (a + b)[1..] == a[1..] + b;
      assert Exclude(a + b, ids) == head + Exclude(a[1..] + b, ids);
      ExcludeAppend(a[1..], b, ids);
      assert Exclude(a, ids) == head + Exclude(a[1..], ids);
    }
  }

  /** The shown cafes are exactly the input cafes that are neither rejected nor saved. */
  lemma AvailableMembers(cafes: seq<Cafe>, rejected: set<string>, saved: seq<Cafe>)
    ensures forall c :: c in Available(cafes, rejected, saved) <==>
      c in cafes && c.placeId !in rejected && c.placeId !in Ids(saved)
  {
    ExcludeMembers(cafes, rejected);
    ExcludeMembers(Exclude(cafes, rejected), Ids(saved));
  }

  /** The two filters in a row are one filter by the union of the id sets. */
  lemma {:induction false} AvailableIsOneFilter(cafes: seq<Cafe>, rejected: set<string>, saved: seq<Cafe>)
    ensures Available(cafes, rejected, saved) == Exclude(cafes, rejected + Ids(saved))
  {
    if cafes != [] {
      AvailableIsOneFilter(cafes[1..], rejected, saved);
      var head := if cafes[0].placeId in rejected then [] else [cafes[0]];
      ExcludeAppend(head, Exclude(cafes[1..], rejected), Ids(saved));
    }
  }

  /** The available cafes of a concatenation are those of each part, in order. */
  lemma AvailableKeepsOrder(a: seq<Cafe>, b: seq<Cafe>, rejected: set<string>, saved: seq<Cafe>)
    ensures Available(a + b, rejected, saved) == Available(a, rejected, saved) + Available(b, rejected, saved)
  {
    ExcludeAppend(a, b, rejected);
    ExcludeAppend(Exclude(a, rejected), Exclude(b, rejected), Ids(saved));
  }

  // ---------------------------------------------------------------------
  // acceptCafe: appending to the saved list.

  /** `saved.some(c => c.place_id === id)`. */
  function HasId(saved: seq<Cafe>, id: string): (b: bool)
    ensures b <==> id in Ids(saved)
  {
    exists i :: 0 <= i < |saved| && saved[i].placeId == id
  }

  /** A filter that drops nothing when no cafe has the id. */
  lemma {:induction false} ExcludeAbsentId(saved: seq<Cafe>, id: string)
    requires id !in Ids(saved)
    ensures Exclude(saved, {id}) == saved
  {
    if saved != [] {
      assert saved[0] in saved;
      assert Ids(saved[1..]) <= Ids(saved) by {
        forall c | c in saved[1..] ensures c in saved { }
      }
      ExcludeAbsentId(saved[1..], id);
      assert saved == [saved[0]] + saved[1..];
    }
  }

  /** Appending a cafe whose id is new keeps the ids unique. */
  lemma AppendNewIdKeepsUnique(saved: seq<Cafe>, cafe: Cafe)
    requires cafe.placeId !in Ids(saved)
    ensures UniqueIds(saved) ==> UniqueIds(saved + [cafe])
  {
    forall i, j | UniqueIds(saved) && 0 <= i < j < |saved + [cafe]|
      ensures (saved + [cafe])[i].placeId != (saved + [cafe])[j].placeId
    {
      if j == |saved| {
        assert saved[i] in saved;
      }
    }
  }

  // ---------------------------------------------------------------------
  // surpriseMe: the reorder.

  /** `cafes.filter((_, i) => i !== k)`. */
  function WithoutIndex(cafes: seq<Cafe>, k: nat): (r: seq<Cafe>)
    requires k < |cafes|
    ensures |r| == |cafes| - 1
  {
    seq(|cafes| - 1, i requires 0 <= i < |cafes| - 1 => if i < k then cafes[i] else cafes[i + 1])
  }

  /** `[cafes[k], ...cafes.filter((_, i) => i !== k)]`. */
  function MoveToFront(cafes: seq<Cafe>, k: nat): seq<Cafe>
    requires k < |cafes|
  {
    [cafes[k]] + WithoutIndex(cafes, k)
  }

  /** The reorder is a permutation that puts the chosen cafe first and keeps
      the others in their original relative order. */
  lemma MoveToFrontIsPermutation(cafes: seq<Cafe>, k: nat)
    requires k < |cafes|
    ensures |MoveToFront(cafes, k)| == |cafes|
    ensures MoveToFront(cafes, k)[0] == cafes[k]
    ensures MoveToFront(cafes, k)[1..] == cafes[..k] + cafes[k + 1..]
    ensures multiset(MoveToFront(cafes, k)) == multiset(cafes)
  {
    var r := MoveToFront(cafes, k);
    assert r[1..] == WithoutIndex(cafes, k);
    assert WithoutIndex(cafes, k) == cafes[..k] + cafes[k + 1..];
    assert cafes == cafes[..k] + [cafes[k]] + cafes[k + 1..];
    assert r == [cafes[k]] + (cafes[..k] + cafes[k + 1..]);
  }

  /** A draw the do-while loop accepts: any draw for a one-element list,
      otherwise one that differs from the previous choice. */
  predicate Acceptable(n: nat, last: Option<nat>, d: nat) {
    n <= 1 || last != Some(d)
  }

  datatype Surprise = NoCafes | Surprised(index: nat, view: View)

  // ---------------------------------------------------------------------
  // The location cache and the price tiers.

  /** A cached geolocation fix; `timestamp` is milliseconds since the epoch. */
  datatype LocationFix = LocationFix(lat: real, lng: real, timestamp: int)

  /** How long a cached fix is used: 10 minutes in milliseconds. */
  const CacheWindow: int := 10 * 60 * 1000

  /** `cache.timestamp && now - cache.timestamp < 10 * 60 * 1000`. */
  predicate UseCachedFix(cache: Option<LocationFix>, now: int) {
    cache.Some? && cache.value.timestamp != 0 && now - cache.value.timestamp < CacheWindow
  }

  /** A fix stored at a non-zero time `stored` is used exactly until the window has passed. */
  lemma StoredFixFreshForTenMinutes(lat: real, lng: real, stored: int, now: int)
    requires stored != 0
    ensures UseCachedFix(Some(LocationFix(lat, lng, stored)), now) <==> now < stored + 600000
  {
  }

  datatype Locate = UseLocation(lat: real, lng: real) | LocationUnavailable

  const PriceTiers: seq<string> :=
    ["PRICE_LEVEL_FREE", "PRICE_LEVEL_INEXPENSIVE", "PRICE_LEVEL_MODERATE",
     "PRICE_LEVEL_EXPENSIVE", "PRICE_LEVEL_VERY_EXPENSIVE"]

  /** The label markup of each tier, in the order of `PriceTiers`. */
  const PriceLabels: seq<string> :=
    ["<span title=\"Free\">Free</span>", "<span title=\"Inexpensive\">$</span>",
     "<span title=\"Moderate\">$$</span>", "<span title=\"Expensive\">$$$</span>",
     "<span title=\"Very Expensive\">$$$$</span>"]

  /** `getPriceLevelSymbols`: the label of a known tier, the empty string otherwise. */
  function PriceLevelSymbols(priceLevel: string): (r: string)
    ensures r != "" <==> priceLevel in PriceTiers
    ensures forall i :: 0 <= i < |PriceTiers| && priceLevel == PriceTiers[i] ==> r == PriceLabels[i]
  {
    match priceLevel
    case "PRICE_LEVEL_FREE" => "<span title=\"Free\">Free</span>"
    case "PRICE_LEVEL_INEXPENSIVE" => "<span title=\"Inexpensive\">$</span>"
    case "PRICE_LEVEL_MODERATE" => "<span title=\"Moderate\">$$</span>"
    case "PRICE_LEVEL_EXPENSIVE" => "<span title=\"Expensive\">$$$</span>"
    case "PRICE_LEVEL_VERY_EXPENSIVE" => "<span title=\"Very Expensive\">$$$$</span>"
    case _ => ""
  }

  /** Distinct tiers get distinct labels, so a label names its tier. */
  lemma PriceLabelsDistinct(a: string, b: string)
    requires PriceLevelSymbols(a) == PriceLevelSymbols(b) != ""
    ensures a == b
  {
  }

  // ---------------------------------------------------------------------
  // The page's mutable state.

  class SwipeDeck {
    /** `rejectedCafes`, the in-memory set. */
    var rejected: set<string>
    /** The `rejectedCafes` entry of `localStorage`, as read back. */
    var storedRejected: set<string>
    /** The `savedCafes` entry of `localStorage`, as read back. */
    var saved: seq<Cafe>
    /** `fullCafeResults`. */
    var fullResults: seq<Cafe>
    /** `lastSurpriseIndex`; `None` stands for `null`. */
    var lastSurprise: Option<nat>
    /** The `cachedLocation` entry of `localStorage`. */
    var cachedLocation: Option<LocationFix>

    /** Page load: the rejected set is read from storage. */
    constructor (storedRejected: seq<string>, saved: seq<Cafe>, cachedLocation: Option<LocationFix>)
      ensures rejected == set id | id in storedRejected
      ensures this.storedRejected == rejected && this.saved == saved
      ensures fullResults == [] && lastSurprise == None && this.cachedLocation == cachedLocation
    {
      rejected := set id | id in storedRejected;
      this.storedRejected := set id | id in storedRejected;
      this.saved := saved;
      fullResults := [];
      lastSurprise := None;
      this.cachedLocation := cachedLocation;
    }

    /** `displayCards(cafes)`. */
    method DisplayCards(cafes: seq<Cafe>) returns (view: View)
      modifies this`fullResults
      ensures fullResults == cafes
      ensures view == Display(cafes, rejected, saved)
    {
      fullResults := cafes;
      view := Display(cafes, rejected, saved);
    }

    /** `acceptCafe(wrapper, cafeData)`, without the animation and the toast. */
    method AcceptCafe(cafe: Cafe) returns (added: bool)
      modifies this`saved
      ensures added <==> cafe.placeId !in Ids(old(saved))
      ensures saved == if added then old(saved) + [cafe] else old(saved)
      ensures UniqueIds(old(saved)) ==> UniqueIds(saved)
    {
      var isDuplicate := HasId(saved, cafe.placeId);
      if !isDuplicate {
        ExcludeAbsentId(saved, cafe.placeId);
        saved := Exclude(saved, {cafe.placeId});
        AppendNewIdKeepsUnique(saved, cafe);
        saved := saved + [cafe];
      }
      added := !isDuplicate;
    }

    /** `rejectCafe(wrapper)`: the card's id joins the set, which is stored whole. */
    method RejectCafe(placeId: string)
      modifies this`rejected, this`storedRejected
      ensures rejected == old(rejected) + {placeId}
      ensures storedRejected == rejected
      ensures placeId in old(rejected) ==> rejected == old(rejected)
    {
      rejected := rejected + {placeId};
      storedRejected := rejected;
    }

    /** `clearRejected()`, up to the search it starts again. */
    method ClearRejected()
      modifies this`rejected, this`storedRejected
      ensures rejected == {} && storedRejected == {}
    {
      rejected := {};
      storedRejected := {};
    }

    /** `surpriseMe()`. `draws` are the successive values of
        `Math.floor(Math.random() * fullCafeResults.length)`; the do-while loop
        ends with probability one, which the model states as a draw the loop
        accepts being among them. */
    method SurpriseMe(draws: seq<nat>) returns (outcome: Surprise)
      requires fullResults != [] ==> forall t :: 0 <= t < |draws| ==> draws[t] < |fullResults|
      requires fullResults != [] ==> exists t :: 0 <= t < |draws| && Acceptable(|fullResults|, lastSurprise, draws[t])
      modifies this`fullResults, this`lastSurprise
      ensures old(fullResults) == [] ==> outcome == NoCafes && fullResults == [] && lastSurprise == old(lastSurprise)
      ensures old(fullResults) != [] ==>
        && outcome.Surprised?
        && outcome.index < |old(fullResults)|
        && (exists t :: 0 <= t < |draws| && draws[t] == outcome.index
              && forall u :: 0 <= u < t ==> !Acceptable(|old(fullResults)|, old(lastSurprise), draws[u]))
        && (|old(fullResults)| > 1 && old(lastSurprise).Some? ==> outcome.index != old(lastSurprise).value)
        && lastSurprise == Some(outcome.index)
        && fullResults == MoveToFront(old(fullResults), outcome.index)
        && outcome.view == Display(fullResults, rejected, saved)
    {
      var n := |fullResults|;
      if n == 0 {
        return NoCafes;
      }
      var t := 0;
      var randomIndex := draws[0];
      while n > 1 && lastSurprise == Some(randomIndex)
        invariant 0 <= t < |draws| && randomIndex == draws[t]
        invariant forall u :: 0 <= u < t ==> !Acceptable(n, lastSurprise, draws[u])
        invariant exists u :: t <= u < |draws| && Acceptable(n, lastSurprise, draws[u])
        decreases |draws| - t
      {
        t := t + 1;
        randomIndex := draws[t];
      }
      lastSurprise := Some(randomIndex);
      var newOrder := MoveToFront(fullResults, randomIndex);
      var view := DisplayCards(newOrder);
      outcome := Surprised(randomIndex, view);
    }

    /** `getLocationCachedOrNew()` without the skeleton cards: the cached fix
        when it is fresh at `now`, otherwise the outcome of
        `navigator.geolocation.getCurrentPosition`, which is stored with
        timestamp `now` when there is one. */
    method LocationCachedOrNew(now: int, position: Option<(real, real)>) returns (action: Locate)
      modifies this`cachedLocation
      ensures UseCachedFix(old(cachedLocation), now) ==>
        action == UseLocation(old(cachedLocation).value.lat, old(cachedLocation).value.lng)
        && cachedLocation == old(cachedLocation)
      ensures !UseCachedFix(old(cachedLocation), now) && position.Some? ==>
        action == UseLocation(position.value.0, position.value.1)
        && cachedLocation == Some(LocationFix(position.value.0, position.value.1, now))
      ensures !UseCachedFix(old(cachedLocation), now) && position.None? ==>
        action == LocationUnavailable && cachedLocation == old(cachedLocation)
    {
      if UseCachedFix(cachedLocation, now) {
        action := UseLocation(cachedLocation.value.lat, cachedLocation.value.lng);
      } else if position.Some? {
        var (lat, lng) := position.value;
        cachedLocation := Some(LocationFix(lat, lng, now));
        action := UseLocation(lat, lng);
      } else {
        action := LocationUnavailable;
      }
    }
  }
}
