/** The normalizers of server/server.js: one raw upstream place becomes one
    record in which every field has a value. The coordinate branch and the
    text branch build different records and follow different rules. */
module Normalize {
  import opened JsValue
  import opened Merge
  import MergeProperties

  /** The `photo` URL, by what it is built from: the media URL embeds the
      first photo's `name`, the placeholder URL embeds a caption. */
  datatype Photo = Media(reference: Value) | Placeholder(caption: Value)

  /** A record of the coordinate branch. */
  datatype PlaceRecord = PlaceRecord(
    name: Value,
    placeId: Value,
    rating: string,
    priceLevel: Value,
    address: Value,
    photo: Photo,
    placeType: Value,
    description: Value,
    openNow: bool,
    internationalPhoneNumber: Value,
    websiteUri: Value)

  /** A record of the text branch. */
  datatype TextRecord = TextRecord(
    name: Value,
    placeId: Value,
    rating: Value,
    priceLevel: Value,
    address: Value,
    photo: Photo,
    placeType: Value,
    description: Value)

  /** A value that is either truthy or the empty-string default. */
  predicate TruthyOrEmpty(v: Value) {
    Truthy(v) || v == Str("")
  }

  /** No field of a coordinate-branch record is missing or null (`rating` is a string in every case). */
  predicate CompleteRecord(r: PlaceRecord) {
    && Truthy(r.name) && Truthy(r.placeId)
    && Truthy(r.priceLevel) && Truthy(r.address)
    && TruthyOrEmpty(r.placeType) && TruthyOrEmpty(r.description)
    && TruthyOrEmpty(r.internationalPhoneNumber) && TruthyOrEmpty(r.websiteUri)
  }

  /** No field of a text-branch record is missing or null. */
  predicate CompleteTextRecord(r: TextRecord) {
    && Truthy(r.name) && Truthy(r.placeId) && Truthy(r.rating)
    && Truthy(r.priceLevel) && Truthy(r.address)
    && Truthy(r.placeType) && TruthyOrEmpty(r.description)
  }

  /** `place.photos?.[0]`. */
  function FirstPhoto(p: Object): Value {
    At(Get(p, "photos"), 0)
  }

  /** The id both branches make up when upstream gives none. */
  function GeneratedId(stamp: string): Value {
    Str("generated_" + stamp)
  }

  /** The coordinate branch's mapping of one merged place. `stamp` stands for
      the time-and-random suffix of a generated id and `toFixed1` for
      `Number.prototype.toFixed(1)`. */
  function NormalizePlace(p: Object, stamp: string, toFixed1: real -> string): (r: PlaceRecord)
    ensures CompleteRecord(r)
    ensures r.name == match MergeKey(p) case Some(k) => k case None => Str("Unknown Place")
    ensures Truthy(Get(p, "id")) ==> r.placeId == Get(p, "id")
    ensures !Truthy(Get(p, "id")) && Truthy(Get(p, "place_id")) ==> r.placeId == Get(p, "place_id")
    ensures !Truthy(Get(p, "id")) && !Truthy(Get(p, "place_id")) ==> r.placeId == GeneratedId(stamp)
    ensures Get(p, "rating").Num? ==> r.rating == toFixed1(Get(p, "rating").n)
    ensures !Get(p, "rating").Num? ==> r.rating == "N/A"
    ensures r.photo.Media? <==> Truthy(FirstPhoto(p))
    ensures r.photo.Media? ==> r.photo.reference == Member(FirstPhoto(p), "name")
    ensures r.photo.Placeholder? ==> r.photo.caption == r.name
    ensures r.openNow <==> Get(p, "businessStatus") == Str("OPERATIONAL")
  {
    var placeName := Or(Or(Member(Get(p, "displayName"), "text"), Get(p, "name")), Str("Unknown Place"));
    PlaceRecord(
      name := placeName,
      placeId := Or(Or(Get(p, "id"), Get(p, "place_id")), GeneratedId(stamp)),
      rating := if Get(p, "rating").Num? then toFixed1(Get(p, "rating").n) else "N/A",
      priceLevel := Or(Get(p, "priceLevel"), Str("N/A")),
      address := Or(Or(Get(p, "formattedAddress"), Get(p, "vicinity")), Str("Address not available")),
      photo := if Truthy(FirstPhoto(p)) then Media(Member(FirstPhoto(p), "name")) else Placeholder(placeName),
      placeType := Or(Member(Get(p, "primaryTypeDisplayName"), "text"), Str("")),
      description := Or(Member(Get(p, "editorialSummary"), "text"), Str("")),
      openNow := Get(p, "businessStatus") == Str("OPERATIONAL"),
      internationalPhoneNumber := Or(Get(p, "internationalPhoneNumber"), Str("")),
      websiteUri := Or(Get(p, "websiteUri"), Str(""))
    )
  }

  /** `.filter(place => place && (place.displayName?.text || place.name))`. */
  function Keyed(ps: seq<Object>): (r: seq<Object>)
    ensures |r| <= |ps|
    ensures forall p :: p in r <==> p in ps && MergeKey(p).Some?
    ensures (forall i :: 0 <= i < |ps| ==> MergeKey(ps[i]).Some?) ==> r == ps
  {
    if ps == [] then []
    else (if MergeKey(ps[0]).Some? then [ps[0]] else []) + Keyed(ps[1..])
  }

  /** The filter keeps order: filtering a concatenation filters each part. */
  lemma {:induction false} KeyedAppend(a: seq<Object>, b: seq<Object>)
    ensures Keyed(a + b) == Keyed(a) + Keyed(b)
  {
    if a != [] {
      assert (a + b)[0] == a[0] && (a + b)[1..] == a[1..] + b;
      KeyedAppend(a[1..], b);
      calc {
        Keyed(a + b);
        (if MergeKey(a[0]).Some? then [a[0]] else []) + Keyed(a[1..] + b);
        (if MergeKey(a[0]).Some? then [a[0]] else []) + (Keyed(a[1..]) + Keyed(b));
      }
    } else {
      assert a + b == b;
    }
  }

  /** The coordinate branch's `.filter(...).map(...)` over the merged places;
      `stamps(i)` is the generated-id suffix for the `i`-th record. */
  function NormalizeAll(merged: seq<Object>, stamps: nat -> string, toFixed1: real -> string): (r: seq<PlaceRecord>)
    ensures |r| == |Keyed(merged)|
    ensures forall i :: 0 <= i < |r| ==> r[i] == NormalizePlace(Keyed(merged)[i], stamps(i), toFixed1)
    ensures forall i :: 0 <= i < |r| ==> CompleteRecord(r[i])
  {
    var kept := Keyed(merged);
    seq(|kept|, i requires 0 <= i < |kept| => NormalizePlace(kept[i], stamps(i), toFixed1))
  }

  /** End to end: merging then normalizing gives one record per distinct merge
      key of `nearby ++ text`, in first-appearance order, named by that key;
      the filter drops nothing. */
  lemma OneRecordPerKey(nearby: seq<Object>, text: seq<Object>, stamps: nat -> string, toFixed1: real -> string)
    ensures var ks := KeyOrder(nearby + text);
            var rs := NormalizeAll(MergedSpec(nearby + text), stamps, toFixed1);
            && Keyed(MergedSpec(nearby + text)) == MergedSpec(nearby + text)
            && |rs| == |ks|
            && (forall i :: 0 <= i < |rs| ==> rs[i].name == ks[i])
            && (forall i, j :: 0 <= i < j < |rs| ==> rs[i].name != rs[j].name)
  {
    var ps := nearby + text;
    MergeProperties.OnePlacePerKey(ps);
    MergeProperties.KeyOrderDistinct(ps);
    var m := MergedSpec(ps);
    assert Keyed(m) == m;
  }

  /** The text branch's mapping of one upstream place. */
  function NormalizeTextPlace(p: Object, stamp: string): (r: TextRecord)
    ensures CompleteTextRecord(r)
    ensures r.name == if Truthy(Member(Get(p, "displayName"), "text")) then Member(Get(p, "displayName"), "text") else Str("Unknown Place")
    ensures r.placeId == if Truthy(Get(p, "id")) then Get(p, "id") else GeneratedId(stamp)
    ensures r.rating == if Truthy(Get(p, "rating")) then Get(p, "rating") else Str("N/A")
    ensures r.photo.Media? <==> Truthy(FirstPhoto(p))
    ensures r.photo.Media? ==> r.photo.reference == Member(FirstPhoto(p), "name")
    ensures r.photo.Placeholder? ==>
      r.photo.caption == if Truthy(Member(Get(p, "displayName"), "text")) then Member(Get(p, "displayName"), "text") else Str("No Image")
    ensures r.placeType == if Truthy(At(Get(p, "types"), 0)) then At(Get(p, "types"), 0) else Str("Restaurant")
  {
    var displayText := Member(Get(p, "displayName"), "text");
    TextRecord(
      name := Or(displayText, Str("Unknown Place")),
      placeId := Or(Get(p, "id"), GeneratedId(stamp)),
      rating := Or(Get(p, "rating"), Str("N/A")),
      priceLevel := Or(Get(p, "priceLevel"), Str("N/A")),
      address := Or(Get(p, "formattedAddress"), Str("Address not available")),
      photo := if Truthy(FirstPhoto(p)) then Media(Member(FirstPhoto(p), "name")) else Placeholder(Or(displayText, Str("No Image"))),
      placeType := Or(At(Get(p, "types"), 0), Str("Restaurant")),
      description := Or(Member(Get(p, "editorialSummary"), "text"), Str(""))
    )
  }

  /** The text branch's results: none when `places` is absent or empty,
      otherwise one record per upstream place, in order, with no merging. */
  function TextResults(places: Option<seq<Object>>, stamps: nat -> string): (r: seq<TextRecord>)
    ensures places.None? ==> r == []
    ensures places.Some? ==> |r| == |places.value|
    ensures places.Some? ==> forall i :: 0 <= i < |r| ==> r[i] == NormalizeTextPlace(places.value[i], stamps(i))
  {
    if places.None? || |places.value| == 0 then []
    else
      var ps := places.value;
      seq(|ps|, i requires 0 <= i < |ps| => NormalizeTextPlace(ps[i], stamps(i)))
  }

  /** `photos?.[0]` on an object reads its property "0". */
  lemma ObjectPhotos(stamp: string, toFixed1: real -> string)
    ensures var p := map["photos" := Obj(map["0" := Obj(map["name" := Str("x")])])];
            && NormalizePlace(p, stamp, toFixed1).photo == Media(Str("x"))
            && NormalizeTextPlace(p, stamp).photo == Media(Str("x"))
  {
    var p := map["photos" := Obj(map["0" := Obj(map["name" := Str("x")])])];
    assert IndexKey(0) == "0";
    assert FirstPhoto(p) == Obj(map["name" := Str("x")]);
  }

  /** `types?.[0]` on an object reads its property "0". */
  lemma ObjectTypes(stamp: string)
    ensures NormalizeTextPlace(map["types" := Obj(map["0" := Str("cafe")])], stamp).placeType == Str("cafe")
  {
    assert IndexKey(0) == "0";
  }

  /** A place with no fields at all still normalizes, to the defaults. */
  lemma EmptyPlaceDefaults(stamp: string, toFixed1: real -> string)
    ensures var r := NormalizePlace(map[], stamp, toFixed1);
            && r.name == Str("Unknown Place") && r.placeId == GeneratedId(stamp)
            && r.rating == "N/A" && r.priceLevel == Str("N/A")
            && r.address == Str("Address not available")
            && r.photo == Placeholder(Str("Unknown Place"))
            && r.placeType == Str("") && r.description == Str("") && !r.openNow
            && r.internationalPhoneNumber == Str("") && r.websiteUri == Str("")
  {
  }
}
