/** The `GET /api/search-cafes` handler of server/server.js: it checks the
    query parameters, picks the coordinate branch or the text branch, asks the
    places API and answers with normalized records or an error. The places
    API is a parameter: `answer` gives its reply to each request. */
module Gateway {
  import opened JsValue
  import opened Merge
  import opened Normalize

  /** `req.query`; the empty string stands for a parameter that is absent or
      empty (both are falsy in `lat && lng` and in `query`). */
  datatype SearchParams = SearchParams(lat: string, lng: string, query: string)

  /** What the handler decides to do before it calls anything. */
  datatype Plan =
    | Reject(error: string, details: string)
    | ByCoordinates(lat: string, lng: string)
    | ByText(query: string)

  /** A request to the places API. */
  datatype UpstreamRequest =
    | SearchNearby(lat: string, lng: string, includedTypes: seq<string>, maxResultCount: nat, radius: real)
    | SearchText(textQuery: string, maxResultCount: nat, languageCode: string)

  /** The places API's reply: its `places` list (absent or falsy is `None`),
      or a transport or parse failure with its message. */
  datatype Upstream = Answered(places: Option<seq<Object>>) | Failed(message: string)

  /** The handler's response. */
  datatype Response =
    | NearbyOk(results: seq<PlaceRecord>)
    | TextOk(textResults: seq<TextRecord>)
    | ClientError(error: string, details: string)
    | ServerError(details: string)

  function StatusCode(r: Response): int {
    match r
    case ClientError(_, _) => 400
    case ServerError(_) => 500
    case _ => 200
  }

  /** The if/else chain: coordinates when both are given (and then they must
      be numbers), else a text query, else a client error. `isNaN` stands for
      the global `isNaN` applied to a parameter string. */
  function Route(q: SearchParams, isNaN: string -> bool): (r: Plan)
    ensures r.ByCoordinates? <==> q.lat != "" && q.lng != "" && !isNaN(q.lat) && !isNaN(q.lng)
    ensures r.ByCoordinates? ==> r.lat == q.lat && r.lng == q.lng
    ensures r.ByText? <==> (q.lat == "" || q.lng == "") && q.query != ""
    ensures r.ByText? ==> r.query == q.query
    ensures r.Reject? && q.lat != "" && q.lng != "" ==> r.error == "Invalid coordinates"
    ensures r.Reject? && (q.lat == "" || q.lng == "") ==> q.query == "" && r.error == "Invalid search parameters"
  {
    if q.lat != "" && q.lng != "" then
      if isNaN(q.lat) || isNaN(q.lng) then
        Reject("Invalid coordinates", "Latitude and longitude must be valid numbers")
      else
        ByCoordinates(q.lat, q.lng)
    else if q.query != "" then
      ByText(q.query)
    else
      Reject("Invalid search parameters", "Please provide either coordinates (lat, lng) or a location query")
  }

  /** The requests a plan sends to the places API, in the order they are built. */
  function UpstreamCalls(plan: Plan): (r: seq<UpstreamRequest>)
    ensures plan.Reject? <==> r == []
    ensures plan.ByCoordinates? ==> |r| == 2
    ensures plan.ByCoordinates? ==>
      r[0] == SearchNearby(plan.lat, plan.lng, ["cafe", "restaurant"], 10, 1500.0)
    ensures plan.ByCoordinates? ==>
      r[1] == SearchText("cafes and restaurants near " + plan.lat + "," + plan.lng, 10, "")
    ensures plan.ByText? ==> r == [SearchText("restaurants and cafes in " + plan.query, 20, "en")]
  {
    match plan
    case Reject(_, _) => []
    case ByCoordinates(lat, lng) =>
      [SearchNearby(lat, lng, ["cafe", "restaurant"], 10, 1500.0),
       SearchText("cafes and restaurants near " + lat + "," + lng, 10, "")]
    case ByText(query) =>
      [SearchText("restaurants and cafes in " + query, 20, "en")]
  }

  /** `x.places || []`. */
  function PlacesOf(places: Option<seq<Object>>): seq<Object> {
    match places
    case None => []
    case Some(ps) => ps
  }

  /** The whole handler. `stamps` and `toFixed1` are as for `NormalizeAll`. */
  function Respond(q: SearchParams, isNaN: string -> bool, answer: UpstreamRequest -> Upstream,
                   stamps: nat -> string, toFixed1: real -> string): (r: Response)
    ensures StatusCode(r) == 400 <==> Route(q, isNaN).Reject?
    ensures r.NearbyOk? ==> Route(q, isNaN).ByCoordinates?
    ensures r.TextOk? ==> Route(q, isNaN).ByText?
    ensures r.ServerError? <==> exists c :: c in UpstreamCalls(Route(q, isNaN)) && answer(c).Failed?
    ensures Route(q, isNaN).ByText? && !answer(UpstreamCalls(Route(q, isNaN))[0]).Failed? ==>
      r == TextOk(TextResults(answer(UpstreamCalls(Route(q, isNaN))[0]).places, stamps))
    ensures Route(q, isNaN).ByCoordinates?
            && !answer(UpstreamCalls(Route(q, isNaN))[0]).Failed?
            && !answer(UpstreamCalls(Route(q, isNaN))[1]).Failed? ==>
      r == NearbyOk(NormalizeAll(MergedSpec(PlacesOf(answer(UpstreamCalls(Route(q, isNaN))[0]).places)
                                            + PlacesOf(answer(UpstreamCalls(Route(q, isNaN))[1]).places)),
                                 stamps, toFixed1))
  {
    var plan := Route(q, isNaN);
    var calls := UpstreamCalls(plan);
    match plan
    case Reject(error, details) => ClientError(error, details)
    case ByCoordinates(_, _) =>
      var nearby := answer(calls[0]);
      var text := answer(calls[1]);
      if nearby.Failed? then ServerError(nearby.message)
      else if text.Failed? then ServerError(text.message)
      else
        var merged := MergedSpec(PlacesOf(nearby.places) + PlacesOf(text.places));
        NearbyOk(NormalizeAll(merged, stamps, toFixed1))
    case ByText(_) =>
      var data := answer(calls[0]);
      if data.Failed? then ServerError(data.message)
      else TextOk(TextResults(data.places, stamps))
  }

  // ---------------------------------------------------------------------
  // Properties of the handler.

  /** The response depends on the places API only through the requests the
      plan makes; in particular a rejected request makes none, so its
      response is the same whatever the API would have said. */
  lemma OnlyPlannedCallsMatter(q: SearchParams, isNaN: string -> bool,
                               answer1: UpstreamRequest -> Upstream, answer2: UpstreamRequest -> Upstream,
                               stamps: nat -> string, toFixed1: real -> string)
    requires forall c :: c in UpstreamCalls(Route(q, isNaN)) ==> answer1(c) == answer2(c)
    ensures Respond(q, isNaN, answer1, stamps, toFixed1) == Respond(q, isNaN, answer2, stamps, toFixed1)
  {
    var calls := UpstreamCalls(Route(q, isNaN));
    if |calls| > 0 {
      assert calls[0] in calls;
    }
    if |calls| > 1 {
      assert calls[1] in calls;
    }
  }

  /** Non-numeric coordinates are refused with a 400 and no upstream request. */
  lemma InvalidCoordinatesRefused(q: SearchParams, isNaN: string -> bool, answer: UpstreamRequest -> Upstream,
                                  stamps: nat -> string, toFixed1: real -> string)
    requires q.lat != "" && q.lng != "" && (isNaN(q.lat) || isNaN(q.lng))
    ensures UpstreamCalls(Route(q, isNaN)) == []
    ensures Respond(q, isNaN, answer, stamps, toFixed1) ==
      ClientError("Invalid coordinates", "Latitude and longitude must be valid numbers")
  {
  }

  /** Without both coordinates and without a query the request is refused
      with a 400 and no upstream request. */
  lemma MissingParametersRefused(q: SearchParams, isNaN: string -> bool, answer: UpstreamRequest -> Upstream,
                                 stamps: nat -> string, toFixed1: real -> string)
    requires (q.lat == "" || q.lng == "") && q.query == ""
    ensures UpstreamCalls(Route(q, isNaN)) == []
    ensures var r := Respond(q, isNaN, answer, stamps, toFixed1);
            r == ClientError("Invalid search parameters",
                             "Please provide either coordinates (lat, lng) or a location query")
            && StatusCode(r) == 400
  {
  }

  /** With both coordinates valid the coordinate branch runs, whatever `query` says. */
  lemma CoordinatesTakePriority(q: SearchParams, isNaN: string -> bool, answer: UpstreamRequest -> Upstream,
                                stamps: nat -> string, toFixed1: real -> string)
    requires q.lat != "" && q.lng != "" && !isNaN(q.lat) && !isNaN(q.lng)
    ensures var r := Respond(q, isNaN, answer, stamps, toFixed1);
            r.NearbyOk? || r.ServerError?
    ensures Respond(q, isNaN, answer, stamps, toFixed1) ==
      Respond(q.(query := ""), isNaN, answer, stamps, toFixed1)
  {
  }

  /** An empty or absent `places` list in the text branch is a success with no results. */
  lemma EmptyTextSearch(q: SearchParams, isNaN: string -> bool, answer: UpstreamRequest -> Upstream,
                        stamps: nat -> string, toFixed1: real -> string)
    requires Route(q, isNaN).ByText?
    requires var a := answer(UpstreamCalls(Route(q, isNaN))[0]);
             a == Answered(None) || a == Answered(Some([]))
    ensures Respond(q, isNaN, answer, stamps, toFixed1) == TextOk([])
  {
  }

  /** A text search that succeeds answers one record per upstream place, in
      order, each the text normalization of that place. */
  lemma TextSearchResults(q: SearchParams, isNaN: string -> bool, answer: UpstreamRequest -> Upstream,
                          stamps: nat -> string, toFixed1: real -> string, ps: seq<Object>)
    requires Route(q, isNaN).ByText?
    requires answer(SearchText("restaurants and cafes in " + q.query, 20, "en")) == Answered(Some(ps))
    ensures var r := Respond(q, isNaN, answer, stamps, toFixed1);
            && r.TextOk? && StatusCode(r) == 200
            && |r.textResults| == |ps|
            && forall i :: 0 <= i < |ps| ==> r.textResults[i] == NormalizeTextPlace(ps[i], stamps(i))
  {
  }

  /** When both coordinate-branch requests succeed, the handler answers with
      one record per distinct merge key of nearby-then-text results, in
      first-appearance order, with distinct names. */
  lemma CoordinateResultsOnePerKey(q: SearchParams, isNaN: string -> bool, answer: UpstreamRequest -> Upstream,
                                   stamps: nat -> string, toFixed1: real -> string)
    requires Route(q, isNaN).ByCoordinates?
    requires !answer(UpstreamCalls(Route(q, isNaN))[0]).Failed?
    requires !answer(UpstreamCalls(Route(q, isNaN))[1]).Failed?
    ensures Respond(q, isNaN, answer, stamps, toFixed1).NearbyOk?
    ensures var calls := UpstreamCalls(Route(q, isNaN));
            var all := PlacesOf(answer(calls[0]).places) + PlacesOf(answer(calls[1]).places);
            var rs := Respond(q, isNaN, answer, stamps, toFixed1).results;
            && |rs| == |KeyOrder(all)|
            && (forall i :: 0 <= i < |rs| ==> rs[i].name == KeyOrder(all)[i] && CompleteRecord(rs[i]))
            && (forall i, j :: 0 <= i < j < |rs| ==> rs[i].name != rs[j].name)
  {
    var calls := UpstreamCalls(Route(q, isNaN));
    OneRecordPerKey(PlacesOf(answer(calls[0]).places), PlacesOf(answer(calls[1]).places), stamps, toFixed1);
  }
}
