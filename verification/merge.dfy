/** The result merger of the coordinate search (server/server.js): nearby
    results and text results are concatenated, grouped by a merge key derived
    from the display name, and each group is folded into one raw place. */
module Merge {
  import opened JsValue

  /** The fields for which an earlier truthy value beats a later one. */
  const Whitelist: set<string> :=
    {"rating", "priceLevel", "formattedAddress", "photos", "editorialSummary",
     "primaryTypeDisplayName", "businessStatus"}

  /** `place.displayName?.text || place.name`, when that is truthy. */
  function MergeKey(p: Object): (r: Option<Value>)
    ensures r.Some? ==> Truthy(r.value)
    ensures r.None? <==> !Truthy(Member(Get(p, "displayName"), "text")) && !Truthy(Get(p, "name"))
    ensures Truthy(Member(Get(p, "displayName"), "text")) ==> r == Some(Member(Get(p, "displayName"), "text"))
    ensures !Truthy(Member(Get(p, "displayName"), "text")) && Truthy(Get(p, "name")) ==> r == Some(Get(p, "name"))
  {
    var k := Or(Member(Get(p, "displayName"), "text"), Get(p, "name"));
    if Truthy(k) then Some(k) else None
  }

  /** `{...existing, ...place, rating: existing.rating || place.rating, ...}`. */
  function MergeInto(existing: Object, place: Object): (r: Object)
    ensures r.Keys == existing.Keys + place.Keys + Whitelist
    ensures forall f :: f in Whitelist ==>
      r[f] == if Truthy(Get(existing, f)) then Get(existing, f) else Get(place, f)
    ensures forall f :: f !in Whitelist && f in place ==> r[f] == place[f]
    ensures forall f :: f !in Whitelist && f !in place && f in existing ==> r[f] == existing[f]
  {
    (existing + place) + map f | f in Whitelist :: Or(Get(existing, f), Get(place, f))
  }

  // ---------------------------------------------------------------------
  // Reference definition of the merge, independent of the JS Map.

  /** The distinct merge keys of `ps`, in the order of their first appearance. */
  function KeyOrder(ps: seq<Object>): seq<Value> {
    if ps == [] then []
    else
      var pre := KeyOrder(ps[..|ps| - 1]);
      match MergeKey(ps[|ps| - 1])
      case None => pre
      case Some(k) => if k in pre then pre else pre + [k]
  }

  /** The places of `ps` whose merge key is `k`, in input order. */
  function Group(ps: seq<Object>, k: Value): seq<Object> {
    if ps == [] then []
    else
      Group(ps[..|ps| - 1], k)
        + (if MergeKey(ps[|ps| - 1]) == Some(k) then [ps[|ps| - 1]] else [])
  }

  /** The value the map holds after the places of one group have been set in turn. */
  function Fold(g: seq<Object>): Object {
    if |g| == 0 then map[]
    else if |g| == 1 then g[0]
    else MergeInto(Fold(g[..|g| - 1]), g[|g| - 1])
  }

  /** What `Array.from(placeMap.values())` holds after the loop over `ps`. */
  function MergedSpec(ps: seq<Object>): seq<Object> {
    var ks := KeyOrder(ps);
    seq(|ks|, i requires 0 <= i < |ks| => Fold(Group(ps, ks[i])))
  }

  /** Distinctness of a sequence of keys. */
  ghost predicate Distinct(ks: seq<Value>) {
    forall i, j :: 0 <= i < j < |ks| ==> ks[i] != ks[j]
  }

  // ---------------------------------------------------------------------
  // The insertion-ordered JS `Map` the loop mutates.

  class PlaceMap {
    var keys: seq<Value>
    var entries: map<Value, Object>

    ghost predicate Valid()
      reads this
    {
      Distinct(keys) && (forall k :: k in entries <==> k in keys)
    }

    /** `new Map()`. */
    constructor ()
      ensures Valid() && keys == [] && entries == map[]
    {
      keys := [];
      entries := map[];
    }

    /** `placeMap.get(k)`. */
    function Lookup(k: Value): (r: Option<Object>)
      reads this
      ensures r.Some? <==> k in entries
      ensures r.Some? ==> r.value == entries[k]
    {
      if k in entries then Some(entries[k]) else None
    }

    /** `placeMap.set(k, v)`: a new key goes last, an existing key keeps its place. */
    method Set(k: Value, v: Object)
      requires Valid()
      modifies this
      ensures Valid()
      ensures entries == old(entries)[k := v]
      ensures keys == if k in old(entries) then old(keys) else old(keys) + [k]
    {
      if k !in entries {
        keys := keys + [k];
      }
      entries := entries[k := v];
    }

    /** `Array.from(placeMap.values())`. */
    function Values(): (r: seq<Object>)
      reads this
      requires Valid()
      ensures |r| == |keys|
      ensures forall i :: 0 <= i < |keys| ==> r[i] == entries[keys[i]]
    {
      ValuesAt(keys, entries)
    }
  }

  function ValuesAt(ks: seq<Value>, es: map<Value, Object>): (r: seq<Object>)
    requires forall k :: k in ks ==> k in es
    ensures |r| == |ks|
    ensures forall i :: 0 <= i < |ks| ==> r[i] == es[ks[i]]
  {
    if ks == [] then [] else [es[ks[0]]] + ValuesAt(ks[1..], es)
  }

  // ---------------------------------------------------------------------
  // The loop itself.

  /** The `allPlaces.forEach` loop and the read-out of the map's values. */
  method MergePlaces(nearby: seq<Object>, text: seq<Object>) returns (merged: seq<Object>)
    ensures merged == MergedSpec(nearby + text)
  {
    var all := nearby + text;
    var placeMap := new PlaceMap();
    var i := 0;
    while i < |all|
      invariant 0 <= i <= |all|
      invariant placeMap.Valid()
      invariant placeMap.keys == KeyOrder(all[..i])
      invariant placeMap.entries == Entries(all[..i])
    {
      assert all[..i + 1] == all[..i] + [all[i]];
      EntriesSnoc(all[..i], all[i], all[..i + 1]);
      KeyOrderSnoc(all[..i], all[i]);
      AddPlace(placeMap, all[i]);
      i := i + 1;
    }
    assert all[..i] == all;
    merged := placeMap.Values();
    EntriesFold(all);
    ValuesAreMerged(all, merged);
  }

  /** The `forEach` callback: a keyless place is skipped, a new key is
      stored as is, a known key is merged into what is stored. */
  method AddPlace(placeMap: PlaceMap, place: Object)
    requires placeMap.Valid()
    modifies placeMap
    ensures placeMap.Valid()
    ensures placeMap.entries == Step(old(placeMap.entries), place)
    ensures placeMap.keys == match MergeKey(place)
      case None => old(placeMap.keys)
      case Some(k) => if k in old(placeMap.keys) then old(placeMap.keys) else old(placeMap.keys) + [k]
  {
    var key := MergeKey(place);
    if key.Some? {
      var existing := placeMap.Lookup(key.value);
      if existing.Some? {
        placeMap.Set(key.value, MergeInto(existing.value, place));
      } else {
        placeMap.Set(key.value, place);
      }
    }
  }

  /** The entries after one iteration of the loop body. */
  function Step(es: map<Value, Object>, place: Object): map<Value, Object> {
    match MergeKey(place)
    case None => es
    case Some(k) => es[k := if k in es then MergeInto(es[k], place) else place]
  }

  /** The map's entries after the loop has run over `ps`. */
  function Entries(ps: seq<Object>): map<Value, Object> {
    if ps == [] then map[] else Step(Entries(ps[..|ps| - 1]), ps[|ps| - 1])
  }

  lemma EntriesSnoc(pre: seq<Object>, place: Object, ps: seq<Object>)
    requires ps == pre + [place]
    ensures Entries(ps) == Step(Entries(pre), place)
  {
    assert ps[..|ps| - 1] == pre;
  }

  /** The entries hold, for each key met so far, the fold of that key's places. */
  lemma {:induction false} EntriesFold(ps: seq<Object>)
    ensures forall k :: k in Entries(ps) <==> k in KeyOrder(ps)
    ensures forall k :: k in Entries(ps) ==> Entries(ps)[k] == Fold(Group(ps, k))
  {
    if ps != [] {
      var pre := ps[..|ps| - 1];
      var place := ps[|ps| - 1];
      assert ps == pre + [place];
      EntriesFold(pre);
      EntriesSnoc(pre, place, ps);
      KeyOrderSnoc(pre, place);
      StepKeepsFolds(pre, place, ps, Entries(pre));
    }
  }

  lemma ValuesAreMerged(ps: seq<Object>, r: seq<Object>)
    requires forall k :: k in Entries(ps) <==> k in KeyOrder(ps)
    requires forall k :: k in Entries(ps) ==> Entries(ps)[k] == Fold(Group(ps, k))
    requires |r| == |KeyOrder(ps)|
    requires forall i :: 0 <= i < |r| ==> r[i] == Entries(ps)[KeyOrder(ps)[i]]
    ensures r == MergedSpec(ps)
  {
  }

  lemma KeyOrderSnoc(ps: seq<Object>, p: Object)
    ensures KeyOrder(ps + [p]) ==
      match MergeKey(p)
      case None => KeyOrder(ps)
      case Some(k) => if k in KeyOrder(ps) then KeyOrder(ps) else KeyOrder(ps) + [k]
  {
    assert (ps + [p])[..|ps|] == ps;
  }

  lemma GroupSnoc(ps: seq<Object>, p: Object, k: Value)
    ensures Group(ps + [p], k) == Group(ps, k) + (if MergeKey(p) == Some(k) then [p] else [])
  {
    assert (ps + [p])[..|ps|] == ps;
  }

  lemma FoldSnoc(g: seq<Object>, p: Object)
    ensures Fold(g + [p]) == if g == [] then p else MergeInto(Fold(g), p)
  {
    assert (g + [p])[..|g|] == g;
  }

  lemma StepKeepsFolds(pre: seq<Object>, place: Object, ps: seq<Object>, es: map<Value, Object>)
    requires ps == pre + [place]
    requires forall k :: k in es <==> k in KeyOrder(pre)
    requires forall k :: k in es ==> es[k] == Fold(Group(pre, k))
    ensures forall k :: k in Step(es, place) ==> Step(es, place)[k] == Fold(Group(ps, k))
  {
    forall k | k in Step(es, place)
      ensures Step(es, place)[k] == Fold(Group(ps, k))
    {
      GroupSnoc(pre, place, k);
      if MergeKey(place) == Some(k) {
        GroupNonEmpty(pre, k);
        FoldSnoc(Group(pre, k), place);
      } else {
        assert Group(pre + [place], k) == Group(pre, k);
      }
    }
  }

  /** A key is in the key order exactly when its group is non-empty. */
  lemma {:induction false} GroupNonEmpty(ps: seq<Object>, k: Value)
    ensures k in KeyOrder(ps) <==> Group(ps, k) != []
  {
    if ps != [] {
      GroupNonEmpty(ps[..|ps| - 1], k);
    }
  }
}
