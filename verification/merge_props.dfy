/** What the merge of server/server.js guarantees, stated about its reference
    definition `Merge.MergedSpec` (which `Merge.MergePlaces` is proved to compute). */
module MergeProperties {
  import opened JsValue
  import opened Merge

  // ---------------------------------------------------------------------
  // Keys: each key of the input exactly once, in first-appearance order.

  /** No key is listed twice. */
  lemma {:induction false} KeyOrderDistinct(ps: seq<Object>)
    ensures Distinct(KeyOrder(ps))
  {
    if ps != [] {
      KeyOrderDistinct(ps[..|ps| - 1]);
    }
  }

  /** A key is listed exactly when some input place carries it. */
  lemma {:induction false} KeyOrderMembers(ps: seq<Object>, k: Value)
    ensures k in KeyOrder(ps) <==> exists t :: 0 <= t < |ps| && MergeKey(ps[t]) == Some(k)
  {
    if ps != [] {
      var pre := ps[..|ps| - 1];
      KeyOrderMembers(pre, k);
      if exists t :: 0 <= t < |pre| && MergeKey(pre[t]) == Some(k) {
        var t :| 0 <= t < |pre| && MergeKey(pre[t]) == Some(k);
        assert MergeKey(ps[t]) == Some(k);
      }
      if exists t :: 0 <= t < |ps| && MergeKey(ps[t]) == Some(k) {
        var t :| 0 <= t < |ps| && MergeKey(ps[t]) == Some(k);
        if t < |pre| {
          assert MergeKey(pre[t]) == Some(k);
        }
      }
    }
  }

  /** Output order is first-appearance order: the key listed at `a` occurs in
      the input before any occurrence of a key listed after it. */
  lemma {:induction false} KeyOrderByFirstAppearance(ps: seq<Object>, a: nat, b: nat, t: nat)
    requires a < b < |KeyOrder(ps)|
    requires t < |ps| && MergeKey(ps[t]) == Some(KeyOrder(ps)[b])
    ensures exists s :: 0 <= s < t && MergeKey(ps[s]) == Some(KeyOrder(ps)[a])
  {
    var n := |ps|;
    var pre := ps[..n - 1];
    var kp := KeyOrder(pre);
    var ks := KeyOrder(ps);
    KeyOrderSnoc(pre, ps[n - 1]);
    assert ps == pre + [ps[n - 1]];
    assert ks[..|kp|] == kp;
    if b < |kp| {
      if t < n - 1 {
        assert MergeKey(pre[t]) == Some(kp[b]);
        KeyOrderByFirstAppearance(pre, a, b, t);
        var s :| 0 <= s < t && MergeKey(pre[s]) == Some(kp[a]);
        assert MergeKey(ps[s]) == Some(ks[a]);
      } else {
        assert kp[b] in kp;
        KeyOrderMembers(pre, kp[b]);
        var t' :| 0 <= t' < |pre| && MergeKey(pre[t']) == Some(kp[b]);
        KeyOrderByFirstAppearance(pre, a, b, t');
        var s :| 0 <= s < t' && MergeKey(pre[s]) == Some(kp[a]);
        assert MergeKey(ps[s]) == Some(ks[a]);
      }
    } else {
      // ks[b] is the key of the last place, new to `pre`
      assert ks[b] !in kp;
      KeyOrderMembers(pre, ks[b]);
      assert t == n - 1;
      assert kp[a] in kp;
      KeyOrderMembers(pre, kp[a]);
      var s :| 0 <= s < |pre| && MergeKey(pre[s]) == Some(kp[a]);
      assert MergeKey(ps[s]) == Some(ks[a]);
    }
  }

  /** A place without a merge key changes nothing, wherever it stands. */
  lemma {:induction false} KeylessPlaceDropped(a: seq<Object>, p: Object, b: seq<Object>)
    requires MergeKey(p).None?
    ensures MergedSpec(a + [p] + b) == MergedSpec(a + b)
  {
    KeylessPlaceIgnored(a, p, b);
  }

  lemma {:induction false} KeylessPlaceIgnored(a: seq<Object>, p: Object, b: seq<Object>)
    requires MergeKey(p).None?
    ensures KeyOrder(a + [p] + b) == KeyOrder(a + b)
    ensures forall k :: Group(a + [p] + b, k) == Group(a + b, k)
  {
    if b == [] {
      assert a + [p] + b == a + [p];
      assert a + b == a;
      KeyOrderSnoc(a, p);
      forall k ensures Group(a + [p] + b, k) == Group(a + b, k) {
        GroupSnoc(a, p, k);
      }
    } else {
      var b' := b[..|b| - 1];
      var q := b[|b| - 1];
      KeylessPlaceIgnored(a, p, b');
      assert a + [p] + b == (a + [p] + b') + [q];
      assert a + b == (a + b') + [q];
      KeyOrderSnoc(a + [p] + b', q);
      KeyOrderSnoc(a + b', q);
      forall k ensures Group(a + [p] + b, k) == Group(a + b, k) {
        GroupSnoc(a + [p] + b', q, k);
        GroupSnoc(a + b', q, k);
      }
    }
  }

  // ---------------------------------------------------------------------
  // One merged place per key, carrying that key.

  lemma {:induction false} GroupCarriesKey(ps: seq<Object>, k: Value)
    ensures forall i :: 0 <= i < |Group(ps, k)| ==> MergeKey(Group(ps, k)[i]) == Some(k)
  {
    if ps != [] {
      GroupCarriesKey(ps[..|ps| - 1], k);
    }
  }

  /** Merging two places that share a key keeps the key. */
  lemma MergeIntoKeepsKey(existing: Object, place: Object, k: Value)
    requires MergeKey(existing) == Some(k) && MergeKey(place) == Some(k)
    ensures MergeKey(MergeInto(existing, place)) == Some(k)
  {
    var r := MergeInto(existing, place);
    assert "displayName" !in Whitelist && "name" !in Whitelist;
    if "displayName" !in place {
      assert Get(r, "displayName") == Get(existing, "displayName");
    } else {
      assert Get(r, "displayName") == Get(place, "displayName");
    }
    if "name" !in place {
      assert Get(r, "name") == Get(existing, "name");
    } else {
      assert Get(r, "name") == Get(place, "name");
    }
  }

  lemma {:induction false} FoldKeepsKey(g: seq<Object>, k: Value)
    requires g != []
    requires forall i :: 0 <= i < |g| ==> MergeKey(g[i]) == Some(k)
    ensures MergeKey(Fold(g)) == Some(k)
  {
    if |g| > 1 {
      FoldKeepsKey(g[..|g| - 1], k);
      MergeIntoKeepsKey(Fold(g[..|g| - 1]), g[|g| - 1], k);
    }
  }

  /** The merged list has one place per distinct key, and the place at
      position `i` carries the `i`-th key of the input. */
  lemma OnePlacePerKey(ps: seq<Object>)
    ensures |MergedSpec(ps)| == |KeyOrder(ps)|
    ensures forall i :: 0 <= i < |MergedSpec(ps)| ==> MergeKey(MergedSpec(ps)[i]) == Some(KeyOrder(ps)[i])
    ensures forall i, j :: 0 <= i < j < |MergedSpec(ps)| ==>
      MergeKey(MergedSpec(ps)[i]) != MergeKey(MergedSpec(ps)[j])
  {
    var ks := KeyOrder(ps);
    KeyOrderDistinct(ps);
    forall i | 0 <= i < |ks|
      ensures MergeKey(MergedSpec(ps)[i]) == Some(ks[i])
    {
      GroupNonEmpty(ps, ks[i]);
      GroupCarriesKey(ps, ks[i]);
      FoldKeepsKey(Group(ps, ks[i]), ks[i]);
    }
  }

  // ---------------------------------------------------------------------
  // Field precedence inside one group.

  /** A whitelisted field that no place of the group has truthy ends up as the last place's value. */
  lemma {:induction false} WhitelistNoneTruthy(g: seq<Object>, f: string)
    requires f in Whitelist && g != []
    requires forall i :: 0 <= i < |g| ==> !Truthy(Get(g[i], f))
    ensures Get(Fold(g), f) == Get(g[|g| - 1], f)
  {
    if |g| > 1 {
      WhitelistNoneTruthy(g[..|g| - 1], f);
    }
  }

  /** For a whitelisted field the first truthy value in the group wins. */
  lemma {:induction false} WhitelistFirstTruthyWins(g: seq<Object>, f: string, j: nat)
    requires f in Whitelist && j < |g|
    requires Truthy(Get(g[j], f))
    requires forall i :: 0 <= i < j ==> !Truthy(Get(g[i], f))
    ensures Get(Fold(g), f) == Get(g[j], f)
  {
    if |g| > 1 {
      var pre := g[..|g| - 1];
      assert Fold(g) == MergeInto(Fold(pre), g[|g| - 1]);
      if j < |g| - 1 {
        WhitelistFirstTruthyWins(pre, f, j);
        assert pre[j] == g[j];
      } else {
        WhitelistNoneTruthy(pre, f);
      }
    }
  }

  /** Any other field takes the value of the last place of the group that has it. */
  lemma {:induction false} OtherFieldLastWriterWins(g: seq<Object>, f: string, j: nat)
    requires f !in Whitelist && j < |g| && f in g[j]
    requires forall i :: j < i < |g| ==> f !in g[i]
    ensures f in Fold(g) && Fold(g)[f] == g[j][f]
  {
    if |g| > 1 {
      var pre := g[..|g| - 1];
      if j < |g| - 1 {
        OtherFieldLastWriterWins(pre, f, j);
      }
    }
  }

  /** A non-whitelisted field that no place of the group has is absent from the merge. */
  lemma {:induction false} OtherFieldNeverWritten(g: seq<Object>, f: string)
    requires f !in Whitelist
    requires forall i :: 0 <= i < |g| ==> f !in g[i]
    ensures f !in Fold(g)
  {
    if |g| > 1 {
      OtherFieldNeverWritten(g[..|g| - 1], f);
    }
  }

  // ---------------------------------------------------------------------
  // A worked instance: the same cafe from both searches.

  /** Nearby `{name: "Cafe A", rating: 4.2}` and text
      `{name: "Cafe A", priceLevel: "PRICE_LEVEL_MODERATE"}` merge into one
      place with the name, the rating and the price tier. */
  lemma SameCafeFromBothSearches()
    ensures var nearby := map["name" := Str("Cafe A"), "rating" := Num(4.2)];
            var text := map["name" := Str("Cafe A"), "priceLevel" := Str("PRICE_LEVEL_MODERATE")];
            var m := MergedSpec([nearby] + [text]);
            |m| == 1 && Get(m[0], "name") == Str("Cafe A") && Get(m[0], "rating") == Num(4.2)
            && Get(m[0], "priceLevel") == Str("PRICE_LEVEL_MODERATE")
  {
    var nearby := map["name" := Str("Cafe A"), "rating" := Num(4.2)];
    var text := map["name" := Str("Cafe A"), "priceLevel" := Str("PRICE_LEVEL_MODERATE")];
    var ps := [nearby] + [text];
    assert MergeKey(nearby) == Some(Str("Cafe A"));
    assert MergeKey(text) == Some(Str("Cafe A"));
    KeyOrderSnoc([nearby], text);
    KeyOrderSnoc([], nearby);
    assert [] + [nearby] == [nearby];
    assert KeyOrder(ps) == [Str("Cafe A")];
    GroupSnoc([nearby], text, Str("Cafe A"));
    GroupSnoc([], nearby, Str("Cafe A"));
    assert Group(ps, Str("Cafe A")) == [nearby, text];
    FoldSnoc([nearby], text);
    assert Fold([nearby, text]) == MergeInto(nearby, text);
  }
}
