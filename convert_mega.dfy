/** The offline converter convert_mega.py: it merges the `cache` and
    `meta_store` sections of a legacy save into the combo and item caches.
    Its `_normalize_key` is the game's key (`Keys.NormalizeKey`). Each merge
    is a loop over the section's entries in dict order; the functions named
    `...UpTo` give the state after the first i entries. */
module ConvertMega {
  import opened Util
  import opened JsonValue
  import opened Keys

  /** `_parse_combo_key`. `eval` stands for `ast.literal_eval`: None when it
      raises, a JArr for a tuple or a list. */
  function ParseComboKey(raw: string, eval: string -> Option<Json>): (r: (string, string))
    ensures eval(raw).None? ==> r == ("", "")
    ensures r.0 != "" || r.1 != "" ==> eval(raw) == Some(JArr([JStr(r.0), JStr(r.1)]))
  {
    match eval(raw)
    case Some(JArr(xs)) =>
      if |xs| == 2 && xs[0].JStr? && xs[1].JStr? then
        assert xs == [JStr(xs[0].s), JStr(xs[1].s)];
        (xs[0].s, xs[1].s)
      else ("", "")
    case _ => ("", "")
  }

  /** A literal pair of strings is read back as that pair. */
  lemma ParsePairOfStrings(raw: string, eval: string -> Option<Json>, a: string, b: string)
    requires eval(raw) == Some(JArr([JStr(a), JStr(b)]))
    ensures ParseComboKey(raw, eval) == (a, b)
  {
  }

  datatype CombosMerged = CombosMerged(cache: map<string, Json>, newCombos: nat)

  /** One iteration of `_merge_combos`, lines 56-76. */
  function ComboStep(m: CombosMerged, raw: string, result: Json, eval: string -> Option<Json>): CombosMerged
  {
    if !result.JStr? then m
    else
      var (item1, item2) := ParseComboKey(raw, eval);
      if item1 == "" && item2 == "" then m
      else
        var key := NormalizeKey(Some(item1), Some(item2));
        var existing := Get(m.cache, key);
        if Truthy(existing) && existing != result then m
        else CombosMerged(m.cache[key := result], if Truthy(existing) then m.newCombos else m.newCombos + 1)
  }

  function MergeCombosUpTo(combocache: map<string, Json>, entries: seq<(string, Json)>, i: nat, eval: string -> Option<Json>): CombosMerged
    requires i <= |entries|
  {
    if i == 0 then CombosMerged(combocache, 0)
    else ComboStep(MergeCombosUpTo(combocache, entries, i - 1, eval), entries[i - 1].0, entries[i - 1].1, eval)
  }

  /** `_merge_combos`: returns the merged cache and the number of new combos. */
  method MergeCombos(cacheData: seq<(string, Json)>, combocache: map<string, Json>, eval: string -> Option<Json>)
    returns (merged: map<string, Json>, newCombos: nat)
    ensures CombosMerged(merged, newCombos) == MergeCombosUpTo(combocache, cacheData, |cacheData|, eval)
  {
    merged, newCombos := combocache, 0;
    var i := 0;
    while i < |cacheData|
      invariant 0 <= i <= |cacheData|
      invariant CombosMerged(merged, newCombos) == MergeCombosUpTo(combocache, cacheData, i, eval)
    {
      var (rawKey, result) := cacheData[i];
      if result.JStr? {
        var (item1, item2) := ParseComboKey(rawKey, eval);
        if item1 != "" || item2 != "" {
          var key := NormalizeKey(Some(item1), Some(item2));
          var existing := Get(merged, key);
          if !(Truthy(existing) && existing != result) {
            if !Truthy(existing) {
              newCombos := newCombos + 1;
            }
            merged := merged[key := result];
          }
        }
      }
      i := i + 1;
    }
  }

  /** Entries whose result is not a string, and keys that do not parse to a
      pair, are skipped; a conflicting entry leaves the existing result. */
  lemma ComboStepSkips(m: CombosMerged, raw: string, result: Json, eval: string -> Option<Json>)
    ensures !result.JStr? ==> ComboStep(m, raw, result, eval) == m
    ensures eval(raw).None? ==> ComboStep(m, raw, result, eval) == m
    ensures var (a, b) := ParseComboKey(raw, eval);
      var existing := Get(m.cache, NormalizeKey(Some(a), Some(b)));
      Truthy(existing) && existing != result ==> ComboStep(m, raw, result, eval) == m
  {
  }

  /** A stored entry that is truthy is never replaced by a different one. */
  lemma ComboStepKeepsTruthy(m: CombosMerged, raw: string, result: Json, eval: string -> Option<Json>, k: string)
    requires k in m.cache && Truthy(m.cache[k])
    ensures var r := ComboStep(m, raw, result, eval).cache; k in r && r[k] == m.cache[k]
  {
  }

  /** First valid wins: every truthy result already in the combo cache
      survives the whole merge unchanged. */
  lemma {:induction false} MergeKeepsTruthy(combocache: map<string, Json>, entries: seq<(string, Json)>, i: nat,
                                            eval: string -> Option<Json>, k: string)
    requires i <= |entries|
    requires k in combocache && Truthy(combocache[k])
    ensures var r := MergeCombosUpTo(combocache, entries, i, eval).cache; k in r && r[k] == combocache[k]
  {
    if i > 0 {
      MergeKeepsTruthy(combocache, entries, i - 1, eval, k);
      ComboStepKeepsTruthy(MergeCombosUpTo(combocache, entries, i - 1, eval), entries[i - 1].0, entries[i - 1].1, eval, k);
    }
  }

  /** The keys that hold a truthy result after, but did not before. */
  function NewKeys(before: map<string, Json>, after: map<string, Json>): set<string>
  {
    set k | k in after && Truthy(after[k]) && !(k in before && Truthy(before[k]))
  }

  predicate NonEmptyResults(entries: seq<(string, Json)>)
  {
    forall j :: 0 <= j < |entries| && entries[j].1.JStr? ==> entries[j].1.s != ""
  }

  /** Writing a truthy value under a key that held none adds exactly that
      key to the new keys. */
  lemma NewKeyCounted(combocache: map<string, Json>, cache: map<string, Json>, key: string, v: Json)
    requires !(key in cache && Truthy(cache[key])) && Truthy(v)
    requires forall k :: k in combocache && Truthy(combocache[k]) ==> k in cache && Truthy(cache[k])
    ensures |NewKeys(combocache, cache[key := v])| == |NewKeys(combocache, cache)| + 1
  {
    var before, after := NewKeys(combocache, cache), NewKeys(combocache, cache[key := v]);
    assert key !in before;
    assert after == before + {key} by {
      forall k | k in after ensures k in before + {key} {
      }
      forall k | k in before + {key} ensures k in after {
        if k == key {
          assert !(k in combocache && Truthy(combocache[k]));
        }
      }
    }
  }

  /** Truthy keys stay truthy, and the keys that become truthy in one step
      are the ones it counts. */
  lemma ComboStepCounts(combocache: map<string, Json>, p: CombosMerged, raw: string, result: Json, eval: string -> Option<Json>)
    requires p.newCombos == |NewKeys(combocache, p.cache)|
    requires forall k :: k in combocache && Truthy(combocache[k]) ==> k in p.cache && Truthy(p.cache[k])
    requires result.JStr? ==> result.s != ""
    ensures var m := ComboStep(p, raw, result, eval);
      m.newCombos == |NewKeys(combocache, m.cache)|
      && (forall k :: k in combocache && Truthy(combocache[k]) ==> k in m.cache && Truthy(m.cache[k]))
  {
    var m := ComboStep(p, raw, result, eval);
    forall k | k in combocache && Truthy(combocache[k])
      ensures k in m.cache && Truthy(m.cache[k])
    {
      ComboStepKeepsTruthy(p, raw, result, eval, k);
    }
    if result.JStr? {
      var (a, b) := ParseComboKey(raw, eval);
      if a != "" || b != "" {
        var key := NormalizeKey(Some(a), Some(b));
        var existing := Get(p.cache, key);
        if !Truthy(existing) {
          assert m == CombosMerged(p.cache[key := result], p.newCombos + 1);
          NewKeyCounted(combocache, p.cache, key, result);
        } else if existing == result {
          assert m.cache == p.cache;
        }
      }
    }
  }

  /** When no string result is empty, the returned count is the number of
      keys that were missing or empty before the merge and hold a result
      after it. */
  lemma {:induction false} MergeCountIsNewKeys(combocache: map<string, Json>, entries: seq<(string, Json)>, i: nat,
                                               eval: string -> Option<Json>)
    requires i <= |entries| && NonEmptyResults(entries)
    ensures var m := MergeCombosUpTo(combocache, entries, i, eval);
      m.newCombos == |NewKeys(combocache, m.cache)|
      && (forall k :: k in combocache && Truthy(combocache[k]) ==> k in m.cache && Truthy(m.cache[k]))
  {
    if i == 0 {
      assert NewKeys(combocache, combocache) == {};
    } else {
      MergeCountIsNewKeys(combocache, entries, i - 1, eval);
      ComboStepCounts(combocache, MergeCombosUpTo(combocache, entries, i - 1, eval), entries[i - 1].0, entries[i - 1].1, eval);
    }
  }

  datatype ItemsMerged = ItemsMerged(cache: map<string, Json>, newItems: nat, updatedEmojis: nat)

  /** Lines 88-92: the emoji offered by a meta entry, a non-empty string or
      None. */
  function OfferedEmoji(meta: Json): (e: Json)
    ensures e == JNull || (e.JStr? && e.s != "")
    ensures e != JNull ==> meta.JObj? && Get(meta.fields, "emoji") == e
  {
    if meta.JObj? && Get(meta.fields, "emoji").JStr? && Get(meta.fields, "emoji").s != "" then Get(meta.fields, "emoji")
    else JNull
  }

  /** One iteration of `_merge_items`, lines 88-98. */
  function ItemStep(m: ItemsMerged, name: string, meta: Json): ItemsMerged
  {
    var emoji := OfferedEmoji(meta);
    if name !in m.cache then ItemsMerged(m.cache[name := emoji], m.newItems + 1, m.updatedEmojis)
    else if Truthy(emoji) && (m.cache[name] == JNull || m.cache[name] == JStr("")) then
      ItemsMerged(m.cache[name := emoji], m.newItems, m.updatedEmojis + 1)
    else m
  }

  function MergeItemsUpTo(itemcache: map<string, Json>, entries: seq<(string, Json)>, i: nat): ItemsMerged
    requires i <= |entries|
  {
    if i == 0 then ItemsMerged(itemcache, 0, 0)
    else ItemStep(MergeItemsUpTo(itemcache, entries, i - 1), entries[i - 1].0, entries[i - 1].1)
  }

  /** `_merge_items`: returns the merged item cache and both counters. JSON
      object keys are always strings, so the non-string-name branch has no
      counterpart here. */
  method MergeItems(metaStore: seq<(string, Json)>, itemcache: map<string, Json>)
    returns (merged: map<string, Json>, newItems: nat, updatedEmojis: nat)
    ensures ItemsMerged(merged, newItems, updatedEmojis) == MergeItemsUpTo(itemcache, metaStore, |metaStore|)
  {
    merged, newItems, updatedEmojis := itemcache, 0, 0;
    var i := 0;
    while i < |metaStore|
      invariant 0 <= i <= |metaStore|
      invariant ItemsMerged(merged, newItems, updatedEmojis) == MergeItemsUpTo(itemcache, metaStore, i)
    {
      var (name, meta) := metaStore[i];
      var emoji := JNull;
      if meta.JObj? {
        var value := Get(meta.fields, "emoji");
        if value.JStr? && value.s != "" {
          emoji := value;
        }
      }
      if name !in merged {
        merged := merged[name := emoji];
        newItems := newItems + 1;
      } else if Truthy(emoji) && Get(merged, name) in {JNull, JStr("")} {
        merged := merged[name := emoji];
        updatedEmojis := updatedEmojis + 1;
      }
      i := i + 1;
    }
  }

  predicate ItemsInvariant(itemcache: map<string, Json>, m: ItemsMerged)
  {
    itemcache.Keys <= m.cache.Keys
    && (forall k :: k in itemcache && itemcache[k] != JNull && itemcache[k] != JStr("") ==> m.cache[k] == itemcache[k])
    && |m.cache| == |itemcache| + m.newItems
  }

  lemma ItemStepKeeps(itemcache: map<string, Json>, p: ItemsMerged, name: string, meta: Json)
    requires ItemsInvariant(itemcache, p)
    ensures ItemsInvariant(itemcache, ItemStep(p, name, meta))
  {
    var m := ItemStep(p, name, meta);
    var emoji := OfferedEmoji(meta);
    if name !in p.cache {
      assert m == ItemsMerged(p.cache[name := emoji], p.newItems + 1, p.updatedEmojis);
    } else if Truthy(emoji) && (p.cache[name] == JNull || p.cache[name] == JStr("")) {
      assert m == ItemsMerged(p.cache[name := emoji], p.newItems, p.updatedEmojis + 1);
      assert m.cache.Keys == p.cache.Keys;
    } else {
      assert m == p;
    }
  }

  lemma {:induction false} MergeItemsKeeps(itemcache: map<string, Json>, entries: seq<(string, Json)>, i: nat)
    requires i <= |entries|
    ensures ItemsInvariant(itemcache, MergeItemsUpTo(itemcache, entries, i))
  {
    if i > 0 {
      MergeItemsKeeps(itemcache, entries, i - 1);
      ItemStepKeeps(itemcache, MergeItemsUpTo(itemcache, entries, i - 1), entries[i - 1].0, entries[i - 1].1);
    }
  }

  /** An item with a non-empty emoji keeps it through the whole merge, every
      item stays, and `new_items` counts exactly the names added. */
  lemma MergeItemsMeaning(itemcache: map<string, Json>, entries: seq<(string, Json)>, i: nat)
    requires i <= |entries|
    ensures var m := MergeItemsUpTo(itemcache, entries, i);
      ItemsInvariant(itemcache, m) && m.newItems == |m.cache.Keys - itemcache.Keys|
  {
    MergeItemsKeeps(itemcache, entries, i);
    AddedKeysCounted(itemcache, MergeItemsUpTo(itemcache, entries, i).cache);
  }

  lemma ItemStepGrows(p: ItemsMerged, name: string, meta: Json)
    ensures p.cache.Keys <= ItemStep(p, name, meta).cache.Keys
    ensures name in ItemStep(p, name, meta).cache
  {
  }

  /** Every name of the meta store is in the item cache after the merge. */
  lemma {:induction false} MergedNamesPresent(itemcache: map<string, Json>, entries: seq<(string, Json)>, i: nat, j: nat)
    requires j < i <= |entries|
    ensures entries[j].0 in MergeItemsUpTo(itemcache, entries, i).cache
  {
    ItemStepGrows(MergeItemsUpTo(itemcache, entries, i - 1), entries[i - 1].0, entries[i - 1].1);
    if j < i - 1 {
      MergedNamesPresent(itemcache, entries, i - 1, j);
    }
  }

  /** A new name is inserted with its offered emoji; an existing empty or
      None emoji is filled by a non-empty one. */
  lemma ItemStepFills(m: ItemsMerged, name: string, meta: Json)
    ensures name !in m.cache ==> ItemStep(m, name, meta).cache[name] == OfferedEmoji(meta)
    ensures name in m.cache && (m.cache[name] == JNull || m.cache[name] == JStr("")) ==>
      ItemStep(m, name, meta).cache[name] == (if OfferedEmoji(meta) == JNull then m.cache[name] else OfferedEmoji(meta))
  {
  }
}
