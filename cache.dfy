/** The combination cache of cache.py: `combocache` maps a combination key to
    a result name, `itemcache` maps a result name to its emoji. */
module ComboStore {
  import opened Util
  import opened JsonValue
  import opened Keys

  /** What a cache hit hands on: `{"name": result, "emoji": emoji}`. */
  datatype Hit = Hit(name: string, emoji: Json)

  /** A decoded cache file: its `combocache` and `itemcache` sections, each
      None when the key is absent. */
  datatype Stored = Stored(combos: Option<map<string, string>>, items: Option<map<string, Json>>)

  /** The emoji reported for a stored itemcache entry: a missing entry is
      None, a list gives its first element, an empty list gives None. */
  function Unwrap(stored: Option<Json>): (e: Json)
    ensures stored.None? ==> e == JNull
    ensures stored.Some? && stored.value.JArr? && stored.value.items == [] ==> e == JNull
    ensures stored.Some? && stored.value.JArr? && stored.value.items != [] ==> e == stored.value.items[0]
    ensures stored.Some? && !stored.value.JArr? ==> e == stored.value
  {
    match stored
    case None => JNull
    case Some(JArr(xs)) => if xs == [] then JNull else xs[0]
    case Some(v) => v
  }

  function Find<K, V>(m: map<K, V>, k: K): Option<V>
  {
    if k in m then Some(m[k]) else None
  }

  /** `get_combo` over the two maps. */
  function GetCombo(combocache: map<string, string>, itemcache: map<string, Json>,
                    item1: Option<string>, item2: Option<string>): (r: Option<Hit>)
    ensures var key := NormalizeKey(item1, item2);
      r.None? <==> (key !in combocache || combocache[key] == "")
    ensures r.Some? ==> r.value.name == combocache[NormalizeKey(item1, item2)] && r.value.name != ""
    ensures r.Some? ==> r.value.emoji == Unwrap(Find(itemcache, r.value.name))
  {
    var key := NormalizeKey(item1, item2);
    if key !in combocache || combocache[key] == "" then None
    else
      var result := combocache[key];
      Some(Hit(result, Unwrap(Find(itemcache, result))))
  }

  /** A lookup answers the same whichever way round the pair is given. */
  lemma GetComboSymmetric(combocache: map<string, string>, itemcache: map<string, Json>,
                          item1: Option<string>, item2: Option<string>)
    ensures GetCombo(combocache, itemcache, item1, item2) == GetCombo(combocache, itemcache, item2, item1)
  {
    KeySymmetric(item1, item2);
  }

  /** After storing a non-empty result with a string emoji, both orders of the
      pair find exactly that result and emoji. */
  lemma GetAfterAdd(combocache: map<string, string>, itemcache: map<string, Json>,
                    item1: Option<string>, item2: Option<string>, name: string, emoji: string)
    requires name != ""
    ensures var c := combocache[NormalizeKey(item1, item2) := name];
      var i := itemcache[name := JStr(emoji)];
      GetCombo(c, i, item1, item2) == Some(Hit(name, JStr(emoji)))
      && GetCombo(c, i, item2, item1) == Some(Hit(name, JStr(emoji)))
  {
    KeySymmetric(item1, item2);
  }

  /** Storing a result for a second pair replaces the emoji seen through the
      first pair too: the last write wins. The two map updates are the
      effects `Cache.AddCombo` ensures for each call. */
  lemma LaterEmojiReplacesEarlier(combocache: map<string, string>, itemcache: map<string, Json>,
                                  a1: Option<string>, b1: Option<string>,
                                  a2: Option<string>, b2: Option<string>,
                                  name: string, first: string, second: string)
    requires name != ""
    ensures var c := combocache[NormalizeKey(a1, b1) := name][NormalizeKey(a2, b2) := name];
      var i := itemcache[name := JStr(first)][name := JStr(second)];
      GetCombo(c, i, a1, b1) == Some(Hit(name, JStr(second)))
  {
  }

  /** The cache object: both maps are fields that `add_combo` updates in place. */
  class Cache {
    var combocache: map<string, string>
    var itemcache: map<string, Json>

    constructor ()
      ensures combocache == map[] && itemcache == map[]
    {
      combocache := map[];
      itemcache := map[];
    }

    /** `add_combo`: exactly one key of each map is (over)written. */
    method AddCombo(item1: Option<string>, item2: Option<string>, resultName: string, resultEmoji: string)
      modifies this
      ensures combocache == old(combocache)[NormalizeKey(item1, item2) := resultName]
      ensures itemcache == old(itemcache)[resultName := JStr(resultEmoji)]
      ensures resultName != "" ==>
        GetCombo(combocache, itemcache, item1, item2) == Some(Hit(resultName, JStr(resultEmoji)))
        && GetCombo(combocache, itemcache, item2, item1) == Some(Hit(resultName, JStr(resultEmoji)))
    {
      var key := NormalizeKey(item1, item2);
      combocache := combocache[key := resultName];
      itemcache := itemcache[resultName := JStr(resultEmoji)];
      if resultName != "" {
        GetAfterAdd(old(combocache), old(itemcache), item1, item2, resultName, resultEmoji);
      }
    }

    /** Two `add_combo` calls storing the same name with different emojis,
        followed by `get_combo` on the first pair: the later emoji is seen. */
    method AddTwiceThenGet(a1: Option<string>, b1: Option<string>, a2: Option<string>, b2: Option<string>,
                           name: string, first: string, second: string) returns (r: Option<Hit>)
      requires name != ""
      modifies this
      ensures combocache == old(combocache)[NormalizeKey(a1, b1) := name][NormalizeKey(a2, b2) := name]
      ensures itemcache == old(itemcache)[name := JStr(second)]
      ensures r == Some(Hit(name, JStr(second)))
    {
      AddCombo(a1, b1, name, first);
      AddCombo(a2, b2, name, second);
      LaterEmojiReplacesEarlier(old(combocache), old(itemcache), a1, b1, a2, b2, name, first, second);
      r := GetCombo(combocache, itemcache, a1, b1);
    }

    /** `load` once the file has been read: None stands for a missing or
        undecodable file, which leaves both maps as they were; otherwise each
        map is replaced by its section, an absent section giving `{}`. */
    method Load(decoded: Option<Stored>)
      modifies this
      ensures decoded.None? ==> combocache == old(combocache) && itemcache == old(itemcache)
      ensures decoded.Some? ==>
        combocache == (if decoded.value.combos.Some? then decoded.value.combos.value else map[])
        && itemcache == (if decoded.value.items.Some? then decoded.value.items.value else map[])
    {
      if decoded.None? {
        return;
      }
      combocache := if decoded.value.combos.Some? then decoded.value.combos.value else map[];
      itemcache := if decoded.value.items.Some? then decoded.value.items.value else map[];
    }
  }
}
