/** Item pools of the gamemodes: the four starting items, the cleaning rule
    applied to pools read back from disk, and the append-if-absent update.
    An entry is the `item(name, emoji)` dict, so two entries are the same only
    when both name and emoji are equal. */
module Pools {
  import opened Util
  import opened JsonValue
  import opened Templates

  /** `_default_pool` of classic.py and shared.py: Water, Fire, Earth, Air. */
  function DefaultPool(): (p: seq<Item>)
    ensures |p| == 4 && Distinct(p)
    ensures p[0].name == JStr("Water") && p[1].name == JStr("Fire")
    ensures p[2].name == JStr("Earth") && p[3].name == JStr("Air")
  {
    [Item(JStr("Water"), JStr("\U{1F4A7}")), Item(JStr("Fire"), JStr("\U{1F525}")),
     Item(JStr("Earth"), JStr("\U{1F30D}")), Item(JStr("Air"), JStr("\U{1F4A8}"))]
  }

  /** An entry survives loading when it is an object with a truthy name. */
  predicate Keeps(entry: Json)
  {
    entry.JObj? && Truthy(Get(entry.fields, "name"))
  }

  function ItemOf(entry: Json): Item
    requires entry.JObj?
  {
    Item(Get(entry.fields, "name"), Get(entry.fields, "emoji"))
  }

  /** The entries that survive loading, as items, in file order. */
  function Clean(entries: seq<Json>): (r: seq<Item>)
    ensures |r| <= |entries|
    ensures forall x :: x in r ==> Truthy(x.name)
  {
    if entries == [] then []
    else
      var init := Clean(entries[..|entries| - 1]);
      var last := entries[|entries| - 1];
      if Keeps(last) then init + [ItemOf(last)] else init
  }

  /** The cleaning loop of `_load_pools` and `_load_pool`. */
  method CleanEntries(entries: seq<Json>) returns (cleaned: seq<Item>)
    ensures cleaned == Clean(entries)
  {
    cleaned := [];
    var i := 0;
    while i < |entries|
      invariant 0 <= i <= |entries|
      invariant cleaned == Clean(entries[..i])
    {
      assert entries[..i + 1][..i] == entries[..i];
      var entry := entries[i];
      if entry.JObj? && Truthy(Get(entry.fields, "name")) {
        cleaned := cleaned + [Item(Get(entry.fields, "name"), Get(entry.fields, "emoji"))];
      }
      i := i + 1;
    }
    assert entries[..i] == entries;
  }

  /** Clean keeps exactly the entries that pass, in order, and drops the rest. */
  lemma {:induction false} CleanMeaning(entries: seq<Json>)
    ensures (forall e :: e in entries ==> !Keeps(e)) <==> Clean(entries) == []
    ensures forall e :: e in entries && Keeps(e) ==> ItemOf(e) in Clean(entries)
    ensures forall x :: x in Clean(entries) ==> exists e :: e in entries && Keeps(e) && x == ItemOf(e)
  {
    if entries != [] {
      var init := entries[..|entries| - 1];
      var last := entries[|entries| - 1];
      CleanMeaning(init);
      assert entries == init + [last];
      assert forall e :: e in entries <==> e in init || e == last;
    }
  }

  /** `_load_pools` of classic.py once the file is decoded: for a top-level
      object, every uuid whose value is a list with at least one surviving
      entry gets that cleaned list; anything else loads nothing. */
  function LoadedPools(data: Json): (pools: map<string, seq<Item>>)
    ensures forall u :: u in pools ==> pools[u] != []
  {
    if !data.JObj? then map[]
    else
      map u | u in data.fields && data.fields[u].JArr? && Clean(data.fields[u].items) != [] :: Clean(data.fields[u].items)
  }

  /** A uuid is loaded exactly when its list has a surviving entry. */
  lemma LoadedPoolsMeaning(data: Json, u: string)
    requires data.JObj?
    ensures u in LoadedPools(data) <==>
      u in data.fields && data.fields[u].JArr? && exists e :: e in data.fields[u].items && Keeps(e)
    ensures u in LoadedPools(data) ==> LoadedPools(data)[u] == Clean(data.fields[u].items)
  {
    if u in data.fields && data.fields[u].JArr? {
      CleanMeaning(data.fields[u].items);
    }
  }

  /** `_load_pool` of shared.py: the cleaned list when the decoded file is a
      list with a surviving entry, the default pool otherwise (including a
      missing or unreadable file, given as None). */
  function LoadedSharedPool(data: Option<Json>): (p: seq<Item>)
    ensures p != []
  {
    if data.Some? && data.value.JArr? && Clean(data.value.items) != [] then Clean(data.value.items)
    else DefaultPool()
  }

  lemma LoadedSharedPoolMeaning(data: Option<Json>)
    ensures data.None? ==> LoadedSharedPool(data) == DefaultPool()
    ensures data.Some? && !data.value.JArr? ==> LoadedSharedPool(data) == DefaultPool()
    ensures data.Some? && data.value.JArr? ==>
      LoadedSharedPool(data) == (if exists e :: e in data.value.items && Keeps(e) then Clean(data.value.items) else DefaultPool())
  {
    if data.Some? && data.value.JArr? {
      CleanMeaning(data.value.items);
    }
  }

  /** `if new_item not in pool: pool.append(new_item)`. */
  function AddIfAbsent(pool: seq<Item>, it: Item): (r: seq<Item>)
  {
    if it in pool then pool else pool + [it]
  }

  /** The pool grows by the item exactly when no equal entry is present,
      earlier entries keep their places, and the item is in the result. */
  lemma AddIfAbsentMeaning(pool: seq<Item>, it: Item)
    ensures var r := AddIfAbsent(pool, it);
      (it in pool <==> r == pool)
      && (it !in pool <==> |r| == |pool| + 1)
      && r[..|pool|] == pool
      && it in r
      && (forall x :: x in r <==> x in pool || x == it)
  {
  }

  /** Adding twice is adding once. */
  lemma AddIfAbsentIdempotent(pool: seq<Item>, it: Item)
    ensures AddIfAbsent(AddIfAbsent(pool, it), it) == AddIfAbsent(pool, it)
  {
  }

  /** A pool without repeats stays without repeats. */
  lemma AddIfAbsentDistinct(pool: seq<Item>, it: Item)
    requires Distinct(pool)
    ensures Distinct(AddIfAbsent(pool, it))
  {
  }

  /** A second emoji for a name already in the pool makes a second entry. */
  lemma SameNameOtherEmojiIsAdded(pool: seq<Item>, name: Json, e1: Json, e2: Json)
    requires e1 != e2 && Item(name, e2) !in pool
    ensures var r := AddIfAbsent(AddIfAbsent(pool, Item(name, e1)), Item(name, e2));
      Item(name, e1) in r && Item(name, e2) in r
      && |r| == |pool| + (if Item(name, e1) in pool then 1 else 2)
  {
  }

  /** Pools only grow: `p` is a prefix of `q`. */
  predicate Grows(p: seq<Item>, q: seq<Item>)
  {
    |p| <= |q| && q[..|p|] == p
  }

  lemma AddIfAbsentGrows(pool: seq<Item>, it: Item)
    ensures Grows(pool, AddIfAbsent(pool, it))
  {
  }

  /** The pool a player sees: the shared pool, its own pool, or the default
      pool a first access would create. */
  function PoolIn(shares: bool, itemPools: map<string, seq<Item>>, sharedPool: seq<Item>, uuid: string): seq<Item>
  {
    if shares then sharedPool else if uuid in itemPools then itemPools[uuid] else DefaultPool()
  }

  /** Does the pool hold an entry whose name is the given text?
      (`any(i.get('name') == item_name for i in pool)`) */
  predicate Holds(pool: seq<Item>, text: string)
  {
    exists i :: 0 <= i < |pool| && pool[i].name == JStr(text)
  }

  /** A pool holding an item holds its name. */
  lemma HoldsMember(pool: seq<Item>, it: Item)
    requires it in pool
    ensures forall t :: it.name == JStr(t) ==> Holds(pool, t)
  {
    var j :| 0 <= j < |pool| && pool[j] == it;
  }

  /** What a pool holds it keeps holding as it grows. */
  lemma HoldsGrows(p: seq<Item>, q: seq<Item>, text: string)
    requires Grows(p, q) && Holds(p, text)
    ensures Holds(q, text)
  {
    var i :| 0 <= i < |p| && p[i].name == JStr(text);
    assert q[i] == p[i];
  }

  /** The default pool holds the four starting names and nothing else. */
  lemma DefaultPoolHolds(text: string)
    ensures Holds(DefaultPool(), text) <==> text in {"Water", "Fire", "Earth", "Air"}
  {
  }
}
