/** The offline converter convert_words.py: it reads lines `a=b=result` and
    merges them into the combo and item caches. Its `_normalize_key` is the
    game's key (`Keys.NormalizeKey`). `ProcessUpTo` gives both caches and both
    counters after the first i lines. */
module ConvertWords {
  import opened Util
  import opened JsonValue
  import opened Text
  import opened Keys

  /** `[p.strip() for p in parts]` */
  function StripAll(parts: seq<string>): (r: seq<string>)
    ensures |r| == |parts|
    ensures forall i :: 0 <= i < |parts| ==> r[i] == Strip(parts[i])
  {
    seq(|parts|, i requires 0 <= i < |parts| => Strip(parts[i]))
  }

  /** Lines 37-47: the three fields of a line that is kept, or None for a
      blank line, a comment, a wrong field count or an empty field. */
  function ParseLine(raw: string): (r: Option<(string, string, string)>)
    ensures r.Some? ==> r.value.0 != "" && r.value.1 != "" && r.value.2 != ""
  {
    var line := Strip(raw);
    if line == "" || StartsWith(line, "#") then None
    else
      var parts := StripAll(Split(line, '='));
      if |parts| != 3 then None
      else if parts[0] == "" || parts[1] == "" || parts[2] == "" then None
      else Some((parts[0], parts[1], parts[2]))
  }

  /** Blank lines and comments are skipped. */
  lemma BlankAndCommentSkipped(raw: string)
    requires Strip(raw) == "" || StartsWith(Strip(raw), "#")
    ensures ParseLine(raw).None?
  {
  }

  /** A kept line has exactly two separators. */
  lemma KeptLineHasTwoSeparators(raw: string)
    requires ParseLine(raw).Some?
    ensures Count(Strip(raw), '=') == 2
  {
    SplitLength(Strip(raw), '=');
  }

  /** Writing three trimmed, non-empty names without `=` (the first not
      starting with `#`) as `a=b=result` reads them back. */
  lemma ParseLineRoundTrip(a: string, b: string, r: string)
    requires a != "" && b != "" && r != ""
    requires Stripped(a) && Stripped(b) && Stripped(r)
    requires '=' !in a && '=' !in b && '=' !in r
    requires a[0] != '#'
    ensures ParseLine(a + "=" + b + "=" + r) == Some((a, b, r))
  {
    var line := a + "=" + b + "=" + r;
    assert Stripped(line) by {
      assert line[0] == a[0];
      assert line[|line| - 1] == r[|r| - 1];
    }
    StripIsStripped(line);
    assert !StartsWith(line, "#") by {
      assert line[0] == a[0];
    }
    assert line == a + ['='] + (b + ['='] + r);
    SplitAt(a, '=', b + ['='] + r);
    SplitAt(b, '=', r);
    SplitFree(r, '=');
    StripIsStripped(a);
    StripIsStripped(b);
    StripIsStripped(r);
  }

  datatype WordsMerged = WordsMerged(combos: map<string, Json>, items: map<string, Json>, newCombos: nat, newItems: nat)

  /** What one line asks for: nothing, or its result stored under its key. */
  datatype Edit = Skip | Put(key: string, result: string)

  /** Lines 37-49: the edit a line makes. */
  function EditOf(raw: string): (e: Edit)
    ensures e.Put? <==> ParseLine(raw).Some?
    ensures e.Put? ==>
      e.result == ParseLine(raw).value.2
      && e.key == NormalizeKey(Some(ParseLine(raw).value.0), Some(ParseLine(raw).value.1))
  {
    match ParseLine(raw)
    case None => Skip
    case Some((item1, item2, result)) => Put(NormalizeKey(Some(item1), Some(item2)), result)
  }

  function Edits(lines: seq<string>): (es: seq<Edit>)
    ensures |es| == |lines| && forall k :: 0 <= k < |lines| ==> es[k] == EditOf(lines[k])
  {
    seq(|lines|, k requires 0 <= k < |lines| => EditOf(lines[k]))
  }

  /** Lines 50-64 once the key is known: a conflicting or missing combo is
      (over)written and counted only when missing; an unknown result name is
      added to the items with no emoji. */
  function Store(m: WordsMerged, key: string, result: string): WordsMerged
  {
    var existing := Get(m.combos, key);
    WordsMerged(
      if Truthy(existing) && existing == JStr(result) then m.combos else m.combos[key := JStr(result)],
      if result in m.items then m.items else m.items[result := JNull],
      if Truthy(existing) then m.newCombos else m.newCombos + 1,
      if result in m.items then m.newItems else m.newItems + 1)
  }

  function EditStep(m: WordsMerged, e: Edit): WordsMerged
  {
    match e
    case Skip => m
    case Put(key, result) => Store(m, key, result)
  }

  /** One iteration of `_process_words`, lines 37-64. */
  function LineStep(m: WordsMerged, raw: string): WordsMerged
  {
    EditStep(m, EditOf(raw))
  }

  /** The first i edits applied in order. */
  function Replay(m0: WordsMerged, es: seq<Edit>, i: nat): WordsMerged
    requires i <= |es|
  {
    if i == 0 then m0 else EditStep(Replay(m0, es, i - 1), es[i - 1])
  }

  /** Both caches and both counters after the first i lines. */
  function ProcessUpTo(combocache: map<string, Json>, itemcache: map<string, Json>, lines: seq<string>, i: nat): WordsMerged
    requires i <= |lines|
  {
    Replay(WordsMerged(combocache, itemcache, 0, 0), Edits(lines), i)
  }

  /** `_process_words` over the lines of the file. */
  method ProcessWords(lines: seq<string>, combocache: map<string, Json>, itemcache: map<string, Json>)
    returns (combos: map<string, Json>, items: map<string, Json>, newCombos: nat, newItems: nat)
    ensures WordsMerged(combos, items, newCombos, newItems) == ProcessUpTo(combocache, itemcache, lines, |lines|)
  {
    combos, items, newCombos, newItems := combocache, itemcache, 0, 0;
    var i := 0;
    while i < |lines|
      invariant 0 <= i <= |lines|
      invariant WordsMerged(combos, items, newCombos, newItems) == ProcessUpTo(combocache, itemcache, lines, i)
    {
      combos, items, newCombos, newItems := ProcessLine(lines[i], combos, items, newCombos, newItems);
      i := i + 1;
    }
  }

  /** The body of the loop of `_process_words` for one line. */
  method ProcessLine(raw: string, combos0: map<string, Json>, items0: map<string, Json>, newCombos0: nat, newItems0: nat)
    returns (combos: map<string, Json>, items: map<string, Json>, newCombos: nat, newItems: nat)
    ensures WordsMerged(combos, items, newCombos, newItems) == LineStep(WordsMerged(combos0, items0, newCombos0, newItems0), raw)
  {
    combos, items, newCombos, newItems := combos0, items0, newCombos0, newItems0;
    var line := Strip(raw);
    if line != "" && !StartsWith(line, "#") {
      var parts := StripAll(Split(line, '='));
      if |parts| == 3 && parts[0] != "" && parts[1] != "" && parts[2] != "" {
        var item1, item2, result := parts[0], parts[1], parts[2];
        var key := NormalizeKey(Some(item1), Some(item2));
        var existing := Get(combos, key);
        if Truthy(existing) && existing != JStr(result) {
          combos := combos[key := JStr(result)];
        } else if !Truthy(existing) {
          combos := combos[key := JStr(result)];
          newCombos := newCombos + 1;
        }
        if result !in items {
          items := items[result := JNull];
          newItems := newItems + 1;
        }
      }
    }
  }

  /** A kept line always leaves its key holding its result (a conflicting
      earlier result is overridden), registers the result name, and counts a
      new combo exactly when the key held nothing truthy before. */
  lemma StoreMeaning(m: WordsMerged, key: string, result: string)
    ensures var n := Store(m, key, result);
      key in n.combos && n.combos[key] == JStr(result)
      && (forall k :: k in m.combos && k != key ==> k in n.combos && n.combos[k] == m.combos[k])
      && result in n.items
      && (n.newCombos == m.newCombos + 1 <==> !Truthy(Get(m.combos, key)))
      && (n.newCombos == m.newCombos <==> Truthy(Get(m.combos, key)))
  {
  }

  /** Skipped lines change nothing. */
  lemma SkippedLineChangesNothing(m: WordsMerged, raw: string)
    requires ParseLine(raw).None?
    ensures LineStep(m, raw) == m
  {
  }

  /** Item names already present keep their emoji and names added carry
      None. */
  predicate ItemsInvariant(itemcache: map<string, Json>, m: WordsMerged)
  {
    itemcache.Keys <= m.items.Keys
    && (forall k :: k in itemcache ==> m.items[k] == itemcache[k])
    && (forall k :: k in m.items && k !in itemcache ==> m.items[k] == JNull)
  }

  /** `new_items` is the growth of the item map. */
  predicate ItemsCounted(itemcache: map<string, Json>, m: WordsMerged)
  {
    itemcache.Keys <= m.items.Keys && |m.items| == |itemcache| + m.newItems
  }

  lemma EditKeepsItems(itemcache: map<string, Json>, m: WordsMerged, e: Edit)
    requires ItemsInvariant(itemcache, m)
    ensures ItemsInvariant(itemcache, EditStep(m, e))
  {
    if e.Put? {
      assert EditStep(m, e) == Store(m, e.key, e.result);
    }
  }

  lemma EditCountsItems(itemcache: map<string, Json>, m: WordsMerged, e: Edit)
    requires ItemsCounted(itemcache, m)
    ensures ItemsCounted(itemcache, EditStep(m, e))
  {
    if e.Put? {
      assert EditStep(m, e) == Store(m, e.key, e.result);
    }
  }

  lemma {:induction false} ReplayKeepsItems(itemcache: map<string, Json>, m0: WordsMerged, es: seq<Edit>, i: nat)
    requires i <= |es| && ItemsInvariant(itemcache, m0)
    ensures ItemsInvariant(itemcache, Replay(m0, es, i))
  {
    if i > 0 {
      ReplayKeepsItems(itemcache, m0, es, i - 1);
      EditKeepsItems(itemcache, Replay(m0, es, i - 1), es[i - 1]);
    }
  }

  lemma {:induction false} ReplayCountsItems(itemcache: map<string, Json>, m0: WordsMerged, es: seq<Edit>, i: nat)
    requires i <= |es| && ItemsCounted(itemcache, m0)
    ensures ItemsCounted(itemcache, Replay(m0, es, i))
  {
    if i > 0 {
      ReplayCountsItems(itemcache, m0, es, i - 1);
      EditCountsItems(itemcache, Replay(m0, es, i - 1), es[i - 1]);
    }
  }

  /** Item names already present keep their emoji, names added carry None,
      and `new_items` counts exactly the names added. */
  lemma ProcessKeepsItems(combocache: map<string, Json>, itemcache: map<string, Json>, lines: seq<string>, i: nat)
    requires i <= |lines|
    ensures var m := ProcessUpTo(combocache, itemcache, lines, i);
      ItemsInvariant(itemcache, m) && m.newItems == |m.items.Keys - itemcache.Keys|
  {
    var m0 := WordsMerged(combocache, itemcache, 0, 0);
    ReplayKeepsItems(itemcache, m0, Edits(lines), i);
    ReplayCountsItems(itemcache, m0, Edits(lines), i);
    AddedKeysCounted(itemcache, Replay(m0, Edits(lines), i).items);
  }

  /** The key a kept line writes, or None for a skipped line. */
  function KeyOf(raw: string): (k: Option<string>)
    ensures k.Some? <==> ParseLine(raw).Some?
    ensures k.Some? ==> k.value == EditOf(raw).key
  {
    var e := EditOf(raw);
    if e.Put? then Some(e.key) else None
  }

  /** A kept line sets its own key to its result. */
  lemma LineSetsKey(m: WordsMerged, raw: string)
    requires ParseLine(raw).Some?
    ensures KeyOf(raw).value in LineStep(m, raw).combos
    ensures LineStep(m, raw).combos[KeyOf(raw).value] == JStr(ParseLine(raw).value.2)
  {
    var e := EditOf(raw);
    StoreMeaning(m, e.key, e.result);
  }

  /** A line that does not write `key` leaves it as it was. */
  lemma LineKeepsOtherKey(m: WordsMerged, raw: string, key: string)
    requires key in m.combos && KeyOf(raw) != Some(key)
    ensures key in LineStep(m, raw).combos && LineStep(m, raw).combos[key] == m.combos[key]
  {
    var e := EditOf(raw);
    if e.Put? {
      StoreMeaning(m, e.key, e.result);
    }
  }

  /** Over any edits: the last edit of a key decides its result. */
  lemma {:induction false} ReplayLastWins(m0: WordsMerged, es: seq<Edit>, i: nat, j: nat)
    requires j < i <= |es| && es[j].Put?
    requires forall l :: j < l < i ==> !(es[l].Put? && es[l].key == es[j].key)
    ensures es[j].key in Replay(m0, es, i).combos && Replay(m0, es, i).combos[es[j].key] == JStr(es[j].result)
  {
    var p := Replay(m0, es, i - 1);
    if i == j + 1 {
      StoreMeaning(p, es[j].key, es[j].result);
    } else {
      ReplayLastWins(m0, es, i - 1, j);
      if es[i - 1].Put? {
        StoreMeaning(p, es[i - 1].key, es[i - 1].result);
      }
    }
  }

  /** The last kept line for a key decides its result: when no later line
      writes the same key, the key ends holding that line's result. */
  lemma LastLineWins(combocache: map<string, Json>, itemcache: map<string, Json>, lines: seq<string>, i: nat, j: nat)
    requires j < i <= |lines| && ParseLine(lines[j]).Some?
    requires forall l :: j < l < i ==> KeyOf(lines[l]) != KeyOf(lines[j])
    ensures var m := ProcessUpTo(combocache, itemcache, lines, i);
      KeyOf(lines[j]).value in m.combos && m.combos[KeyOf(lines[j]).value] == JStr(ParseLine(lines[j]).value.2)
  {
    var es := Edits(lines);
    forall l | j < l < i
      ensures !(es[l].Put? && es[l].key == es[j].key)
    {
      assert KeyOf(lines[l]) != KeyOf(lines[j]);
    }
    ReplayLastWins(WordsMerged(combocache, itemcache, 0, 0), es, i, j);
  }
}
