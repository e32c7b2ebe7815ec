/** The value classes of gameobjects.py. Python's `==` on them is the
    predicate `Same`, and `hash` is built on an abstract string hash `h`. */
module GameObjects {

  datatype GameItem = GameItem(name: string, emoji: string)

  /** `Item.__eq__`: only the names are compared. */
  predicate SameItem(a: GameItem, b: GameItem)
  {
    a.name == b.name
  }

  /** `Item.__hash__`. */
  function ItemHash(a: GameItem, h: string -> int): int
  {
    h(a.name)
  }

  /** `Item.__str__` and `__repr__`. */
  function ItemText(a: GameItem): (r: string)
    ensures SameItem(a, GameItem(r, a.emoji))
  {
    a.name
  }

  datatype Combo = Combo(item1: GameItem, item2: GameItem, result: GameItem)

  /** `Combo.__eq__`: the two inputs, in order; the result is ignored. */
  predicate SameCombo(x: Combo, y: Combo)
  {
    SameItem(x.item1, y.item1) && SameItem(x.item2, y.item2)
  }

  /** `Combo.__hash__`. */
  function ComboHash(c: Combo, h: string -> int): int
  {
    ItemHash(c.item1, h) + ItemHash(c.item2, h)
  }

  /** `Combo.__str__` and `__repr__`: "a + b = r". */
  function ComboText(c: Combo): (r: string)
    ensures |r| == |c.item1.name| + |c.item2.name| + |c.result.name| + 6
    ensures r[..|c.item1.name|] == c.item1.name
    ensures r[|r| - |c.result.name|..] == c.result.name
  {
    c.item1.name + " + " + c.item2.name + " = " + c.result.name
  }

  function Swapped(c: Combo): Combo
  {
    Combo(c.item2, c.item1, c.result)
  }

  /** Item equality is an equivalence that ignores the emoji. */
  lemma SameItemIsEquivalence(a: GameItem, b: GameItem, c: GameItem)
    ensures SameItem(a, a)
    ensures SameItem(a, b) ==> SameItem(b, a)
    ensures SameItem(a, b) && SameItem(b, c) ==> SameItem(a, c)
    ensures SameItem(a, GameItem(a.name, b.emoji))
  {
  }

  /** Equal items hash alike, so they agree as dictionary keys. */
  lemma SameItemSameHash(a: GameItem, b: GameItem, h: string -> int)
    requires SameItem(a, b)
    ensures ItemHash(a, h) == ItemHash(b, h)
  {
  }

  /** Equal combos hash alike. */
  lemma SameComboSameHash(x: Combo, y: Combo, h: string -> int)
    requires SameCombo(x, y)
    ensures ComboHash(x, h) == ComboHash(y, h)
  {
  }

  /** Swapping the inputs keeps the hash but gives an equal combo only when
      both inputs have the same name. */
  lemma SwapKeepsHashNotEquality(c: Combo, h: string -> int)
    ensures ComboHash(Swapped(c), h) == ComboHash(c, h)
    ensures SameCombo(Swapped(c), c) <==> c.item1.name == c.item2.name
  {
  }

  /** Two combos with the same inputs in the same order are equal whatever
      their results are. */
  lemma ResultIgnored(c: Combo, r: GameItem)
    ensures SameCombo(c, Combo(c.item1, c.item2, r))
  {
  }

  /** A concrete pair: "Water + Fire = Steam" equals itself swapped only in
      hash. */
  lemma WaterFireExample(h: string -> int)
    ensures var c := Combo(GameItem("Water", ""), GameItem("Fire", ""), GameItem("Steam", ""));
      ComboText(c) == "Water + Fire = Steam"
      && !SameCombo(c, Swapped(c)) && ComboHash(c, h) == ComboHash(Swapped(c), h)
  {
    var c := Combo(GameItem("Water", ""), GameItem("Fire", ""), GameItem("Steam", ""));
    assert c.item1.name != c.item2.name by {
      assert |"Water"| != |"Fire"|;
    }
  }
}
