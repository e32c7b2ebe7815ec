/** The combination key: an unordered pair of item names, each trimmed and
    lower-cased (a missing name counts as ""), written as "min|max" under
    Python's string order. The game cache and both offline converters use
    this same rule. */
module Keys {
  import opened Util
  import opened Text

  /** `(x or '').strip().lower()` */
  function Canon(x: Option<string>): string
  {
    Lower(Strip(if x.Some? then x.value else ""))
  }

  /** `first, second = sorted([a, b]); f"{first}|{second}"` on the canonical names. */
  function NormalizeKey(item1: Option<string>, item2: Option<string>): string
  {
    var a := Canon(item1);
    var b := Canon(item2);
    if LexLe(a, b) then a + "|" + b else b + "|" + a
  }

  /** The key does not depend on the order of the two names. */
  lemma KeySymmetric(item1: Option<string>, item2: Option<string>)
    ensures NormalizeKey(item1, item2) == NormalizeKey(item2, item1)
  {
    var a, b := Canon(item1), Canon(item2);
    LexLeTotal(a, b);
    if LexLe(a, b) && LexLe(b, a) {
      LexLeAntisymmetric(a, b);
    }
  }

  /** A missing name is keyed exactly like the empty name. */
  lemma MissingIsEmpty(item2: Option<string>)
    ensures NormalizeKey(None, item2) == NormalizeKey(Some(""), item2)
    ensures Canon(None) == ""
  {
    assert Strip("") == "";
  }

  /** Canonicalising twice is canonicalising once. */
  lemma CanonIdempotent(x: Option<string>)
    ensures Canon(Some(Canon(x))) == Canon(x)
  {
    var s := Strip(if x.Some? then x.value else "");
    StripIsStripped(if x.Some? then x.value else "");
    LowerKeepsStripped(s);
    StripIsStripped(Lower(s));
    LowerIdempotent(s);
  }

  /** The key depends only on the trimmed, lower-cased names. */
  lemma KeyOfCanonical(item1: Option<string>, item2: Option<string>)
    ensures NormalizeKey(item1, item2) == NormalizeKey(Some(Canon(item1)), Some(Canon(item2)))
  {
    CanonIdempotent(item1);
    CanonIdempotent(item2);
  }

  /** The key is the smaller canonical name, a bar, then the larger one. */
  lemma KeyIsMinBarMax(item1: Option<string>, item2: Option<string>)
    ensures exists first, second ::
      NormalizeKey(item1, item2) == first + "|" + second
      && LexLe(first, second)
      && multiset{first, second} == multiset{Canon(item1), Canon(item2)}
  {
    var a, b := Canon(item1), Canon(item2);
    LexLeTotal(a, b);
    if LexLe(a, b) {
      assert NormalizeKey(item1, item2) == a + "|" + b;
    } else {
      assert NormalizeKey(item1, item2) == b + "|" + a;
    }
  }

  /** When neither canonical name contains a bar, splitting the key on the
      bar gives back the two names in order. */
  lemma KeySplitsBack(item1: Option<string>, item2: Option<string>)
    requires '|' !in Canon(item1) && '|' !in Canon(item2)
    ensures var parts := Split(NormalizeKey(item1, item2), '|');
      |parts| == 2 && LexLe(parts[0], parts[1])
      && multiset{parts[0], parts[1]} == multiset{Canon(item1), Canon(item2)}
  {
    var a, b := Canon(item1), Canon(item2);
    LexLeTotal(a, b);
    if LexLe(a, b) {
      SplitAt(a, '|', b);
      SplitFree(b, '|');
    } else {
      SplitAt(b, '|', a);
      SplitFree(a, '|');
    }
  }

  /** Without bars in the names, equal keys mean the same unordered pair. */
  lemma KeyDeterminesPair(x1: Option<string>, y1: Option<string>, x2: Option<string>, y2: Option<string>)
    requires '|' !in Canon(x1) && '|' !in Canon(y1) && '|' !in Canon(x2) && '|' !in Canon(y2)
    requires NormalizeKey(x1, y1) == NormalizeKey(x2, y2)
    ensures multiset{Canon(x1), Canon(y1)} == multiset{Canon(x2), Canon(y2)}
  {
    KeySplitsBack(x1, y1);
    KeySplitsBack(x2, y2);
  }

  /** With a bar inside a name, two different pairs can share a key. */
  lemma BarNamesCanCollide()
    ensures NormalizeKey(Some("a|b"), Some("c")) == NormalizeKey(Some("a"), Some("b|c"))
  {
    assert Strip("a|b") == "a|b" && Strip("c") == "c";
    assert Strip("a") == "a" && Strip("b|c") == "b|c";
    assert Lower("a|b") == "a|b" && Lower("c") == "c";
    assert Lower("a") == "a" && Lower("b|c") == "b|c";
    assert LexLe("a|b", "c");
    assert LexLe("a", "b|c");
  }
}
