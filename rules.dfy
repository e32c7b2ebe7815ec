/** The pure rules behind the gamemodes: configuration and mode names, the
    board draw, the effect of a click, of automatic marking and of a Lockout
    claim on the cells, the countdown and the winner texts. */
module Rules {
  import opened Util
  import opened JsonValue
  import opened Board
  import opened Players
  import opened Templates
  import opened Pools

  /** The Bingo configuration dict with its defaults applied
      (bingo.py:14-26). Lockout-Bingo reads only size, timer and words. */
  datatype BingoConfig = BingoConfig(lockout: bool, manual: bool, endOnBingo: bool, size: int, timer: int, words: seq<string>)

  function DefaultConfig(): BingoConfig
  {
    BingoConfig(false, true, false, 5, 900, [])
  }

  /** The five gamemodes. */
  datatype Kind =
    | Classic
    | Shared
    | Bingo(cfg: BingoConfig)
    | SharedBingo(cfg: BingoConfig)
    | LockoutBingo(cfg: BingoConfig)

  /** Modes whose players all see one pool. */
  predicate SharesPool(k: Kind)
  {
    k.Shared? || k.SharedBingo?
  }

  /** Modes whose board cells carry owner sets. */
  predicate OwnerBoard(k: Kind)
  {
    k.Bingo? || k.SharedBingo?
  }

  /** Modes that have a bingo field at all. */
  predicate HasField(k: Kind)
  {
    OwnerBoard(k) || k.LockoutBingo?
  }

  /** The title of a Bingo mode: "Lockout"?, "Bingo", then "(Manual)" or
      "(Auto)", joined by spaces. */
  function BingoName(cfg: BingoConfig): string
  {
    Join((if cfg.lockout then ["Lockout"] else []) + ["Bingo", if cfg.manual then "(Manual)" else "(Auto)"], " ")
  }

  function ModeName(k: Kind): string
  {
    match k
    case Classic => "Classic"
    case Shared => "Shared"
    case Bingo(cfg) => BingoName(cfg)
    case SharedBingo(cfg) => "Shared " + BingoName(cfg)
    case LockoutBingo(_) => "Lockout Bingo"
  }

  /** The titles that appear with the default and the lockout settings, and
      the Shared prefix. */
  lemma ModeNames(cfg: BingoConfig)
    ensures BingoName(DefaultConfig()) == "Bingo (Manual)"
    ensures BingoName(cfg.(lockout := true, manual := false)) == "Lockout Bingo (Auto)"
    ensures ModeName(SharedBingo(cfg)) == "Shared " + ModeName(Kind.Bingo(cfg))
    ensures ModeName(LockoutBingo(cfg)) == "Lockout Bingo"
  {
    assert ["Bingo", "(Manual)"][1..] == ["(Manual)"];
    var parts := ["Lockout"] + ["Bingo", "(Auto)"];
    assert parts[1..] == ["Bingo", "(Auto)"];
    assert ["Bingo", "(Auto)"][1..] == ["(Auto)"];
    assert Join(["Bingo", "(Auto)"], " ") == "Bingo (Auto)";
    assert Join(parts, " ") == "Lockout" + " " + Join(["Bingo", "(Auto)"], " ");
  }

  // ---------------------------------------------------------------------
  // The board draw
  // ---------------------------------------------------------------------

  /** The number of cells, `bingo_size**2`. */
  function CellCount(n: int): nat
  {
    var m := if n < 0 then -n else n;
    m * m
  }

  /** k copies of "?". */
  function Pad(k: nat): (r: seq<string>)
    ensures |r| == k && forall i :: 0 <= i < k ==> r[i] == "?"
  {
    seq(k, _ => "?")
  }

  /** The words a board is drawn from: the configured words when there are
      any, otherwise every item name in the cache. */
  function Source(cfg: BingoConfig, known: set<string>): multiset<string>
  {
    if cfg.words != [] then multiset(cfg.words) else multiset(known)
  }

  /** A possible outcome of the draw: with fewer words than cells, a shuffle
      of the words padded with "?"; otherwise a sample of `needed` of them. */
  predicate ValidDraw(source: multiset<string>, needed: nat, texts: seq<string>)
  {
    |texts| == needed
    && if |source| < needed then multiset(texts) == source + multiset(Pad(needed - |source|))
       else multiset(texts) <= source
  }

  lemma PadMultiset(k: nat)
    ensures multiset(Pad(k)) == multiset{} [ "?" := k ]
    ensures |multiset(Pad(k))| == k
  {
    if k > 0 {
      assert Pad(k) == Pad(k - 1) + ["?"];
      PadMultiset(k - 1);
    }
  }

  /** Some sequence lists exactly the elements of a multiset. */
  lemma {:induction false} Listing(m: multiset<string>) returns (s: seq<string>)
    ensures multiset(s) == m
    decreases |m|
  {
    if m == multiset{} {
      s := [];
    } else {
      var x :| x in m;
      var rest := Listing(m[x := m[x] - 1]);
      s := rest + [x];
      assert m == m[x := m[x] - 1] + multiset{x};
    }
  }

  /** Some sub-multiset of m has exactly k elements. */
  lemma {:induction false} SubOfSize(m: multiset<string>, k: nat) returns (s: seq<string>)
    requires k <= |m|
    ensures |s| == k && multiset(s) <= m
    decreases k
  {
    if k == 0 {
      s := [];
    } else {
      var x :| x in m;
      var rest := SubOfSize(m[x := m[x] - 1], k - 1);
      s := rest + [x];
      assert multiset(s) == multiset(rest) + multiset{x};
    }
  }

  /** Every source and size admit a draw. */
  lemma DrawExists(source: multiset<string>, needed: nat)
    ensures exists texts :: ValidDraw(source, needed, texts)
  {
    if |source| < needed {
      PadMultiset(needed - |source|);
      var s := Listing(source + multiset(Pad(needed - |source|)));
      assert |s| == |multiset(s)|;
      assert ValidDraw(source, needed, s);
    } else {
      var s := SubOfSize(source, needed);
      assert ValidDraw(source, needed, s);
    }
  }

  /** Every drawn text is one of the words or the "?" filler, and "?" only
      appears beyond the words when they are too few. */
  lemma DrawProvenance(source: multiset<string>, needed: nat, texts: seq<string>)
    requires ValidDraw(source, needed, texts)
    ensures forall t :: t in texts ==> t in source || t == "?"
    ensures |source| >= needed ==> forall t :: t in texts ==> t in source
  {
    forall t | t in texts
      ensures t in source || t == "?"
    {
      assert t in multiset(texts);
      if |source| < needed && t !in source {
        assert t in multiset(Pad(needed - |source|));
      }
    }
    if |source| >= needed {
      forall t | t in texts
        ensures t in source
      {
        assert t in multiset(texts);
      }
    }
  }

  function FreshCells(texts: seq<string>): (r: seq<Cell>)
    ensures |r| == |texts| && forall i :: 0 <= i < |r| ==> r[i] == Cell(texts[i], {})
  {
    seq(|texts|, i requires 0 <= i < |texts| => Cell(texts[i], {}))
  }

  function FreshLockCells(texts: seq<string>): (r: seq<LockCell>)
    ensures |r| == |texts| && forall i :: 0 <= i < |r| ==> r[i] == LockCell(texts[i], false, None, None)
  {
    seq(|texts|, i requires 0 <= i < |texts| => LockCell(texts[i], false, None, None))
  }

  function Texts(cells: seq<Cell>): (r: seq<string>)
    ensures |r| == |cells| && forall i :: 0 <= i < |r| ==> r[i] == cells[i].text
  {
    seq(|cells|, i requires 0 <= i < |cells| => cells[i].text)
  }

  function LockTexts(cells: seq<LockCell>): (r: seq<string>)
    ensures |r| == |cells| && forall i :: 0 <= i < |r| ==> r[i] == cells[i].text
  {
    seq(|cells|, i requires 0 <= i < |cells| => cells[i].text)
  }

  /** The owner board `now` (initialized when `nowInit`) after a change to
      `marked` is published. `broadcast_bingo_field` prepares the board again
      when it reaches a player (`redrawn`): a board that was not initialized
      (`wasInit`) is then replaced by an all-"?" board when there are no
      words, or by a fresh draw, and the change is lost. Otherwise the board
      is `marked`. */
  predicate Republished(cfg: BingoConfig, known: set<string>, marked: seq<Cell>, wasInit: bool, redrawn: bool,
                        now: seq<Cell>, nowInit: bool)
  {
    if wasInit || !redrawn then now == marked && nowInit == wasInit
    else if Source(cfg, known) == multiset{} then !nowInit && now == FreshCells(Pad(CellCount(cfg.size)))
    else nowInit && ValidDraw(Source(cfg, known), CellCount(cfg.size), Texts(now)) && now == FreshCells(Texts(now))
  }

  /** The same for the Lockout board. */
  predicate LockRepublished(cfg: BingoConfig, known: set<string>, marked: seq<LockCell>, wasInit: bool, redrawn: bool,
                            now: seq<LockCell>, nowInit: bool)
  {
    if wasInit || !redrawn then now == marked && nowInit == wasInit
    else if Source(cfg, known) == multiset{} then !nowInit && now == FreshLockCells(Pad(CellCount(cfg.size)))
    else nowInit && ValidDraw(Source(cfg, known), CellCount(cfg.size), LockTexts(now)) && now == FreshLockCells(LockTexts(now))
  }

  // ---------------------------------------------------------------------
  // Clicks, automatic marking, Lockout claims
  // ---------------------------------------------------------------------

  /** A click on a cell the clicker may mark changes something unless the
      clicker does not own it yet and lockout keeps it for its owner. */
  predicate ClickChanges(c: Cell, uuid: string, lockout: bool)
  {
    uuid in c.owners || !(lockout && c.owners != {})
  }

  /** The toggle of bingo.py:143-153. */
  function Toggle(c: Cell, uuid: string, lockout: bool): Cell
  {
    if uuid in c.owners then Cell(c.text, c.owners - {uuid})
    else if lockout && c.owners != {} then c
    else Cell(c.text, c.owners + {uuid})
  }

  /** A click flips the clicker's membership of that one cell's owners
      unless lockout refuses it, and never touches another player. */
  lemma ToggleMeaning(c: Cell, uuid: string, lockout: bool)
    ensures var t := Toggle(c, uuid, lockout);
      t.text == c.text
      && (ClickChanges(c, uuid, lockout) <==> t != c)
      && (ClickChanges(c, uuid, lockout) ==> (uuid in t.owners <==> uuid !in c.owners))
      && (t.owners - {uuid} == c.owners - {uuid})
      && (lockout && |c.owners| <= 1 ==> |t.owners| <= 1)
  {
    var t := Toggle(c, uuid, lockout);
    if uuid !in c.owners && !(lockout && c.owners != {}) {
      assert uuid in t.owners && uuid !in c.owners;
      if lockout {
        assert c.owners == {};
        assert t.owners == {uuid};
      }
    }
  }

  /** Two clicks by the same player on an unlocked cell cancel out. */
  lemma ToggleTwice(c: Cell, uuid: string)
    ensures Toggle(Toggle(c, uuid, false), uuid, false) == c
  {
  }

  /** Automatic marking of one cell (bingo.py:169-179). */
  function Mark(c: Cell, uuid: string, name: Json, lockout: bool): Cell
  {
    if JStr(c.text) == name && uuid !in c.owners && !(lockout && c.owners != {}) then Cell(c.text, c.owners + {uuid})
    else c
  }

  /** The whole board after automatic marking. */
  function Progressed(cells: seq<Cell>, uuid: string, name: Json, lockout: bool): (r: seq<Cell>)
    ensures |r| == |cells| && forall i :: 0 <= i < |r| ==> r[i] == Mark(cells[i], uuid, name, lockout)
  {
    seq(|cells|, i requires 0 <= i < |cells| => Mark(cells[i], uuid, name, lockout))
  }

  /** Marking adds the player to every cell showing the name unless lockout
      keeps it for someone else, and changes nothing else; owners are never
      removed and doing it again changes nothing. */
  lemma ProgressedMeaning(cells: seq<Cell>, uuid: string, name: Json, lockout: bool, i: int)
    requires 0 <= i < |cells|
    ensures var r := Progressed(cells, uuid, name, lockout);
      r[i].text == cells[i].text
      && cells[i].owners <= r[i].owners
      && (JStr(cells[i].text) == name && !(lockout && cells[i].owners - {uuid} != {}) ==> uuid in r[i].owners)
      && (JStr(cells[i].text) != name ==> r[i] == cells[i])
      && (r[i].owners - {uuid} == cells[i].owners - {uuid})
      && (lockout && |cells[i].owners| <= 1 ==> |r[i].owners| <= 1)
  {
    var c := cells[i];
    if JStr(c.text) == name && uuid !in c.owners && !(lockout && c.owners != {}) && lockout {
      assert c.owners == {};
      assert Progressed(cells, uuid, name, lockout)[i].owners == {uuid};
    }
  }

  lemma ProgressedIdempotent(cells: seq<Cell>, uuid: string, name: Json, lockout: bool)
    ensures Progressed(Progressed(cells, uuid, name, lockout), uuid, name, lockout) == Progressed(cells, uuid, name, lockout)
  {
  }

  /** The colour `_get_color` gives a claimer: the player's own colour while
      connected, black otherwise. */
  function ColourOf(d: Directory, uuid: string): Colour
  {
    if uuid in d.players then PlayerColour(uuid) else Fallback("#000000")
  }

  /** A Lockout claim of one cell (lockout_bingo.py:100-104). */
  function Claim(c: LockCell, uuid: string, name: Json, colour: Colour): LockCell
  {
    if JStr(c.text) == name && !c.done then LockCell(c.text, true, Some(colour), Some(uuid)) else c
  }

  function Claimed(cells: seq<LockCell>, uuid: string, name: Json, colour: Colour): (r: seq<LockCell>)
    ensures |r| == |cells| && forall i :: 0 <= i < |r| ==> r[i] == Claim(cells[i], uuid, name, colour)
  {
    seq(|cells|, i requires 0 <= i < |cells| => Claim(cells[i], uuid, name, colour))
  }

  /** Claiming takes every open cell showing the name for the claimer, leaves
      a done cell exactly as it was, and keeps done in step with owner. */
  lemma ClaimedMeaning(cells: seq<LockCell>, uuid: string, name: Json, colour: Colour, i: int)
    requires 0 <= i < |cells|
    ensures var r := Claimed(cells, uuid, name, colour);
      r[i].text == cells[i].text
      && (cells[i].done ==> r[i] == cells[i])
      && (!cells[i].done && JStr(cells[i].text) == name ==> r[i].done && r[i].owner == Some(uuid) && r[i].doneColour == Some(colour))
      && (JStr(cells[i].text) != name ==> r[i] == cells[i])
      && ((cells[i].done <==> cells[i].owner.Some?) ==> (r[i].done <==> r[i].owner.Some?))
  {
  }

  /** A second claim, by anybody, changes nothing a first claim took. */
  lemma ClaimsAreFinal(cells: seq<LockCell>, u: string, v: string, name: Json, cu: Colour, cv: Colour)
    ensures var once := Claimed(cells, u, name, cu);
      Claimed(once, v, name, cv) == once
  {
  }

  // ---------------------------------------------------------------------
  // Board invariants
  // ---------------------------------------------------------------------

  /** Every owner of a Bingo cell holds an item named as the cell. */
  predicate Earned(cells: seq<Cell>, shares: bool, itemPools: map<string, seq<Item>>, sharedPool: seq<Item>)
  {
    forall i, u :: 0 <= i < |cells| && u in cells[i].owners ==> Holds(PoolIn(shares, itemPools, sharedPool, u), cells[i].text)
  }

  /** Pools that only grow keep every cell earned. */
  lemma EarnedKept(cells: seq<Cell>, shares: bool, p1: map<string, seq<Item>>, s1: seq<Item>, p2: map<string, seq<Item>>, s2: seq<Item>)
    requires Earned(cells, shares, p1, s1)
    requires forall u :: Grows(PoolIn(shares, p1, s1, u), PoolIn(shares, p2, s2, u))
    ensures Earned(cells, shares, p2, s2)
  {
    forall i, u | 0 <= i < |cells| && u in cells[i].owners
      ensures Holds(PoolIn(shares, p2, s2, u), cells[i].text)
    {
      HoldsGrows(PoolIn(shares, p1, s1, u), PoolIn(shares, p2, s2, u), cells[i].text);
    }
  }

  /** Under lockout a cell has at most one owner. */
  predicate SingleOwners(cells: seq<Cell>)
  {
    forall i :: 0 <= i < |cells| ==> |cells[i].owners| <= 1
  }

  /** A Lockout cell is done exactly when it has an owner. */
  predicate DoneOwned(cells: seq<LockCell>)
  {
    forall i :: 0 <= i < |cells| ==> (cells[i].done <==> cells[i].owner.Some?)
  }

  /** A toggle by a player holding the item keeps the board earned. */
  lemma EarnedToggle(cells: seq<Cell>, i: int, uuid: string, lockout: bool, shares: bool, pools: map<string, seq<Item>>, shared: seq<Item>)
    requires 0 <= i < |cells| && Earned(cells, shares, pools, shared)
    requires Holds(PoolIn(shares, pools, shared, uuid), cells[i].text)
    ensures Earned(cells[i := Toggle(cells[i], uuid, lockout)], shares, pools, shared)
    ensures lockout && SingleOwners(cells) ==> SingleOwners(cells[i := Toggle(cells[i], uuid, lockout)])
  {
    ToggleMeaning(cells[i], uuid, lockout);
  }

  /** Marking one cell for a player holding an item of that name keeps the
      board earned. */
  lemma EarnedMark(cells: seq<Cell>, i: int, uuid: string, name: Json, lockout: bool, shares: bool, pools: map<string, seq<Item>>, shared: seq<Item>)
    requires 0 <= i < |cells| && Earned(cells, shares, pools, shared)
    requires forall t :: name == JStr(t) ==> Holds(PoolIn(shares, pools, shared, uuid), t)
    ensures Earned(cells[i := Mark(cells[i], uuid, name, lockout)], shares, pools, shared)
    ensures lockout && SingleOwners(cells) ==> SingleOwners(cells[i := Mark(cells[i], uuid, name, lockout)])
  {
    var c := cells[i];
    if JStr(c.text) == name && uuid !in c.owners && lockout && c.owners == {} {
      assert Mark(c, uuid, name, lockout).owners == {uuid};
    }
  }

  /** Automatic marking by a player who holds the name keeps the board
      earned, keeps every text and keeps lockout's single owners. */
  lemma EarnedProgressed(cells: seq<Cell>, uuid: string, name: Json, lockout: bool, shares: bool, pools: map<string, seq<Item>>, shared: seq<Item>)
    requires Earned(cells, shares, pools, shared)
    requires forall t :: name == JStr(t) ==> Holds(PoolIn(shares, pools, shared, uuid), t)
    ensures Earned(Progressed(cells, uuid, name, lockout), shares, pools, shared)
    ensures Texts(Progressed(cells, uuid, name, lockout)) == Texts(cells)
    ensures lockout && SingleOwners(cells) ==> SingleOwners(Progressed(cells, uuid, name, lockout))
  {
    var r := Progressed(cells, uuid, name, lockout);
    forall i | 0 <= i < |cells|
      ensures r[i].text == cells[i].text
      ensures forall u :: u in r[i].owners ==> Holds(PoolIn(shares, pools, shared, u), r[i].text)
      ensures lockout && |cells[i].owners| <= 1 ==> |r[i].owners| <= 1
    {
      ProgressedMeaning(cells, uuid, name, lockout, i);
    }
  }

  /** Claims keep done in step with owner and keep every text. */
  lemma DoneOwnedClaimed(cells: seq<LockCell>, uuid: string, name: Json, colour: Colour)
    requires DoneOwned(cells)
    ensures DoneOwned(Claimed(cells, uuid, name, colour))
    ensures LockTexts(Claimed(cells, uuid, name, colour)) == LockTexts(cells)
  {
    var r := Claimed(cells, uuid, name, colour);
    forall i | 0 <= i < |cells|
      ensures r[i].text == cells[i].text && (r[i].done <==> r[i].owner.Some?)
    {
      ClaimedMeaning(cells, uuid, name, colour, i);
    }
  }

  /** The invariant of a mode's boards: every owner of a Bingo cell holds
      the cell's word, lockout keeps one owner per cell, a Lockout cell is
      done exactly when it has an owner, and a board has its n*n cells once
      initialized and is empty or all "?" before. */
  predicate BoardsValid(kind: Kind, cells: seq<Cell>, lockCells: seq<LockCell>,
                        itemPools: map<string, seq<Item>>, sharedPool: seq<Item>, initialized: bool)
  {
    (OwnerBoard(kind) ==>
       Earned(cells, SharesPool(kind), itemPools, sharedPool)
       && (kind.cfg.lockout ==> SingleOwners(cells))
       && (initialized ==> |cells| == CellCount(kind.cfg.size))
       && (!initialized ==> cells == [] || Texts(cells) == Pad(CellCount(kind.cfg.size))))
    && (kind.LockoutBingo? ==>
       DoneOwned(lockCells)
       && (initialized ==> |lockCells| == CellCount(kind.cfg.size))
       && (!initialized ==> lockCells == [] || LockTexts(lockCells) == Pad(CellCount(kind.cfg.size))))
  }

  // ---------------------------------------------------------------------
  // Countdown
  // ---------------------------------------------------------------------

  /** The remaining time is announced at whole minutes and in the last ten
      seconds. */
  predicate Announces(s: int)
  {
    s % 60 == 0 || s <= 10
  }

  /** The seconds announced while counting down from s to 1, in order. */
  function Beeps(s: int): seq<nat>
    decreases s
  {
    if s <= 0 then [] else (if Announces(s) then [s] else []) + Beeps(s - 1)
  }

  lemma {:induction false} BeepsMeaning(s: int)
    ensures forall k :: k in Beeps(s) <==> 1 <= k <= s && Announces(k)
    decreases s
  {
    if s > 0 {
      BeepsMeaning(s - 1);
    }
  }

  /** Counting down from s announces s div 60 whole minutes and the last
      min(s, 10) seconds. */
  lemma {:induction false} BeepCount(s: nat)
    ensures |Beeps(s)| == s / 60 + (if s < 10 then s else 10)
  {
    if s > 0 {
      BeepCount(s - 1);
      if s % 60 == 0 {
        assert s / 60 == (s - 1) / 60 + 1;
      } else {
        assert s / 60 == (s - 1) / 60;
      }
    }
  }

  /** The Lockout clock text `Zeit: MM:SS`. */
  function Clock(s: nat): string
  {
    "Zeit: " + TwoDigits(s / 60) + ":" + TwoDigits(s % 60)
  }

  /** Below 100 minutes the clock has the fixed shape `Zeit: MM:SS` and its
      two fields read back as minutes and seconds. */
  lemma ClockReadsBack(s: nat)
    requires s < 6000
    ensures var c := Clock(s);
      |c| == 11 && c[..6] == "Zeit: " && c[8] == ':'
      && (forall i :: 6 <= i < 11 && i != 8 ==> IsDigit(c[i]))
      && Value(c[6..8]) == s / 60 && Value(c[9..]) == s % 60
  {
    TwoDigitsRoundTrip(s / 60);
    TwoDigitsRoundTrip(s % 60);
    var c := Clock(s);
    assert c[6..8] == TwoDigits(s / 60);
    assert c[9..] == TwoDigits(s % 60);
  }

  // ---------------------------------------------------------------------
  // Winner texts
  // ---------------------------------------------------------------------

  const BingoReason: string := "BINGO! 5 in einer Reihe!"

  function AnnounceText(name: string, reason: string): string
  {
    "GEWINNER: " + name + " - " + reason
  }

  function MostItems(k: nat): string
  {
    "Meiste Items (" + Dec(k) + ")!"
  }

  function Names(d: Directory, us: seq<string>): (r: seq<string>)
    ensures |r| == |us| && forall i :: 0 <= i < |r| ==> r[i] == DisplayName(d, us[i])
  {
    seq(|us|, i requires 0 <= i < |us| => DisplayName(d, us[i]))
  }

  function DrawText(names: seq<string>, k: nat): string
  {
    "Unentschieden: " + Join(names, ", ") + " (" + Dec(k) + ")"
  }

  /** The news of Bingo's final check for owners listed in `order`: one
      leader is announced, several leaders draw, nobody means no hits. */
  function FinalNews(d: Directory, order: seq<string>, indices: map<string, set<int>>): string
    requires forall u :: u in order ==> u in indices
  {
    var top := MaxCount(order, indices);
    var leaders := WithCount(order, indices, top);
    if |leaders| == 1 then AnnounceText(DisplayName(d, leaders[0]), MostItems(top))
    else if |leaders| > 1 then DrawText(Names(d, leaders), top)
    else "Keine Treffer!"
  }

  /** No owners means no hits; otherwise a single leader is announced with
      its count, and several leaders produce a draw naming each of them. */
  lemma FinalNewsCases(d: Directory, order: seq<string>, indices: map<string, set<int>>)
    requires forall u :: u in order ==> u in indices
    ensures order == [] <==> FinalNews(d, order, indices) == "Keine Treffer!"
    ensures var top := MaxCount(order, indices);
      var leaders := WithCount(order, indices, top);
      (|leaders| == 1 ==> FinalNews(d, order, indices) == AnnounceText(DisplayName(d, leaders[0]), MostItems(top))
                          && forall v :: v in order && v != leaders[0] ==> |indices[v]| < |indices[leaders[0]]|)
      && (|leaders| > 1 ==> FinalNews(d, order, indices) == DrawText(Names(d, leaders), top))
  {
    LeadersOutcome(order, indices);
    var top := MaxCount(order, indices);
    var leaders := WithCount(order, indices, top);
    if |leaders| > 1 {
      assert FinalNews(d, order, indices)[..15] == "Unentschieden: ";
    } else if |leaders| == 1 {
      assert FinalNews(d, order, indices)[..10] == "GEWINNER: ";
      assert leaders[0] in leaders;
    }
  }

  /** The first owner, in `order`, whose cells make a line. */
  function FirstWithLine(n: int, order: seq<string>, indices: map<string, set<int>>): (r: Option<string>)
    requires forall u :: u in order ==> u in indices
    ensures r.Some? ==> r.value in order && HasLine(n, indices[r.value])
    ensures r.None? ==> forall u :: u in order ==> !HasLine(n, indices[u])
  {
    if order == [] then None
    else if HasLine(n, indices[order[0]]) then Some(order[0])
    else FirstWithLine(n, order[1..], indices)
  }
  // ---------------------------------------------------------------------
  // Winner checks: what `check_winner` announces and decides
  // ---------------------------------------------------------------------

  /** The players listed. */
  function Elems(us: seq<string>): set<string>
  {
    set u | u in us
  }

  /** The players of `order`, in order, not yet in `before` whose cells make
      a line: the new Bingo winners of one check. */
  function NewLines(n: int, order: seq<string>, indices: map<string, set<int>>, before: set<string>): (r: seq<string>)
    requires forall u :: u in order ==> u in indices
    ensures forall u :: u in r ==> u in order && u !in before && HasLine(n, indices[u])
  {
    if order == [] then []
    else
      var init := NewLines(n, order[..|order| - 1], indices, before);
      var last := order[|order| - 1];
      if last !in before && HasLine(n, indices[last]) then init + [last] else init
  }

  /** Every listed player with a line who was not a winner before is new. */
  lemma {:induction false} NewLinesComplete(n: int, order: seq<string>, indices: map<string, set<int>>, before: set<string>)
    requires forall u :: u in order ==> u in indices
    ensures forall u :: u in order && u !in before && HasLine(n, indices[u]) ==> u in NewLines(n, order, indices, before)
  {
    if order != [] {
      NewLinesComplete(n, order[..|order| - 1], indices, before);
      assert forall u :: u in order ==> u in order[..|order| - 1] || u == order[|order| - 1];
    }
  }

  /** The new winners among a prefix of the players come first among all. */
  lemma {:induction false} NewLinesPrefix(n: int, order: seq<string>, indices: map<string, set<int>>, before: set<string>, k: nat)
    requires forall u :: u in order ==> u in indices
    requires k <= |order|
    ensures var all := NewLines(n, order, indices, before);
      var pre := NewLines(n, order[..k], indices, before);
      |pre| <= |all| && all[..|pre|] == pre
    decreases |order| - k
  {
    if k < |order| {
      var init := order[..|order| - 1];
      assert init[..k] == order[..k];
      NewLinesPrefix(n, init, indices, before, k);
    } else {
      assert order[..k] == order;
    }
  }

  lemma NewLinesStep(n: int, order: seq<string>, indices: map<string, set<int>>, before: set<string>, k: nat)
    requires forall u :: u in order ==> u in indices
    requires k < |order|
    ensures NewLines(n, order[..k + 1], indices, before) ==
      NewLines(n, order[..k], indices, before) + (if order[k] !in before && HasLine(n, indices[order[k]]) then [order[k]] else [])
  {
    assert order[..k + 1][..k] == order[..k];
  }

  /** The news of each announcement, as broadcast. */
  function Announcements(d: Directory, us: seq<string>, reason: string): (r: seq<Sent>)
    ensures |r| == |us|
  {
    if us == [] then []
    else Announcements(d, us[..|us| - 1], reason) + [Send(News(AnnounceText(DisplayName(d, us[|us| - 1]), reason)), None)]
  }

  lemma AnnouncementsAppend(d: Directory, us: seq<string>, u: string, reason: string)
    ensures Announcements(d, us + [u], reason) == Announcements(d, us, reason) + Announcements(d, [u], reason)
  {
    assert (us + [u])[..|us|] == us;
    assert [u][..0] == [];
  }

  /** One more winner of the list announced: the next prefix. */
  lemma AnnouncedPrefix(d: Directory, won: seq<string>, k: nat, reason: string)
    requires k < |won|
    ensures Announcements(d, won[..k + 1], reason) == Announcements(d, won[..k], reason) + Announcements(d, [won[k]], reason)
    ensures Elems(won[..k + 1]) == Elems(won[..k]) + {won[k]}
  {
    assert won[..k + 1] == won[..k] + [won[k]];
    AnnouncementsAppend(d, won[..k], won[k], reason);
  }

  /** The indices owned by each listed player, as `check_winner` collects
      them: the listed players are exactly the owners, once each. */
  predicate Tallied(cells: seq<Cell>, order: seq<string>, indices: map<string, set<int>>)
  {
    Distinct(order)
    && (set u | u in order) == indices.Keys == Owners(cells)
    && (forall u :: u in indices ==> indices[u] == OwnedBy(cells, u))
    && FirstSeen(cells, order)
  }

  /** The same for Lockout owners. */
  predicate LockTallied(cells: seq<LockCell>, order: seq<string>, indices: map<string, set<int>>)
  {
    Distinct(order)
    && (set u | u in order) == indices.Keys == LockOwnersUpTo(cells, |cells|)
    && (forall u :: u in indices ==> indices[u] == LockOwnedUpTo(cells, |cells|, u))
    && LockFirstSeen(cells, order)
  }

  /** A Lockout board determines its tally: the owner order and each
      owner's cells. */
  lemma LockTallyUnique(cells: seq<LockCell>, order: seq<string>, indices: map<string, set<int>>,
                        order': seq<string>, indices': map<string, set<int>>)
    requires LockTallied(cells, order, indices) && LockTallied(cells, order', indices')
    ensures order == order' && indices == indices'
  {
    LockOrderUnique(cells, order, order');
  }

  /** The outcome of Bingo's `check_winner` with winners `w0` and timer `t0`
      before it: every player of the tally with a line who had not won is
      announced and joins the winners, in tally order, except that with
      end-on-bingo the first one ends the game and the check; the final check
      adds the tally news. */
  predicate BingoChecked(cfg: BingoConfig, final: bool, d: Directory, sent: seq<Sent>, order: seq<string>, indices: map<string, set<int>>,
                         w0: set<string>, t0: bool, winners: set<string>, timerActive: bool)
    requires forall u :: u in order ==> u in indices
  {
    var won := NewLines(cfg.size, order, indices, w0);
    if cfg.endOnBingo && won != [] then
      winners == w0 + {won[0]} && !timerActive && sent == Announcements(d, won[..1], BingoReason)
    else
      winners == w0 + Elems(won) && timerActive == t0
      && sent == Announcements(d, won, BingoReason) + (if final then [Send(News(FinalNews(d, order, indices)), None)] else [])
  }

  /** The outcome of Lockout's `check_winner` with timer `t0` before it: the
      first owner with a line wins and stops the game; otherwise the final
      check names the first player at the top count, or declares a draw when
      nobody owns a cell. */
  predicate LockoutChecked(cfg: BingoConfig, final: bool, d: Directory, sent: seq<Sent>, order: seq<string>, indices: map<string, set<int>>,
                           t0: bool, timerActive: bool)
    requires forall u :: u in order ==> u in indices
  {
    match FirstWithLine(cfg.size, order, indices)
    case Some(w) => sent == Announcements(d, [w], BingoReason) && !timerActive
    case None =>
      if !final then sent == [] && timerActive == t0
      else match FirstLeader(order, indices)
        case Some(w) => sent == Announcements(d, [w], MostItems(MaxCount(order, indices))) && !timerActive
        case None => sent == [Send(News("Unentschieden!"), None)] && timerActive == t0
  }

  /** The winner check after the fields of a board change went to the
      roster, given the winners `w0`, the timer `t0` and the countdown `l0`
      before it: the first field starts the timer (and the countdown of a
      timed Bingo or of Lockout), then `more` is what the check over the
      tally of the new board sends and decides. */
  predicate Rechecked(kind: Kind, timerSeconds: int, cells: seq<Cell>, lockCells: seq<LockCell>, d: Directory, more: seq<Sent>,
                      order: seq<string>, indices: map<string, set<int>>, w0: set<string>, t0: bool, l0: bool,
                      winners: set<string>, timerActive: bool, loopRunning: bool)
    requires HasField(kind)
  {
    loopRunning == (l0 || (!t0 && d.order != [] && (kind.LockoutBingo? || timerSeconds > 0)))
    && if OwnerBoard(kind) then
         Tallied(cells, order, indices)
         && BingoChecked(kind.cfg, false, d, more, order, indices, w0, t0 || d.order != [], winners, timerActive)
       else
         winners == w0 && LockTallied(lockCells, order, indices)
         && LockoutChecked(kind.cfg, false, d, more, order, indices, t0 || d.order != [], timerActive)
  }

  /** The board after the player `uuid` gains `it`, from the board `c0`,
      `l0`, `i0` before: automatic Bingo marks and Lockout claims the cells
      showing the item's name, and a change is published (see Republished).
      Other boards are left alone. */
  predicate ItemMarked(kind: Kind, uuid: string, it: Item, d: Directory, known: set<string>,
                       c0: seq<Cell>, l0: seq<LockCell>, i0: bool, cells: seq<Cell>, lockCells: seq<LockCell>, initialized: bool)
  {
    (OwnerBoard(kind) && !kind.cfg.manual ==>
      var marked := Progressed(c0, uuid, it.name, kind.cfg.lockout);
      Republished(kind.cfg, known, marked, i0, d.order != [] && marked != c0, cells, initialized))
    && (kind.LockoutBingo? ==>
      var claimed := Claimed(l0, uuid, it.name, ColourOf(d, uuid));
      LockRepublished(kind.cfg, known, claimed, i0, d.order != [] && claimed != l0, lockCells, initialized))
  }

  /** Whether the player `uuid` gaining `it` changes the board: automatic
      Bingo marks a cell or Lockout claims one. */
  predicate MarksChange(kind: Kind, uuid: string, it: Item, d: Directory, cells: seq<Cell>, lockCells: seq<LockCell>)
  {
    if OwnerBoard(kind) then !kind.cfg.manual && Progressed(cells, uuid, it.name, kind.cfg.lockout) != cells
    else kind.LockoutBingo? && Claimed(lockCells, uuid, it.name, ColourOf(d, uuid)) != lockCells
  }
}
