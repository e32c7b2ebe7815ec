/** The gamemode engine of gamemodes/: one class covering the five modes
    (Classic, Shared, Bingo, Shared-Bingo, Lockout-Bingo), told apart by its
    `kind`. Every operation returns the messages it asked `send` to deliver,
    in order. The controller's player directory and the cache's item names
    are passed in where the mode reads them. */
module Gamemodes {
  import opened Util
  import opened JsonValue
  import opened Board
  import opened Templates
  import opened Players
  import opened Pools
  import opened Rules

  /** One item list per listed player, all of the same pool. */
  function ItemsTo(pool: seq<Item>, roster: seq<string>): (r: seq<Sent>)
    ensures |r| == |roster|
  {
    if roster == [] then []
    else ItemsTo(pool, roster[..|roster| - 1]) + [Send(Items(pool), Some(roster[|roster| - 1]))]
  }

  /** The cells as one viewer sees them. */
  function Views(cells: seq<Cell>, uuid: string): (r: seq<CellView>)
    ensures |r| == |cells|
  {
    if cells == [] then []
    else
      var c := cells[|cells| - 1];
      Views(cells[..|cells| - 1], uuid) + [CellView(c.text, uuid in c.owners, c.owners)]
  }

  /** `get_bingo_field(uuid)`: each Bingo cell shows its text, whether the
      viewer owns it and who coloured it; Lockout sends its cells as they
      are. */
  function FieldOf(kind: Kind, cells: seq<Cell>, lockCells: seq<LockCell>, uuid: string): Field
    requires HasField(kind)
  {
    if OwnerBoard(kind) then SharedField(kind.cfg.size, Views(cells, uuid))
    else LockoutField(kind.cfg.size, lockCells)
  }

  /** One field message per listed player. */
  function FieldsTo(kind: Kind, cells: seq<Cell>, lockCells: seq<LockCell>, roster: seq<string>): (r: seq<Sent>)
    requires HasField(kind)
    ensures |r| == |roster|
  {
    if roster == [] then []
    else
      var u := roster[|roster| - 1];
      FieldsTo(kind, cells, lockCells, roster[..|roster| - 1]) + [Send(Msg.Bingo(FieldOf(kind, cells, lockCells, u)), Some(u))]
  }

  class Gamemode {
    const kind: Kind
    /** `mode_name`. */
    const modeName: string
    /** Classic's `item_pools` (also loaded, unused, by Shared-Bingo). */
    var itemPools: map<string, seq<Item>>
    /** `shared_item_pool` of Shared and Shared-Bingo. */
    var sharedPool: seq<Item>
    /** How often the pools were written to disk. */
    var saves: nat
    /** `shared_cells` of Bingo and Shared-Bingo. */
    var cells: seq<Cell>
    /** `shared_cells` of Lockout-Bingo. */
    var lockCells: seq<LockCell>
    var winners: set<string>
    var timerSeconds: int
    var timerActive: bool
    /** A countdown task exists and has not finished. */
    var loopRunning: bool
    var initialized: bool

    /** `bingo_size`. */
    function Size(): int
    {
      if HasField(kind) then kind.cfg.size else 0
    }

    /** The number of cells of a drawn board. */
    function N(): nat
    {
      CellCount(Size())
    }

    /** The lockout setting of an owner-set board. */
    predicate Locks()
    {
      OwnerBoard(kind) && kind.cfg.lockout
    }

    function Pool(uuid: string): seq<Item>
      reads this`itemPools, this`sharedPool
    {
      PoolIn(SharesPool(kind), itemPools, sharedPool, uuid)
    }

    ghost predicate Valid()
      reads this`cells, this`lockCells, this`itemPools, this`sharedPool, this`initialized
    {
      BoardsValid(kind, cells, lockCells, itemPools, sharedPool, initialized)
    }

    /** A new mode. `stored` is the decoded pool file, None when it is
        missing or unreadable. */
    constructor (kind: Kind, stored: Option<Json>)
      ensures this.kind == kind && modeName == ModeName(kind)
      ensures itemPools == (if !kind.Shared? && stored.Some? then LoadedPools(stored.value) else map[])
      ensures sharedPool == (if kind.Shared? then LoadedSharedPool(stored) else DefaultPool())
      ensures saves == (if kind.Shared? then 1 else 0)
      ensures cells == [] && lockCells == [] && winners == {} && !initialized
      ensures timerSeconds == (if HasField(kind) then kind.cfg.timer else 0) && !timerActive && !loopRunning
      ensures Valid()
    {
      this.kind := kind;
      modeName := ModeName(kind);
      itemPools := if !kind.Shared? && stored.Some? then LoadedPools(stored.value) else map[];
      sharedPool := if kind.Shared? then LoadedSharedPool(stored) else DefaultPool();
      saves := if kind.Shared? then 1 else 0;
      cells := [];
      lockCells := [];
      winners := {};
      timerSeconds := if HasField(kind) then kind.cfg.timer else 0;
      timerActive := false;
      loopRunning := false;
      initialized := false;
    }

    // -------------------------------------------------------------------
    // Item pools
    // -------------------------------------------------------------------

    /** The effect of `get_item_pool(uuid)`: a Classic-style mode creates the
        default pool on first access and saves; no player's pool changes. */
    twostate predicate PoolTouched(uuid: string)
      reads this
    {
      var created := !SharesPool(kind) && uuid !in old(itemPools);
      itemPools == (if created then old(itemPools)[uuid := DefaultPool()] else old(itemPools))
      && sharedPool == old(sharedPool)
      && saves == old(saves) + (if created then 1 else 0)
      && forall u :: Pool(u) == old(Pool(u))
    }

    method GetItemPool(uuid: string) returns (pool: seq<Item>)
      requires Valid()
      modifies this`itemPools, this`saves
      ensures Valid()
      ensures pool == old(Pool(uuid))
      ensures PoolTouched(uuid)
    {
      if SharesPool(kind) {
        pool := sharedPool;
        return;
      }
      if uuid !in itemPools {
        itemPools := itemPools[uuid := DefaultPool()];
        saves := saves + 1;
      }
      pool := itemPools[uuid];
      if OwnerBoard(kind) {
        forall u ensures Grows(old(Pool(u)), Pool(u)) {
          assert Pool(u) == old(Pool(u));
        }
        EarnedKept(cells, false, old(itemPools), sharedPool, itemPools, sharedPool);
      }
    }

    /** `add_item_to_pool` of Shared and Shared-Bingo: the shared pool gains
        the item when it is absent; Shared saves then, Shared-Bingo never. */
    method AddToSharedPool(it: Item)
      requires SharesPool(kind) && Valid()
      modifies this`sharedPool, this`saves
      ensures Valid()
      ensures sharedPool == AddIfAbsent(old(sharedPool), it)
      ensures saves == old(saves) + (if kind.SharedBingo? || it in old(sharedPool) then 0 else 1)
    {
      if it !in sharedPool {
        sharedPool := sharedPool + [it];
        if kind.Shared? {
          saves := saves + 1;
        }
      }
      if OwnerBoard(kind) {
        EarnedKept(cells, true, itemPools, old(sharedPool), itemPools, sharedPool);
      }
    }

    /** `add_item_to_pool` of Classic, Bingo and Lockout: the player's pool
        (created first when missing) gains the item when it is absent, and
        is saved then. */
    method AddToOwnPool(uuid: string, it: Item)
      requires !SharesPool(kind) && Valid()
      modifies this`itemPools, this`saves
      ensures Valid()
      ensures itemPools == old(itemPools)[uuid := AddIfAbsent(old(Pool(uuid)), it)]
      ensures saves == old(saves) + (if uuid !in old(itemPools) then 1 else 0) + (if it in old(Pool(uuid)) then 0 else 1)
    {
      var pool := GetItemPool(uuid);
      if it !in pool {
        itemPools := itemPools[uuid := pool + [it]];
        saves := saves + 1;
      }
      if OwnerBoard(kind) {
        forall u ensures Grows(old(Pool(u)), Pool(u)) {
          AddIfAbsentGrows(old(Pool(u)), it);
        }
        EarnedKept(cells, false, old(itemPools), sharedPool, itemPools, sharedPool);
      }
    }

    /** `add_item_to_pool`: the player's pool gains the item exactly when no
        equal entry is present; in Classic-style modes no other pool changes.
        Classic saves on creation and on every append, Shared on every
        append, Shared-Bingo never. */
    method AddItemToPool(uuid: string, it: Item)
      requires Valid()
      modifies this`itemPools, this`sharedPool, this`saves
      ensures Valid()
      ensures Pool(uuid) == AddIfAbsent(old(Pool(uuid)), it)
      ensures SharesPool(kind) ==> sharedPool == AddIfAbsent(old(sharedPool), it) && itemPools == old(itemPools)
      ensures !SharesPool(kind) ==>
        itemPools == old(itemPools)[uuid := AddIfAbsent(old(Pool(uuid)), it)] && sharedPool == old(sharedPool)
      ensures forall u :: Grows(old(Pool(u)), Pool(u))
      ensures saves == old(saves)
        + (if !SharesPool(kind) && uuid !in old(itemPools) then 1 else 0)
        + (if kind.SharedBingo? || it in old(Pool(uuid)) then 0 else 1)
    {
      if SharesPool(kind) {
        AddToSharedPool(it);
      } else {
        AddToOwnPool(uuid, it);
      }
      forall u ensures Grows(old(Pool(u)), Pool(u)) {
        AddIfAbsentGrows(old(Pool(u)), it);
      }
    }

    /** The item-list messages of `broadcast_item_list(uuid)`: the player's
        own pool to that player, or in the shared modes the shared pool to
        every connected player. */
    function ItemListMsgs(uuid: string, roster: seq<string>): (r: seq<Sent>)
      reads this`itemPools, this`sharedPool
      ensures SharesPool(kind) ==> |r| == |roster|
      ensures !SharesPool(kind) ==> |r| == 1
    {
      if SharesPool(kind) then ItemsTo(sharedPool, roster)
      else [Send(Items(Pool(uuid)), Some(uuid))]
    }

    method BroadcastItemList(uuid: string, d: Directory) returns (sent: seq<Sent>)
      requires Valid()
      modifies this`itemPools, this`saves
      ensures Valid()
      ensures PoolTouched(uuid)
      ensures sent == ItemListMsgs(uuid, d.order)
    {
      if SharesPool(kind) {
        sent := [];
        var k := 0;
        while k < |d.order|
          invariant 0 <= k <= |d.order|
          invariant sent == ItemsTo(sharedPool, d.order[..k])
        {
          assert d.order[..k + 1][..k] == d.order[..k];
          sent := sent + [Send(Items(sharedPool), Some(d.order[k]))];
          k := k + 1;
        }
        assert d.order[..k] == d.order;
      } else {
        var pool := GetItemPool(uuid);
        sent := [Send(Items(pool), Some(uuid))];
      }
    }

    // -------------------------------------------------------------------
    // The bingo field
    // -------------------------------------------------------------------

    function FieldFor(uuid: string): Field
      requires HasField(kind)
      reads this`cells, this`lockCells
    {
      FieldOf(kind, cells, lockCells, uuid)
    }

    /** The bingo-field messages for the players listed, none in a mode
        without a field. */
    function FieldMsgs(roster: seq<string>): (r: seq<Sent>)
      reads this`cells, this`lockCells
      ensures |r| == if HasField(kind) then |roster| else 0
    {
      if HasField(kind) then FieldsTo(kind, cells, lockCells, roster) else []
    }

    /** The board is all "?" with no marks. */
    predicate Blank()
      reads this`cells, this`lockCells
    {
      if OwnerBoard(kind) then cells == FreshCells(Pad(N())) else lockCells == FreshLockCells(Pad(N()))
    }

    /** The board is a fresh draw from the given words. */
    predicate Drawn(known: set<string>)
      requires HasField(kind)
      reads this`cells, this`lockCells
    {
      if OwnerBoard(kind) then ValidDraw(Source(kind.cfg, known), N(), Texts(cells)) && cells == FreshCells(Texts(cells))
      else ValidDraw(Source(kind.cfg, known), N(), LockTexts(lockCells)) && lockCells == FreshLockCells(LockTexts(lockCells))
    }

    /** The effect of `_ensure_initialized`: nothing once initialized;
        otherwise an all-"?" board that stays uninitialized when there are no
        words, or a fresh draw that initializes the board. */
    twostate predicate InitStep(known: set<string>)
      requires HasField(kind)
      reads this
    {
      (OwnerBoard(kind) ==> lockCells == old(lockCells))
      && (kind.LockoutBingo? ==> cells == old(cells))
      && if old(initialized) then initialized && cells == old(cells) && lockCells == old(lockCells)
         else if Source(kind.cfg, known) == multiset{} then !initialized && Blank()
         else initialized && Drawn(known)
    }

    /** The effect of `_ensure_started`: an inactive timer becomes active and
        a countdown is started unless one is still running (Bingo starts one
        only while time is left). */
    twostate predicate StartStep()
      reads this
    {
      if old(timerActive) then timerActive && loopRunning == old(loopRunning)
      else timerActive && loopRunning == (old(loopRunning) || kind.LockoutBingo? || timerSeconds > 0)
    }

    /** `b` is the owner board `_ensure_initialized` leaves: the old board
        once initialized, else an all-"?" board when there are no words, else
        a fresh draw. */
    twostate predicate Prepared(known: set<string>, b: seq<Cell>)
      requires OwnerBoard(kind)
      reads this
    {
      if old(initialized) then b == old(cells)
      else if Source(kind.cfg, known) == multiset{} then b == FreshCells(Pad(N()))
      else ValidDraw(Source(kind.cfg, known), N(), Texts(b)) && b == FreshCells(Texts(b))
    }

    /** A further `_ensure_initialized` and `_ensure_started` change nothing. */
    predicate Settled(known: set<string>)
      reads this
    {
      HasField(kind) && timerActive && (initialized || (Source(kind.cfg, known) == multiset{} && Blank()))
    }

    method EnsureInitialized(known: set<string>)
      requires HasField(kind) && Valid()
      modifies this`cells, this`lockCells, this`initialized
      ensures Valid()
      ensures InitStep(known)
    {
      if initialized {
        return;
      }
      var source := Source(kind.cfg, known);
      var needed := N();
      if source == multiset{} {
        if OwnerBoard(kind) {
          cells := FreshCells(Pad(needed));
          assert Texts(cells) == Pad(needed);
        } else {
          lockCells := FreshLockCells(Pad(needed));
          assert LockTexts(lockCells) == Pad(needed);
        }
        return;
      }
      DrawExists(source, needed);
      var texts :| ValidDraw(source, needed, texts);
      if OwnerBoard(kind) {
        cells := FreshCells(texts);
        assert Texts(cells) == texts;
      } else {
        lockCells := FreshLockCells(texts);
        assert LockTexts(lockCells) == texts;
      }
      initialized := true;
    }

    method EnsureStarted()
      requires HasField(kind)
      modifies this`timerActive, this`loopRunning
      ensures StartStep()
    {
      if !timerActive {
        timerActive := true;
        if (kind.LockoutBingo? || timerSeconds > 0) && !loopRunning {
          loopRunning := true;
        }
      }
    }

    /** `send_bingo_field(uuid)`: a mode without a field sends nothing;
        otherwise the board is prepared and the viewer's field is sent. */
    method SendBingoField(uuid: string, known: set<string>) returns (sent: seq<Sent>)
      requires Valid()
      modifies this`cells, this`lockCells, this`initialized, this`timerActive, this`loopRunning
      ensures Valid()
      ensures !HasField(kind) ==> unchanged(this)
      ensures HasField(kind) ==> InitStep(known) && StartStep() && Settled(known)
      ensures old(Settled(known)) ==> unchanged(this)
      ensures sent == FieldMsgs([uuid])
    {
      if !HasField(kind) {
        sent := [];
        return;
      }
      EnsureInitialized(known);
      EnsureStarted();
      sent := [Send(Msg.Bingo(FieldFor(uuid)), Some(uuid))];
    }

    /** The field messages for `roster[k0..]`, appended to those already
        sent for `roster[..k0]`. */
    method SendFieldsFrom(roster: seq<string>, k0: nat, sent0: seq<Sent>) returns (sent: seq<Sent>)
      requires HasField(kind) && k0 <= |roster| && sent0 == FieldMsgs(roster[..k0])
      ensures sent == FieldMsgs(roster)
    {
      sent := sent0;
      var k := k0;
      while k < |roster|
        invariant k0 <= k <= |roster|
        invariant sent == FieldMsgs(roster[..k])
      {
        assert roster[..k + 1][..k] == roster[..k];
        sent := sent + [Send(Msg.Bingo(FieldFor(roster[k])), Some(roster[k]))];
        k := k + 1;
      }
      assert roster[..k] == roster;
    }

    /** `broadcast_bingo_field`: the field to every connected player. */
    method BroadcastBingoField(d: Directory, known: set<string>) returns (sent: seq<Sent>)
      requires Valid()
      modifies this`cells, this`lockCells, this`initialized, this`timerActive, this`loopRunning
      ensures Valid()
      ensures !HasField(kind) || d.order == [] ==> unchanged(this)
      ensures HasField(kind) && d.order != [] ==> InitStep(known) && StartStep() && Settled(known)
      ensures OwnerBoard(kind) ==> Republished(kind.cfg, known, old(cells), old(initialized), d.order != [], cells, initialized) && lockCells == old(lockCells)
      ensures kind.LockoutBingo? ==> LockRepublished(kind.cfg, known, old(lockCells), old(initialized), d.order != [], lockCells, initialized) && cells == old(cells)
      ensures HasField(kind) ==>
        timerActive == (old(timerActive) || d.order != [])
        && loopRunning == (old(loopRunning) || (!old(timerActive) && d.order != [] && (kind.LockoutBingo? || timerSeconds > 0)))
      ensures sent == FieldMsgs(d.order)
    {
      if !HasField(kind) || d.order == [] {
        sent := [];
        return;
      }
      sent := SendBingoField(d.order[0], known);
      assert d.order[..1] == [d.order[0]];
      // The board is now settled: each further `send_bingo_field` only sends.
      sent := SendFieldsFrom(d.order, 1, sent);
    }
    // -------------------------------------------------------------------
    // Winners
    // -------------------------------------------------------------------

    /** `announce_winner`: broadcast `GEWINNER: <name> - <reason>` and stop
        the timer when asked (Lockout always asks). */
    method AnnounceWinner(uuid: string, reason: string, stopGame: bool, d: Directory) returns (sent: seq<Sent>)
      modifies this`timerActive
      ensures sent == Announcements(d, [uuid], reason)
      ensures timerActive == (old(timerActive) && !stopGame)
    {
      sent := [Send(News(AnnounceText(DisplayName(d, uuid), reason)), None)];
      if stopGame {
        timerActive := false;
      }
    }

    /** The tests of the first loop of Bingo's `check_winner`: the players
        of the tally, in order, who have not won yet and whose cells make a
        line. */
    method FindNewLines(order: seq<string>, indices: map<string, set<int>>) returns (won: seq<string>)
      requires OwnerBoard(kind) && forall u :: u in order ==> u in indices
      ensures won == NewLines(Size(), order, indices, winners)
    {
      var n := Size();
      won := [];
      var k := 0;
      while k < |order|
        invariant 0 <= k <= |order|
        invariant won == NewLines(n, order[..k], indices, winners)
      {
        NewLinesStep(n, order, indices, winners, k);
        var uid := order[k];
        if uid !in winners {
          var line := HasBingoIndices(n, indices[uid]);
          if line {
            won := won + [uid];
          }
        }
        k := k + 1;
      }
      assert order[..k] == order;
    }

    /** The effects of that loop: each new winner joins the winners and is
        announced with the given reason; with end-on-bingo the first one
        stops the game and the check (`stopped`). */
    method AnnounceLines(won: seq<string>, d: Directory, reason: string) returns (sent: seq<Sent>, stopped: bool)
      requires OwnerBoard(kind)
      modifies this`winners, this`timerActive
      ensures stopped == (kind.cfg.endOnBingo && won != [])
      ensures stopped ==> winners == old(winners) + {won[0]} && !timerActive && sent == Announcements(d, won[..1], reason)
      ensures !stopped ==>
        winners == old(winners) + Elems(won) && timerActive == old(timerActive) && sent == Announcements(d, won, reason)
    {
      var stopOnBingo := kind.cfg.endOnBingo;
      sent := [];
      var k := 0;
      while k < |won|
        invariant 0 <= k <= |won|
        invariant winners == old(winners) + Elems(won[..k])
        invariant sent == Announcements(d, won[..k], reason)
        invariant timerActive == old(timerActive)
        invariant stopOnBingo ==> k == 0
      {
        var uid := won[k];
        winners := winners + {uid};
        var msg := AnnounceWinner(uid, reason, stopOnBingo, d);
        AnnouncedPrefix(d, won, k, reason);
        sent := sent + msg;
        if stopOnBingo {
          return sent, true;
        }
        k := k + 1;
      }
      assert won[..k] == won;
      stopped := false;
    }

    /** The final part of Bingo's `check_winner`: one leader is announced
        without stopping, several draw, nobody means no hits. */
    method FinalTally(order: seq<string>, indices: map<string, set<int>>, d: Directory) returns (sent: seq<Sent>)
      requires forall u :: u in order ==> u in indices
      modifies this`timerActive
      ensures sent == [Send(News(FinalNews(d, order, indices)), None)]
      ensures timerActive == old(timerActive)
    {
      var maxCount, leaders := Leaders(order, indices);
      if |leaders| == 1 {
        sent := AnnounceWinner(leaders[0], MostItems(maxCount), false, d);
      } else if |leaders| > 1 {
        sent := [Send(News(DrawText(Names(d, leaders), maxCount)), None)];
      } else {
        sent := [Send(News("Keine Treffer!"), None)];
      }
    }

    /** Bingo's `check_winner`. `order` is the iteration order of the owner
        tally, `indices` the tally itself. */
    method CheckWinner(final: bool, d: Directory) returns (sent: seq<Sent>, order: seq<string>, indices: map<string, set<int>>)
      requires OwnerBoard(kind)
      modifies this`winners, this`timerActive
      ensures Tallied(cells, order, indices)
      ensures BingoChecked(kind.cfg, final, d, sent, order, indices, old(winners), old(timerActive), winners, timerActive)
    {
      order, indices := CollectOwners(cells);
      sent := CheckTally(final, d, order, indices);
    }

    /** `check_winner` once the tally is collected. */
    method CheckTally(final: bool, d: Directory, order: seq<string>, indices: map<string, set<int>>) returns (sent: seq<Sent>)
      requires OwnerBoard(kind) && Distinct(order) && forall u :: u in order ==> u in indices
      modifies this`winners, this`timerActive
      ensures BingoChecked(kind.cfg, final, d, sent, order, indices, old(winners), old(timerActive), winners, timerActive)
    {
      var won := FindNewLines(order, indices);
      var stopped;
      sent, stopped := AnnounceLines(won, d, BingoReason);
      if !stopped && final {
        var more := FinalTally(order, indices, d);
        sent := sent + more;
      }
    }

    /** The first loop of Lockout's `check_winner`: the first owner of the
        tally whose cells make a line. */
    method FindLine(order: seq<string>, indices: map<string, set<int>>) returns (w: Option<string>)
      requires forall u :: u in order ==> u in indices
      ensures w == FirstWithLine(Size(), order, indices)
    {
      var n := Size();
      var k := 0;
      while k < |order|
        invariant 0 <= k <= |order|
        invariant FirstWithLine(n, order, indices) == FirstWithLine(n, order[k..], indices)
      {
        assert order[k..][1..] == order[k + 1..];
        var line := HasBingoIndices(n, indices[order[k]]);
        if line {
          return Some(order[k]);
        }
        k := k + 1;
      }
      w := None;
    }

    /** Lockout's `check_winner`. */
    method CheckLockoutWinner(final: bool, d: Directory) returns (sent: seq<Sent>, order: seq<string>, indices: map<string, set<int>>)
      requires kind.LockoutBingo?
      modifies this`timerActive
      ensures LockTallied(lockCells, order, indices)
      ensures LockoutChecked(kind.cfg, final, d, sent, order, indices, old(timerActive), timerActive)
    {
      order, indices := CollectLockOwners(lockCells);
      sent := CheckLockTally(final, d, order, indices);
    }

    /** Lockout's `check_winner` once the tally is collected. */
    method CheckLockTally(final: bool, d: Directory, order: seq<string>, indices: map<string, set<int>>) returns (sent: seq<Sent>)
      requires kind.LockoutBingo? && forall u :: u in order ==> u in indices
      modifies this`timerActive
      ensures LockoutChecked(kind.cfg, final, d, sent, order, indices, old(timerActive), timerActive)
    {
      var lined := FindLine(order, indices);
      if lined.Some? {
        sent := AnnounceWinner(lined.value, BingoReason, true, d);
        return;
      }
      sent := [];
      if final {
        var maxCount, winner := FirstLeaderLoop(order, indices);
        // `if winner:` -- every owner in the tally is a non-empty id.
        if winner.Some? {
          sent := AnnounceWinner(winner.value, MostItems(maxCount), true, d);
        } else {
          sent := [Send(News("Unentschieden!"), None)];
        }
      }
    }

    // -------------------------------------------------------------------
    // Countdown
    // -------------------------------------------------------------------

    /** What one countdown step broadcasts at s seconds: Bingo sends the
        timer, Lockout the clock as news. */
    function TickMsg(s: nat): Sent
    {
      if OwnerBoard(kind) then Send(Timer(s), None) else Send(News(Clock(s)), None)
    }

    function TickMsgs(beeps: seq<nat>): (r: seq<Sent>)
      ensures |r| == |beeps|
    {
      if beeps == [] then [] else [TickMsg(beeps[0])] + TickMsgs(beeps[1..])
    }

    /** The messages of a countdown that runs out while active. */
    function TimeUpMsgs(): seq<Sent>
    {
      (if OwnerBoard(kind) then [Send(Timer(0), None)] else []) + [Send(News("Zeit abgelaufen!"), None)]
    }

    /** One pass of `game_loop`: while active with time left, the remaining
        seconds are announced at whole minutes and in the last ten seconds,
        then decremented; otherwise the loop ends, and if the game is still
        active the time-up news and the final check are sent and the game
        stops. */
    method Tick(d: Directory) returns (sent: seq<Sent>)
      requires HasField(kind) && loopRunning && Valid()
      modifies this`timerSeconds, this`timerActive, this`loopRunning, this`winners
      ensures Valid()
      ensures old(timerActive) && old(timerSeconds) > 0 ==>
        sent == (if Announces(old(timerSeconds)) then [TickMsg(old(timerSeconds))] else [])
        && timerSeconds == old(timerSeconds) - 1 && timerActive && loopRunning && winners == old(winners)
      ensures !old(timerActive) ==> sent == [] && !loopRunning && timerSeconds == old(timerSeconds) && winners == old(winners)
      ensures old(timerActive) && old(timerSeconds) <= 0 ==>
        !timerActive && !loopRunning && timerSeconds == old(timerSeconds)
        && |TimeUpMsgs()| <= |sent| && sent[..|TimeUpMsgs()|] == TimeUpMsgs()
        && old(winners) <= winners
    {
      if timerActive && timerSeconds > 0 {
        sent := if Announces(timerSeconds) then [TickMsg(timerSeconds)] else [];
        timerSeconds := timerSeconds - 1;
        return;
      }
      loopRunning := false;
      sent := [];
      if timerActive {
        ghost var more, order, indices, checkedTimer;
        sent, more, order, indices, checkedTimer := TimeUp(d);
      }
    }

    /** The end of `game_loop` when time ran out while active: the time-up
        messages, then the final check of the board (whose own effect on the
        timer is `checkedTimer`), and the game stops. */
    method TimeUp(d: Directory) returns (sent: seq<Sent>, ghost more: seq<Sent>, ghost order: seq<string>, ghost indices: map<string, set<int>>, ghost checkedTimer: bool)
      requires HasField(kind) && timerActive && Valid()
      modifies this`winners, this`timerActive
      ensures Valid() && !timerActive
      ensures sent == TimeUpMsgs() + more
      ensures OwnerBoard(kind) ==>
        Tallied(cells, order, indices)
        && BingoChecked(kind.cfg, true, d, more, order, indices, old(winners), true, winners, checkedTimer)
      ensures kind.LockoutBingo? ==>
        LockTallied(lockCells, order, indices) && winners == old(winners)
        && LockoutChecked(kind.cfg, true, d, more, order, indices, true, checkedTimer)
    {
      var check;
      if OwnerBoard(kind) {
        check, order, indices := CheckWinner(true, d);
      } else {
        check, order, indices := CheckLockoutWinner(true, d);
      }
      more := check;
      checkedTimer := timerActive;
      sent := TimeUpMsgs() + check;
      timerActive := false;
    }

    /** `stop`: a mode with a countdown deactivates the timer and cancels
        the countdown; the others only log. */
    method Stop()
      modifies this`timerActive, this`loopRunning
      ensures HasField(kind) ==> !timerActive && !loopRunning
      ensures !HasField(kind) ==> timerActive == old(timerActive) && loopRunning == old(loopRunning)
    {
      if HasField(kind) {
        timerActive := false;
        loopRunning := false;
      }
    }

    /** `finish` is `stop`. */
    method Finish()
      modifies this`timerActive, this`loopRunning
      ensures HasField(kind) ==> !timerActive && !loopRunning
      ensures !HasField(kind) ==> timerActive == old(timerActive) && loopRunning == old(loopRunning)
    {
      Stop();
    }
    // -------------------------------------------------------------------
    // Marking cells
    // -------------------------------------------------------------------

    /** The winner check (never the final one) that follows the fields
        `fields` broadcast after a board change. */
    method CheckAfterFields(d: Directory, fields: seq<Sent>, ghost w0: set<string>, ghost t0: bool, ghost l0: bool)
      returns (sent: seq<Sent>, ghost order: seq<string>, ghost indices: map<string, set<int>>)
      requires HasField(kind) && fields == FieldMsgs(d.order) && winners == w0
      requires timerActive == (t0 || d.order != [])
      requires loopRunning == (l0 || (!t0 && d.order != [] && (kind.LockoutBingo? || timerSeconds > 0)))
      modifies this`winners, this`timerActive
      ensures cells == old(cells) && lockCells == old(lockCells) && initialized == old(initialized)
      ensures PublishedCheck(d, sent, order, indices, w0, t0, l0)
    {
      var more;
      if OwnerBoard(kind) {
        more, order, indices := CheckWinner(false, d);
      } else {
        more, order, indices := CheckLockoutWinner(false, d);
      }
      sent := fields + more;
      assert sent[..|d.order|] == fields && sent[|d.order|..] == more;
    }

    /** What follows every change of a Bingo board: the field goes to every
        player, then the winners are checked. */
    method Publish(d: Directory, known: set<string>) returns (sent: seq<Sent>, ghost order: seq<string>, ghost indices: map<string, set<int>>)
      requires OwnerBoard(kind) && Valid()
      modifies this`cells, this`lockCells, this`initialized, this`timerActive, this`loopRunning, this`winners
      ensures Valid()
      ensures Republished(kind.cfg, known, old(cells), old(initialized), d.order != [], cells, initialized) && lockCells == old(lockCells)
      ensures PublishedCheck(d, sent, order, indices, old(winners), old(timerActive), old(loopRunning))
    {
      var fields := BroadcastBingoField(d, known);
      sent, order, indices := CheckAfterFields(d, fields, old(winners), old(timerActive), old(loopRunning));
    }

    /** The same after a Lockout claim. */
    method PublishLockout(d: Directory, known: set<string>) returns (sent: seq<Sent>, ghost order: seq<string>, ghost indices: map<string, set<int>>)
      requires kind.LockoutBingo? && Valid()
      modifies this`cells, this`lockCells, this`initialized, this`timerActive, this`loopRunning, this`winners
      ensures Valid()
      ensures LockRepublished(kind.cfg, known, old(lockCells), old(initialized), d.order != [], lockCells, initialized) && cells == old(cells)
      ensures PublishedCheck(d, sent, order, indices, old(winners), old(timerActive), old(loopRunning))
    {
      var fields := BroadcastBingoField(d, known);
      sent, order, indices := CheckAfterFields(d, fields, old(winners), old(timerActive), old(loopRunning));
    }

    /** The toggle of `handle_bingo_click` itself: the player's pool is
        fetched (and created when missing), and the membership flips when the
        player holds the cell's word and lockout does not refuse it. */
    method ToggleCell(uuid: string, i: int) returns (accepted: bool)
      requires OwnerBoard(kind) && Valid() && 0 <= i < |cells|
      modifies this`cells, this`itemPools, this`saves
      ensures Valid()
      ensures PoolTouched(uuid)
      ensures accepted == (Holds(old(Pool(uuid)), old(cells)[i].text) && ClickChanges(old(cells)[i], uuid, kind.cfg.lockout))
      ensures cells == if accepted then old(cells)[i := Toggle(old(cells)[i], uuid, kind.cfg.lockout)] else old(cells)
    {
      var pool := GetItemPool(uuid);
      if !Holds(pool, cells[i].text) {
        return false;
      }
      if uuid !in cells[i].owners && kind.cfg.lockout && cells[i].owners != {} {
        return false;
      }
      EarnedToggle(cells, i, uuid, kind.cfg.lockout, SharesPool(kind), itemPools, sharedPool);
      cells := cells[i := Toggle(cells[i], uuid, kind.cfg.lockout)];
      return true;
    }

    /** The part of `handle_bingo_click` after the index is known to be on
        the board: the click is accepted when the player holds the cell's
        word and the cell's membership can flip (lockout refuses a second
        owner). An accepted click flips the membership and publishes. */
    method ApplyClick(uuid: string, i: int, d: Directory, known: set<string>)
      returns (sent: seq<Sent>, ghost order: seq<string>, ghost indices: map<string, set<int>>)
      requires OwnerBoard(kind) && Valid() && 0 <= i < |cells|
      modifies this`cells, this`lockCells, this`initialized, this`timerActive, this`loopRunning, this`itemPools, this`saves, this`winners
      ensures Valid()
      ensures PoolTouched(uuid) && lockCells == old(lockCells)
      ensures var accepted := Holds(old(Pool(uuid)), old(cells)[i].text) && ClickChanges(old(cells)[i], uuid, kind.cfg.lockout);
        (accepted ==>
          Republished(kind.cfg, known, old(cells)[i := Toggle(old(cells)[i], uuid, kind.cfg.lockout)], old(initialized), d.order != [], cells, initialized)
          && PublishedCheck(d, sent, order, indices, old(winners), old(timerActive), old(loopRunning)))
        && (!accepted ==>
          cells == old(cells) && initialized == old(initialized) && sent == []
          && winners == old(winners) && timerActive == old(timerActive) && loopRunning == old(loopRunning))
    {
      sent, order, indices := [], [], map[];
      var accepted := ToggleCell(uuid, i);
      if accepted {
        sent, order, indices := Publish(d, known);
      }
    }

    /** The `_ensure_initialized` and `_ensure_started` that open a Bingo
        click: the board is prepared and the timer is running. */
    method Prepare(known: set<string>)
      requires OwnerBoard(kind) && Valid()
      modifies this`cells, this`lockCells, this`initialized, this`timerActive, this`loopRunning
      ensures Valid()
      ensures InitStep(known) && Prepared(known, cells)
      ensures initialized == (old(initialized) || Source(kind.cfg, known) != multiset{})
      ensures timerActive && loopRunning == (old(loopRunning) || (!old(timerActive) && timerSeconds > 0))
    {
      EnsureInitialized(known);
      EnsureStarted();
    }

    /** `handle_bingo_click` on a manual Bingo board. The board is prepared
        first (`before` is the board then); a click outside the board, on a
        cell whose word the player does not hold, or refused by lockout
        changes nothing further and sends nothing. Otherwise the clicker's
        membership of that cell flips, the field is broadcast and the
        winners are checked. */
    method ManualClick(uuid: string, index: Option<int>, d: Directory, known: set<string>)
      returns (sent: seq<Sent>, ghost before: seq<Cell>, ghost order: seq<string>, ghost indices: map<string, set<int>>)
      requires OwnerBoard(kind) && kind.cfg.manual && Valid()
      modifies this`cells, this`lockCells, this`initialized, this`timerActive, this`loopRunning, this`itemPools, this`saves, this`winners
      ensures Valid()
      ensures var accepted := index.Some? && 0 <= index.value < |before| && Holds(Pool(uuid), before[index.value].text)
                              && ClickChanges(before[index.value], uuid, kind.cfg.lockout);
        (accepted ==>
          Republished(kind.cfg, known, before[index.value := Toggle(before[index.value], uuid, kind.cfg.lockout)],
                      old(initialized) || Source(kind.cfg, known) != multiset{}, d.order != [], cells, initialized)
          && PublishedCheck(d, sent, order, indices, old(winners), true, old(loopRunning) || (!old(timerActive) && timerSeconds > 0)))
        && (!accepted ==> cells == before && initialized == (old(initialized) || Source(kind.cfg, known) != multiset{})
                          && sent == [] && winners == old(winners) && timerActive)
        && lockCells == old(lockCells)
        && forall u :: Pool(u) == old(Pool(u))
      ensures Prepared(known, before)
      ensures loopRunning == (old(loopRunning) || (!old(timerActive) && timerSeconds > 0))
      ensures index.Some? && 0 <= index.value < |before| ==> PoolTouched(uuid)
      ensures !(index.Some? && 0 <= index.value < |before|) ==> itemPools == old(itemPools) && saves == old(saves)
    {
      order, indices := [], map[];
      Prepare(known);
      before := cells;
      sent := [];
      if index.None? || index.value < 0 || index.value >= |cells| {
        return;
      }
      sent, order, indices := ApplyClick(uuid, index.value, d, known);
    }

    /** `handle_bingo_click`: only a manual Bingo board reacts (see
        ManualClick); every other mode ignores the click. */
    method HandleBingoClick(uuid: string, index: Option<int>, d: Directory, known: set<string>)
      returns (sent: seq<Sent>, ghost before: seq<Cell>, ghost order: seq<string>, ghost indices: map<string, set<int>>)
      requires Valid()
      modifies this`cells, this`lockCells, this`initialized, this`timerActive, this`loopRunning, this`itemPools, this`saves, this`winners
      ensures Valid()
      ensures !(OwnerBoard(kind) && kind.cfg.manual) ==> sent == [] && unchanged(this)
      ensures OwnerBoard(kind) && kind.cfg.manual ==>
        var accepted := index.Some? && 0 <= index.value < |before| && Holds(Pool(uuid), before[index.value].text)
                        && ClickChanges(before[index.value], uuid, kind.cfg.lockout);
        (accepted ==>
          Republished(kind.cfg, known, before[index.value := Toggle(before[index.value], uuid, kind.cfg.lockout)],
                      old(initialized) || Source(kind.cfg, known) != multiset{}, d.order != [], cells, initialized)
          && PublishedCheck(d, sent, order, indices, old(winners), true, old(loopRunning) || (!old(timerActive) && timerSeconds > 0)))
        && (!accepted ==> cells == before && initialized == (old(initialized) || Source(kind.cfg, known) != multiset{})
                          && sent == [] && winners == old(winners) && timerActive)
        && lockCells == old(lockCells)
        && forall u :: Pool(u) == old(Pool(u))
      ensures OwnerBoard(kind) && kind.cfg.manual ==>
        Prepared(known, before)
        && loopRunning == (old(loopRunning) || (!old(timerActive) && timerSeconds > 0))
        && (index.Some? && 0 <= index.value < |before| ==> PoolTouched(uuid))
        && (!(index.Some? && 0 <= index.value < |before|) ==> itemPools == old(itemPools) && saves == old(saves))
    {
      if OwnerBoard(kind) && kind.cfg.manual {
        sent, before, order, indices := ManualClick(uuid, index, d, known);
      } else {
        sent, before, order, indices := [], cells, [], map[];
      }
    }

    /** The marking loop of `check_bingo_progress`: every cell showing the
        name gains the player unless the player already has it or lockout
        keeps it for someone else; `changed` says whether any cell did. */
    method MarkCells(uuid: string, name: Json) returns (changed: bool)
      requires OwnerBoard(kind) && Valid()
      requires forall t :: name == JStr(t) ==> Holds(Pool(uuid), t)
      modifies this`cells
      ensures Valid()
      ensures cells == Progressed(old(cells), uuid, name, kind.cfg.lockout)
      ensures changed <==> cells != old(cells)
    {
      var lockout := kind.cfg.lockout;
      var board := cells;
      changed := false;
      var k := 0;
      while k < |board|
        invariant 0 <= k <= |board| == |cells|
        invariant forall j :: 0 <= j < k ==> board[j] == Mark(cells[j], uuid, name, lockout)
        invariant forall j :: k <= j < |board| ==> board[j] == cells[j]
        invariant changed <==> exists j :: 0 <= j < k && board[j] != cells[j]
      {
        var c := board[k];
        if JStr(c.text) == name && uuid !in c.owners && !(lockout && c.owners != {}) {
          board := board[k := Cell(c.text, c.owners + {uuid})];
          assert board[k] != cells[k] by {
            assert uuid in board[k].owners;
          }
          changed := true;
        }
        k := k + 1;
      }
      assert board == Progressed(cells, uuid, name, lockout);
      EarnedProgressed(cells, uuid, name, lockout, SharesPool(kind), itemPools, sharedPool);
      cells := board;
    }

    /** `check_bingo_progress(uuid, name)` of automatic Bingo: the board is
        marked without being prepared first; when a cell changed, the field
        is broadcast and the winners are checked (never as the final
        check). */
    method CheckBingoProgress(uuid: string, name: Json, d: Directory, known: set<string>)
      returns (sent: seq<Sent>, ghost order: seq<string>, ghost indices: map<string, set<int>>)
      requires OwnerBoard(kind) && Valid()
      requires forall t :: name == JStr(t) ==> Holds(Pool(uuid), t)
      modifies this`cells, this`lockCells, this`initialized, this`timerActive, this`loopRunning, this`winners
      ensures Valid()
      ensures var marked := Progressed(old(cells), uuid, name, kind.cfg.lockout);
        (marked == old(cells) ==> sent == [] && unchanged(this))
        && (marked != old(cells) ==>
          Republished(kind.cfg, known, marked, old(initialized), d.order != [], cells, initialized) && lockCells == old(lockCells)
          && PublishedCheck(d, sent, order, indices, old(winners), old(timerActive), old(loopRunning)))
    {
      sent, order, indices := [], [], map[];
      var changed := MarkCells(uuid, name);
      if changed {
        sent, order, indices := Publish(d, known);
      }
    }

    /** The claiming loop of `check_bingo_lockout`: every open cell showing
        the name is taken by the player in the player's colour. */
    method ClaimCells(uuid: string, name: Json, colour: Colour) returns (changed: bool)
      requires kind.LockoutBingo? && Valid()
      modifies this`lockCells
      ensures Valid()
      ensures lockCells == Claimed(old(lockCells), uuid, name, colour)
      ensures changed <==> lockCells != old(lockCells)
    {
      var board := lockCells;
      changed := false;
      var k := 0;
      while k < |board|
        invariant 0 <= k <= |board| == |lockCells|
        invariant forall j :: 0 <= j < k ==> board[j] == Claim(lockCells[j], uuid, name, colour)
        invariant forall j :: k <= j < |board| ==> board[j] == lockCells[j]
        invariant changed <==> exists j :: 0 <= j < k && board[j] != lockCells[j]
      {
        var c := board[k];
        if JStr(c.text) == name && !c.done {
          board := board[k := LockCell(c.text, true, Some(colour), Some(uuid))];
          changed := true;
        }
        k := k + 1;
      }
      assert board == Claimed(lockCells, uuid, name, colour);
      DoneOwnedClaimed(lockCells, uuid, name, colour);
      lockCells := board;
    }

    /** `check_bingo_lockout(uuid, name)`: cells are claimed in the colour of
        the player's entry (black for a player no longer listed); when a
        cell changed, the field is broadcast and the winner is checked. */
    method CheckBingoLockout(uuid: string, name: Json, d: Directory, known: set<string>)
      returns (sent: seq<Sent>, ghost order: seq<string>, ghost indices: map<string, set<int>>)
      requires kind.LockoutBingo? && Valid()
      modifies this`cells, this`lockCells, this`initialized, this`timerActive, this`loopRunning, this`winners
      ensures Valid()
      ensures var claimed := Claimed(old(lockCells), uuid, name, ColourOf(d, uuid));
        (claimed == old(lockCells) ==> sent == [] && unchanged(this))
        && (claimed != old(lockCells) ==>
          LockRepublished(kind.cfg, known, claimed, old(initialized), d.order != [], lockCells, initialized) && cells == old(cells)
          && PublishedCheck(d, sent, order, indices, old(winners), old(timerActive), old(loopRunning)))
    {
      sent, order, indices := [], [], map[];
      var changed := ClaimCells(uuid, name, ColourOf(d, uuid));
      if changed {
        sent, order, indices := PublishLockout(d, known);
      }
    }

    // -------------------------------------------------------------------
    // Combination results and joining
    // -------------------------------------------------------------------

    /** Whether an added item marks the board: automatic Bingo marks,
        Lockout claims. */
    predicate AutoMarks()
    {
      (OwnerBoard(kind) && !kind.cfg.manual) || kind.LockoutBingo?
    }

    /** The first half of `_add_item_and_notify`: the item is added to the
        player's pool, then `pair_result` (new unless it came from the cache)
        goes to the player, then the item list. */
    method AddAndReport(uuid: string, pairId: Json, it: Item, cached: bool, d: Directory) returns (sent: seq<Sent>)
      requires Valid()
      modifies this`itemPools, this`sharedPool, this`saves
      ensures Valid()
      ensures Pool(uuid) == AddIfAbsent(old(Pool(uuid)), it)
      ensures forall u :: Grows(old(Pool(u)), Pool(u))
      ensures !SharesPool(kind) ==> forall u :: u != uuid ==> Pool(u) == old(Pool(u))
      ensures sent == [Send(PairResultOf(pairId, it, !cached), Some(uuid))] + ItemListMsgs(uuid, d.order)
    {
      AddItemToPool(uuid, it);
      sent := [Send(PairResultOf(pairId, it, !cached), Some(uuid))];
      var lists := BroadcastItemList(uuid, d);
      sent := sent + lists;
    }

    /** What publishing a board change sends and decides, given the winners
        `w0`, the timer `t0` and the countdown `l0` before it: the field goes
        to every player (the first one starts the timer), then the winner
        check runs over the tally of the new board. */
    predicate PublishedCheck(d: Directory, sent: seq<Sent>, order: seq<string>, indices: map<string, set<int>>,
                             w0: set<string>, t0: bool, l0: bool)
      requires HasField(kind)
      reads this`cells, this`lockCells, this`winners, this`timerSeconds, this`timerActive, this`loopRunning
    {
      |d.order| <= |sent| && sent[..|d.order|] == FieldsTo(kind, cells, lockCells, d.order)
      && Rechecked(kind, timerSeconds, cells, lockCells, d, sent[|d.order|..], order, indices, w0, t0, l0, winners, timerActive, loopRunning)
    }

    /** The board side of `_add_item_and_notify`: automatic Bingo marks the
        board with the item's name and Lockout claims with it; a manual Bingo
        board and the modes without a board do nothing. Nothing is sent when
        no cell changes. */
    method MarkWithItem(uuid: string, it: Item, d: Directory, known: set<string>)
      returns (sent: seq<Sent>, ghost order: seq<string>, ghost indices: map<string, set<int>>)
      requires Valid() && it in Pool(uuid)
      modifies this`cells, this`lockCells, this`initialized, this`timerActive, this`loopRunning, this`winners
      ensures Valid()
      ensures ItemMarked(kind, uuid, it, d, known, old(cells), old(lockCells), old(initialized), cells, lockCells, initialized)
      ensures !MarksChange(kind, uuid, it, d, old(cells), old(lockCells)) ==> sent == [] && unchanged(this)
      ensures MarksChange(kind, uuid, it, d, old(cells), old(lockCells)) ==> PublishedCheck(d, sent, order, indices, old(winners), old(timerActive), old(loopRunning))
    {
      sent, order, indices := [], [], map[];
      if OwnerBoard(kind) && !kind.cfg.manual {
        HoldsMember(Pool(uuid), it);
        sent, order, indices := CheckBingoProgress(uuid, it.name, d, known);
      } else if kind.LockoutBingo? {
        sent, order, indices := CheckBingoLockout(uuid, it.name, d, known);
      }
    }

    /** The effect of `_add_item_and_notify(uuid, pair_id, it, cached)`: the
        item joins the player's pool (only that pool, unless the pool is
        shared); `pair_result` and the item lists are sent first; then the
        board is marked, and a change is published and checked. */
    twostate predicate Notified(uuid: string, pairId: Json, it: Item, cached: bool, d: Directory, known: set<string>,
                                sent: seq<Sent>, order: seq<string>, indices: map<string, set<int>>)
      reads this
    {
      var head := [Send(PairResultOf(pairId, it, !cached), Some(uuid))] + ItemListMsgs(uuid, d.order);
      Pool(uuid) == AddIfAbsent(old(Pool(uuid)), it)
      && (!SharesPool(kind) ==> forall u :: u != uuid ==> Pool(u) == old(Pool(u)))
      && |head| <= |sent| && sent[..|head|] == head
      && ItemMarked(kind, uuid, it, d, known, old(cells), old(lockCells), old(initialized), cells, lockCells, initialized)
      && (!MarksChange(kind, uuid, it, d, old(cells), old(lockCells)) ==>
            sent == head && cells == old(cells) && lockCells == old(lockCells) && initialized == old(initialized)
            && timerActive == old(timerActive) && loopRunning == old(loopRunning) && winners == old(winners))
      && (MarksChange(kind, uuid, it, d, old(cells), old(lockCells)) ==>
            PublishedCheck(d, sent[|head|..], order, indices, old(winners), old(timerActive), old(loopRunning)))
    }

    /** `_add_item_and_notify` of every mode: the pool update and its two
        messages, then the board marked with the item. */
    method AddItemAndNotify(uuid: string, pairId: Json, it: Item, cached: bool, d: Directory, known: set<string>)
      returns (sent: seq<Sent>, ghost head: seq<Sent>, ghost order: seq<string>, ghost indices: map<string, set<int>>)
      requires Valid()
      modifies this`itemPools, this`sharedPool, this`saves, this`cells, this`lockCells, this`initialized, this`timerActive, this`loopRunning, this`winners
      ensures Valid()
      ensures forall u :: Grows(old(Pool(u)), Pool(u))
      ensures head == [Send(PairResultOf(pairId, it, !cached), Some(uuid))] + ItemListMsgs(uuid, d.order)
      ensures 1 <= |sent| && sent[0] == head[0]
      ensures Notified(uuid, pairId, it, cached, d, known, sent, order, indices)
    {
      sent := AddAndReport(uuid, pairId, it, cached, d);
      head := sent;
      AddIfAbsentMeaning(old(Pool(uuid)), it);
      var more;
      more, order, indices := MarkWithItem(uuid, it, d, known);
      sent := sent + more;
      assert sent[..|head|] == head && sent[|head|..] == more;
      assert sent[0] == head[0];
    }

    /** `handle_combo`: no result answers the player with
        `pair_empty_result` and changes nothing; a result becomes
        `item(result['name'], result['emoji'])` (a missing key reads as
        None) and is added and announced. */
    method HandleCombo(uuid: string, pairId: Json, result: Option<map<string, Json>>, cached: bool, d: Directory, known: set<string>)
      returns (sent: seq<Sent>, ghost order: seq<string>, ghost indices: map<string, set<int>>)
      requires Valid()
      modifies this`itemPools, this`sharedPool, this`saves, this`cells, this`lockCells, this`initialized, this`timerActive, this`loopRunning, this`winners
      ensures Valid()
      ensures result.None? ==> sent == [Send(PairEmptyResult(pairId), Some(uuid))] && unchanged(this)
      ensures result.Some? ==>
        var it := Item(Get(result.value, "name"), Get(result.value, "emoji"));
        1 <= |sent| && sent[0] == Send(PairResultOf(pairId, it, !cached), Some(uuid))
        && Notified(uuid, pairId, it, cached, d, known, sent, order, indices)
      ensures forall u :: Grows(old(Pool(u)), Pool(u))
    {
      order, indices := [], map[];
      if result.None? {
        sent := [Send(PairEmptyResult(pairId), Some(uuid))];
        return;
      }
      var it := Item(Get(result.value, "name"), Get(result.value, "emoji"));
      ghost var head;
      sent, head, order, indices := AddItemAndNotify(uuid, pairId, it, cached, d, known);
    }

    /** The messages of `_send_state(uuid)`, all addressed to the player:
        clear, mode, username, the item list (to everybody in the shared
        modes), the bingo field when the mode has one, and an empty news. */
    function StateMsgs(uuid: string, d: Directory): (r: seq<Sent>)
      reads this`itemPools, this`sharedPool, this`cells, this`lockCells
      ensures |r| == 4 + |ItemListMsgs(uuid, d.order)| + |FieldMsgs([uuid])|
      ensures r[..3] == [Send(Clear, Some(uuid)), Send(Mode(modeName), Some(uuid)), Send(Username(DisplayName(d, uuid)), Some(uuid))]
      ensures r[|r| - 1] == Send(News(""), Some(uuid))
    {
      [Send(Clear, Some(uuid)), Send(Mode(modeName), Some(uuid)), Send(Username(DisplayName(d, uuid)), Some(uuid))]
        + ItemListMsgs(uuid, d.order) + FieldMsgs([uuid]) + [Send(News(""), Some(uuid))]
    }

    method SendState(uuid: string, d: Directory, known: set<string>) returns (sent: seq<Sent>)
      requires Valid()
      modifies this`itemPools, this`saves, this`cells, this`lockCells, this`initialized, this`timerActive, this`loopRunning
      ensures Valid()
      ensures PoolTouched(uuid)
      ensures !HasField(kind) ==>
        cells == old(cells) && lockCells == old(lockCells)
        && initialized == old(initialized) && timerActive == old(timerActive) && loopRunning == old(loopRunning)
      ensures HasField(kind) ==> InitStep(known) && StartStep() && Settled(known)
      ensures sent == StateMsgs(uuid, d)
    {
      sent := [Send(Clear, Some(uuid)), Send(Mode(modeName), Some(uuid)), Send(Username(DisplayName(d, uuid)), Some(uuid))];
      var lists := BroadcastItemList(uuid, d);
      sent := sent + lists;
      var field := SendBingoField(uuid, known);
      sent := sent + field + [Send(News(""), Some(uuid))];
    }

    /** The messages of `join(uuid)`: the full state, and in Shared mode a
        broadcast that the player joined. */
    function JoinMsgs(uuid: string, d: Directory): (r: seq<Sent>)
      reads this`itemPools, this`sharedPool, this`cells, this`lockCells
      ensures !kind.Shared? ==> r == StateMsgs(uuid, d)
      ensures kind.Shared? ==>
        |r| == |StateMsgs(uuid, d)| + 1 && r[..|r| - 1] == StateMsgs(uuid, d)
        && r[|r| - 1] == Send(News(DisplayName(d, uuid) + " joined the game!"), None)
    {
      var state := StateMsgs(uuid, d);
      if kind.Shared? then state + [Send(News(DisplayName(d, uuid) + " joined the game!"), None)] else state
    }

    method Join(uuid: string, d: Directory, known: set<string>) returns (sent: seq<Sent>)
      requires Valid()
      modifies this`itemPools, this`saves, this`cells, this`lockCells, this`initialized, this`timerActive, this`loopRunning
      ensures Valid()
      ensures PoolTouched(uuid)
      ensures !HasField(kind) ==>
        cells == old(cells) && lockCells == old(lockCells)
        && initialized == old(initialized) && timerActive == old(timerActive) && loopRunning == old(loopRunning)
      ensures HasField(kind) ==> InitStep(known) && StartStep() && Settled(known)
      ensures sent == JoinMsgs(uuid, d)
    {
      sent := SendState(uuid, d, known);
      if kind.Shared? {
        sent := sent + [Send(News(DisplayName(d, uuid) + " joined the game!"), None)];
      }
    }

    /** `rejoin(uuid)`: the same as joining (it only logs differently). */
    method Rejoin(uuid: string, d: Directory, known: set<string>) returns (sent: seq<Sent>)
      requires Valid()
      modifies this`itemPools, this`saves, this`cells, this`lockCells, this`initialized, this`timerActive, this`loopRunning
      ensures Valid()
      ensures PoolTouched(uuid)
      ensures !HasField(kind) ==>
        cells == old(cells) && lockCells == old(lockCells)
        && initialized == old(initialized) && timerActive == old(timerActive) && loopRunning == old(loopRunning)
      ensures HasField(kind) ==> InitStep(known) && StartStep() && Settled(known)
      ensures sent == JoinMsgs(uuid, d)
    {
      sent := Join(uuid, d, known);
    }
  }
}
