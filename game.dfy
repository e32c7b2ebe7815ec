/** `GameController` of game.py: the player directory, the combination
    request (cache first, then the generator) and the hand-over of every
    outcome to the active gamemode. The HTTP exchange with the generator is
    an input `reply`; `parse` stands for `json.loads` and `isCluster` for
    the grapheme-cluster match. */
module Game {
  import opened Util
  import opened JsonValue
  import opened Text
  import opened Keys
  import opened Templates
  import opened Players
  import opened ComboStore
  import opened Resolver
  import opened Pools
  import opened Rules
  import opened Gamemodes

  /** Lines 38-47: `GAME_MODE` (lowercased) picks Shared; anything else,
      including a missing setting, starts Classic. */
  function StartupKind(setting: Option<string>): (k: Kind)
    ensures k.Classic? || k.Shared?
    ensures k.Shared? <==> setting.Some? && Lower(setting.value) == "shared"
  {
    var chosen := if setting.Some? then Lower(setting.value) else "classic";
    if chosen == "shared" then Shared else Classic
  }

  /** What a cache hit hands to `handle_combo`: `{'name': ..., 'emoji': ...}`. */
  function HitResult(h: Hit): (r: map<string, Json>)
    ensures Get(r, "name") == JStr(h.name) && Get(r, "emoji") == h.emoji
  {
    map["name" := JStr(h.name), "emoji" := h.emoji]
  }

  /** The answer the game logic gives to a combination: the cache's, when it
      has one, otherwise the generator's. */
  function Outcome(combocache: map<string, string>, itemcache: map<string, Json>, item1: string, item2: string,
                   reply: Reply, parse: string -> Option<Json>, isCluster: string -> bool): Option<map<string, Json>>
  {
    match GetCombo(combocache, itemcache, Some(item1), Some(item2))
    case Some(h) => Some(HitResult(h))
    case None => Interpret(reply, parse, isCluster)
  }

  class GameController {
    /** `players`, in insertion order. */
    var players: map<string, Player>
    var order: seq<string>
    /** `sid_to_uuid`. */
    var sidToUuid: map<string, string>
    const cache: Cache
    const mode: Gamemode
    /** How often the cache was written to disk. */
    var cacheSaves: nat

    function Dir(): Directory
      reads this`players, this`order, this`sidToUuid
    {
      Directory(players, order, sidToUuid)
    }

    /** The item names of the cache, the words a Bingo board is drawn from
        when none are configured. */
    function Known(): set<string>
      reads cache`itemcache
    {
      cache.itemcache.Keys
    }

    ghost predicate Valid()
      reads this, mode
    {
      Players.Valid(Dir()) && mode.Valid()
    }

    constructor (mode: Gamemode, cache: Cache)
      requires mode.Valid()
      ensures this.mode == mode && this.cache == cache
      ensures Dir() == Empty() && cacheSaves == 0
      ensures Valid()
    {
      players := map[];
      order := [];
      sidToUuid := map[];
      this.cache := cache;
      this.mode := mode;
      cacheSaves := 0;
    }

    /** `handle_client_join`: an earlier connection of the same uuid is
        closed (`closed` is its sid), the player is stored under its uuid and
        the new sid is mapped to it, then the gamemode greets the player. */
    method HandleClientJoin(sid: string, uuid: string, name: string) returns (closed: Option<string>, sent: seq<Sent>)
      requires Valid()
      modifies this`players, this`order, this`sidToUuid, mode
      ensures Valid()
      ensures closed == Replaced(old(Dir()), uuid)
      ensures Dir() == Joined(old(Dir()), sid, uuid, name)
      ensures mode.PoolTouched(uuid)
      ensures !HasField(mode.kind) ==>
        mode.cells == old(mode.cells) && mode.lockCells == old(mode.lockCells) && mode.initialized == old(mode.initialized)
        && mode.timerActive == old(mode.timerActive) && mode.loopRunning == old(mode.loopRunning)
      ensures HasField(mode.kind) ==> mode.InitStep(Known()) && mode.StartStep() && mode.Settled(Known())
      ensures sent == mode.JoinMsgs(uuid, Dir())
    {
      closed := Register(sid, uuid, name);
      sent := mode.Join(uuid, Dir(), Known());
    }

    /** The directory part of `handle_client_join`. */
    method Register(sid: string, uuid: string, name: string) returns (closed: Option<string>)
      requires Players.Valid(Dir())
      modifies this`players, this`order, this`sidToUuid
      ensures Players.Valid(Dir())
      ensures closed == Replaced(old(Dir()), uuid)
      ensures Dir() == Joined(old(Dir()), sid, uuid, name)
    {
      closed := None;
      if uuid in players {
        closed := Some(players[uuid].sid);
      }
      if uuid !in players {
        order := order + [uuid];
      }
      players := players[uuid := Player(uuid, name, sid)];
      sidToUuid := sidToUuid[sid := uuid];
      JoinedMeaning(old(Dir()), sid, uuid, name);
    }

    /** `handle_disconnect`, as written: the sid's mapping is popped and the
        player it named is deleted, even when that player has since
        reconnected under another sid. */
    method HandleDisconnect(sid: string)
      requires Valid()
      modifies this`players, this`order, this`sidToUuid
      ensures Valid()
      ensures Dir() == Disconnected(old(Dir()), sid)
    {
      if sid !in sidToUuid {
        UnknownSidIsNoop(Dir(), sid);
        return;
      }
      DisconnectedMeaning(Dir(), sid);
      var uuid := sidToUuid[sid];
      sidToUuid := sidToUuid - {sid};
      if uuid == "" {
        return;
      }
      if uuid in players {
        players := players - {uuid};
        order := Without(order, uuid);
      }
    }

    /** `change_username`: an unknown uuid changes nothing and sends
        nothing; otherwise the name is replaced and the new name is sent to
        that player. */
    method ChangeUsername(uuid: string, name: string) returns (sent: seq<Sent>)
      requires Valid()
      modifies this`players
      ensures Valid()
      ensures Dir() == Renamed(old(Dir()), uuid, name)
      ensures sent == if uuid in old(players) then [ToPlayer(uuid, Username(name))] else []
    {
      if uuid !in players {
        return [];
      }
      RenamedMeaning(Dir(), uuid, name);
      players := players[uuid := players[uuid].(name := name)];
      sent := [ToPlayer(uuid, Username(name))];
    }

    /** `ask_llm` once the exchange has happened: an accepted result is
        written to the cache and saved before the gamemode gets it; every
        failure hands None to the gamemode and leaves the cache alone. */
    method AskLlm(uuid: string, pairId: Json, item1: string, item2: string,
                  reply: Reply, parse: string -> Option<Json>, isCluster: string -> bool)
      returns (sent: seq<Sent>)
      requires Valid()
      modifies cache, this`cacheSaves, mode
      ensures Valid()
      ensures var r := Interpret(reply, parse, isCluster);
        (r.None? ==>
           cache.combocache == old(cache.combocache) && cache.itemcache == old(cache.itemcache)
           && cacheSaves == old(cacheSaves)
           && sent == [Send(PairEmptyResult(pairId), Some(uuid))])
        && (r.Some? ==>
           cache.combocache == old(cache.combocache)[NormalizeKey(Some(item1), Some(item2)) := Get(r.value, "name").s]
           && cache.itemcache == old(cache.itemcache)[Get(r.value, "name").s := Get(r.value, "emoji")]
           && cacheSaves == old(cacheSaves) + 1
           && 1 <= |sent| && sent[0] == Send(PairResultOf(pairId, Item(Get(r.value, "name"), Get(r.value, "emoji")), true), Some(uuid)))
    {
      var r := Interpret(reply, parse, isCluster);
      if r.Some? {
        var name := Get(r.value, "name").s;
        var emoji := Get(r.value, "emoji").s;
        cache.AddCombo(Some(item1), Some(item2), name, emoji);
        cacheSaves := cacheSaves + 1;
      }
      ghost var order, indices;
      sent, order, indices := mode.HandleCombo(uuid, pairId, r, false, Dir(), Known());
    }

    /** `request_combo`: a cache hit goes to the gamemode as a cached result
        and the generator is not asked (`asked` is false, the cache and its
        saves are unchanged); a miss is resolved by `ask_llm`. */
    method RequestCombo(uuid: string, pairId: Json, item1: string, item2: string,
                        reply: Reply, parse: string -> Option<Json>, isCluster: string -> bool)
      returns (sent: seq<Sent>, asked: bool)
      requires Valid()
      modifies cache, this`cacheSaves, mode
      ensures Valid()
      ensures var hit := GetCombo(old(cache.combocache), old(cache.itemcache), Some(item1), Some(item2));
        asked <==> hit.None?
      ensures !asked ==>
        cache.combocache == old(cache.combocache) && cache.itemcache == old(cache.itemcache)
        && cacheSaves == old(cacheSaves)
      ensures var r := Outcome(old(cache.combocache), old(cache.itemcache), item1, item2, reply, parse, isCluster);
        (r.None? ==> sent == [Send(PairEmptyResult(pairId), Some(uuid))])
        && (r.Some? ==>
           1 <= |sent| && sent[0] == Send(PairResultOf(pairId, Item(Get(r.value, "name"), Get(r.value, "emoji")), asked), Some(uuid)))
    {
      var hit := GetCombo(cache.combocache, cache.itemcache, Some(item1), Some(item2));
      if hit.Some? {
        ghost var order, indices;
        sent, order, indices := mode.HandleCombo(uuid, pairId, Some(HitResult(hit.value)), true, Dir(), Known());
        asked := false;
      } else {
        sent := AskLlm(uuid, pairId, item1, item2, reply, parse, isCluster);
        asked := true;
      }
    }
  }
}
