/** The player directory of `GameController`: `players` (uuid to player, in
    insertion order) and `sid_to_uuid` (socket id to uuid). The functions here
    give the new directory after each operation; the controller's methods are
    proved to produce exactly that. */
module Players {
  import opened Util

  datatype Player = Player(uuid: string, name: string, sid: string)

  /** `order` is the iteration order of the `players` dict. */
  datatype Directory = Directory(players: map<string, Player>, order: seq<string>, sidToUuid: map<string, string>)

  predicate Valid(d: Directory)
  {
    Distinct(d.order)
    && (set u | u in d.order) == d.players.Keys
    && (forall u :: u in d.players ==> d.players[u].uuid == u)
  }

  function Empty(): (d: Directory)
    ensures Valid(d)
  {
    Directory(map[], [], map[])
  }

  /** `handle_client_join`, lines 96-98: store the player under its uuid
      (an existing key keeps its place) and map the new sid to it. */
  function Joined(d: Directory, sid: string, uuid: string, name: string): Directory
  {
    Directory(d.players[uuid := Player(uuid, name, sid)],
              if uuid in d.players then d.order else d.order + [uuid],
              d.sidToUuid[sid := uuid])
  }

  /** Lines 92-95: the connection a join closes, if the uuid was present. */
  function Replaced(d: Directory, uuid: string): (r: Option<string>)
    ensures r.Some? <==> uuid in d.players
    ensures r.Some? ==> r.value == d.players[uuid].sid
  {
    if uuid in d.players then Some(d.players[uuid].sid) else None
  }

  /** `handle_disconnect` as written: pop the sid; when it named a truthy uuid
      present in `players`, delete that player, whichever sid it now has. */
  function Disconnected(d: Directory, sid: string): Directory
  {
    if sid !in d.sidToUuid then d
    else
      var uuid := d.sidToUuid[sid];
      var rest := d.sidToUuid - {sid};
      if uuid == "" || uuid !in d.players then Directory(d.players, d.order, rest)
      else Directory(d.players - {uuid}, Without(d.order, uuid), rest)
  }

  /** The evidently intended disconnect: the player is removed only while
      the closing sid is still its current connection. */
  function DisconnectedGuarded(d: Directory, sid: string): Directory
  {
    if sid !in d.sidToUuid then d
    else
      var uuid := d.sidToUuid[sid];
      var rest := d.sidToUuid - {sid};
      if uuid == "" || uuid !in d.players || d.players[uuid].sid != sid then Directory(d.players, d.order, rest)
      else Directory(d.players - {uuid}, Without(d.order, uuid), rest)
  }

  /** `change_username`, lines 116-119. */
  function Renamed(d: Directory, uuid: string, name: string): Directory
  {
    if uuid !in d.players then d
    else Directory(d.players[uuid := d.players[uuid].(name := name)], d.order, d.sidToUuid)
  }

  /** `GameController.get_player_name`, lines 122-124. */
  function PlayerName(d: Directory, uuid: string): (r: Option<string>)
    ensures r.Some? <==> uuid in d.players
    ensures r.Some? ==> r.value == d.players[uuid].name
  {
    if uuid in d.players then Some(d.players[uuid].name) else None
  }

  /** `AbstractGamemode.get_player_name`: the name, or 'Unbekannt' when
      the player is unknown or its name is empty. */
  function DisplayName(d: Directory, uuid: string): (r: string)
    ensures r != ""
    ensures PlayerName(d, uuid).None? ==> r == "Unbekannt"
    ensures PlayerName(d, uuid).Some? && PlayerName(d, uuid).value != "" ==> r == PlayerName(d, uuid).value
  {
    var n := PlayerName(d, uuid);
    if n.Some? && n.value != "" then n.value else "Unbekannt"
  }

  /** A join leaves a valid directory in which the uuid is held by the new
      player, the new sid leads to it, and every other player is unchanged. */
  lemma JoinedMeaning(d: Directory, sid: string, uuid: string, name: string)
    requires Valid(d)
    ensures var r := Joined(d, sid, uuid, name);
      Valid(r)
      && r.players[uuid] == Player(uuid, name, sid)
      && r.sidToUuid[sid] == uuid
      && (forall u :: u in d.players && u != uuid ==> u in r.players && r.players[u] == d.players[u])
      && (forall s :: s in d.sidToUuid && s != sid ==> s in r.sidToUuid && r.sidToUuid[s] == d.sidToUuid[s])
      && (uuid in d.players ==> r.order == d.order)
  {
    var r := Joined(d, sid, uuid, name);
    if uuid !in d.players {
      assert uuid !in d.order;
      forall i, j | 0 <= i < j < |r.order| ensures r.order[i] != r.order[j] {
        if j == |d.order| {
          assert r.order[i] in d.order;
        }
      }
    }
  }

  /** A join for a uuid already present keeps a single entry for it. */
  lemma RejoinKeepsOneEntry(d: Directory, sid: string, uuid: string, name: string)
    requires Valid(d) && uuid in d.players
    ensures |Joined(d, sid, uuid, name).players| == |d.players|
    ensures Joined(d, sid, uuid, name).order == d.order
  {
    assert d.players[uuid := Player(uuid, name, sid)].Keys == d.players.Keys;
  }

  /** A disconnect for an unknown sid changes nothing. */
  lemma UnknownSidIsNoop(d: Directory, sid: string)
    requires sid !in d.sidToUuid
    ensures Disconnected(d, sid) == d
  {
  }

  /** A disconnect for a known sid forgets that sid, removes the player its
      uuid names, touches nothing else, and keeps the directory valid. */
  lemma DisconnectedMeaning(d: Directory, sid: string)
    requires Valid(d) && sid in d.sidToUuid
    ensures var r := Disconnected(d, sid);
      var uuid := d.sidToUuid[sid];
      Valid(r)
      && r.sidToUuid == d.sidToUuid - {sid}
      && (uuid != "" ==> uuid !in r.players)
      && (forall u :: u in d.players && u != uuid ==> u in r.players && r.players[u] == d.players[u])
  {
    var uuid := d.sidToUuid[sid];
    if uuid != "" && uuid in d.players {
      WithoutDistinct(d.order, uuid);
    }
  }

  /** The flaw: a player reconnects with a new sid, the join closes the old
      connection, and the disconnect for that old sid then deletes the
      reconnected player. */
  lemma StaleDisconnectDropsReconnected(d: Directory, oldSid: string, newSid: string, uuid: string, name: string)
    requires Valid(d) && uuid != "" && uuid in d.players
    requires oldSid == d.players[uuid].sid && oldSid in d.sidToUuid && d.sidToUuid[oldSid] == uuid
    requires newSid != oldSid
    ensures var r := Disconnected(Joined(d, newSid, uuid, name), oldSid);
      uuid !in r.players && newSid in r.sidToUuid && r.sidToUuid[newSid] == uuid
  {
  }

  /** The same sequence on a concrete directory. */
  lemma StaleDisconnectExample()
    ensures var d := Joined(Empty(), "s1", "u", "Ada");
      var r := Disconnected(Joined(d, "s2", "u", "Ada"), "s1");
      r.players == map[] && r.sidToUuid == map["s2" := "u"]
  {
    var d := Joined(Empty(), "s1", "u", "Ada");
    var j := Joined(d, "s2", "u", "Ada");
    assert j.sidToUuid - {"s1"} == map["s2" := "u"];
    assert j.players - {"u"} == map[];
  }

  /** With the guard, the stale disconnect leaves the reconnected player in
      place, while a disconnect of the current sid still removes it. */
  lemma GuardedDisconnectKeepsReconnected(d: Directory, oldSid: string, newSid: string, uuid: string, name: string)
    requires Valid(d) && uuid != "" && uuid in d.players
    requires oldSid in d.sidToUuid && d.sidToUuid[oldSid] == uuid
    requires newSid != oldSid
    ensures var j := Joined(d, newSid, uuid, name);
      var r := DisconnectedGuarded(j, oldSid);
      uuid in r.players && r.players[uuid] == Player(uuid, name, newSid) && Valid(r)
      && uuid !in DisconnectedGuarded(r, newSid).players
  {
    var j := Joined(d, newSid, uuid, name);
    JoinedMeaning(d, newSid, uuid, name);
    var r := DisconnectedGuarded(j, oldSid);
    assert r.players == j.players;
    assert newSid in r.sidToUuid && r.sidToUuid[newSid] == uuid;
  }

  /** The guarded disconnect agrees with the written one whenever the sid is
      still current, and keeps the directory valid. */
  lemma GuardedAgreesOnCurrentSid(d: Directory, sid: string)
    requires Valid(d)
    ensures Valid(DisconnectedGuarded(d, sid))
    ensures sid in d.sidToUuid && d.sidToUuid[sid] in d.players && d.players[d.sidToUuid[sid]].sid == sid ==>
      DisconnectedGuarded(d, sid) == Disconnected(d, sid)
  {
    if sid in d.sidToUuid {
      var uuid := d.sidToUuid[sid];
      if uuid != "" && uuid in d.players {
        WithoutDistinct(d.order, uuid);
      }
    }
  }

  /** Renaming an unknown uuid changes nothing; renaming a known one changes
      only that player's name. */
  lemma RenamedMeaning(d: Directory, uuid: string, name: string)
    requires Valid(d)
    ensures uuid !in d.players ==> Renamed(d, uuid, name) == d
    ensures var r := Renamed(d, uuid, name);
      Valid(r) && r.sidToUuid == d.sidToUuid && r.order == d.order
      && (uuid in d.players ==> PlayerName(r, uuid) == Some(name) && r.players[uuid].sid == d.players[uuid].sid)
      && (forall u :: u != uuid ==> PlayerName(r, u) == PlayerName(d, u))
  {
  }
}
