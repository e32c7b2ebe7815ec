/** The messages of templates.py, their wire form (a `{type, data}` JSON
    object) and a decoder that reads the wire form back. The `bingo` and
    `timer` messages are used by the gamemodes but have no constructor in
    templates.py, so they stay symbolic and have no wire form here. */
module Templates {
  import opened Util
  import opened JsonValue
  import opened Board

  /** `item(name, emoji)`: the dict `{'name': name, 'emoji': emoji}`.
      Two items are equal exactly when both fields are equal. */
  datatype Item = Item(name: Json, emoji: Json)

  /** What a player is shown of a Bingo cell. */
  datatype CellView = CellView(text: string, done: bool, colouredBy: set<string>)

  /** The board sent with a `bingo` message. */
  datatype Field =
    | SharedField(size: int, cells: seq<CellView>)
    | LockoutField(size: int, lockCells: seq<LockCell>)

  datatype Msg =
    | PairResult(id: Json, newItem: Option<Item>, isNew: bool)
    | News(text: string)
    | Mode(title: string)
    | Username(name: string)
    | Items(items: seq<Item>)
    | Error(text: string)
    | Retry
    | Clear
    | Bingo(field: Field)
    | Timer(seconds: int)

  /** `pair_result(pair_id, item, is_new)`. */
  function PairResultOf(pairId: Json, item: Item, isNew: bool): (m: Msg)
    ensures m.PairResult? && m.newItem == Some(item) && m.isNew == isNew
  {
    PairResult(pairId, Some(item), isNew)
  }

  /** `pair_empty_result(pair_id)`: `new_item` is None. */
  function PairEmptyResult(pairId: Json): (m: Msg)
    ensures m.PairResult? && m.newItem.None? && !m.isNew
  {
    PairResult(pairId, None, false)
  }

  /** A message with its recipient: one player, or everybody. */
  datatype Sent = ToPlayer(uuid: string, msg: Msg) | ToAll(msg: Msg)

  /** `AbstractGamemode.send(data, uuid)`: a truthy uuid targets that player,
      otherwise the message is broadcast. */
  function Send(m: Msg, uuid: Option<string>): (s: Sent)
    ensures s.msg == m
    ensures s.ToPlayer? <==> uuid.Some? && uuid.value != ""
    ensures s.ToPlayer? ==> s.uuid == uuid.value
  {
    if uuid.Some? && uuid.value != "" then ToPlayer(uuid.value, m) else ToAll(m)
  }

  // ---------------------------------------------------------------------
  // Wire form
  // ---------------------------------------------------------------------

  function ItemJson(i: Item): Json
  {
    JObj(map["name" := i.name, "emoji" := i.emoji])
  }

  function ItemsJson(items: seq<Item>): (j: seq<Json>)
    ensures |j| == |items|
  {
    if items == [] then [] else [ItemJson(items[0])] + ItemsJson(items[1..])
  }

  function Tagged(t: string, data: Json): Json
  {
    JObj(map["type" := JStr(t), "data" := data])
  }

  /** The dict each constructor of templates.py builds; None for the two
      messages that have no constructor there. */
  function Encode(m: Msg): Option<Json>
  {
    match m
    case PairResult(id, it, isNew) =>
      var base := map["id" := id, "new_item" := if it.Some? then ItemJson(it.value) else JNull];
      Some(Tagged("pair_result", JObj(if isNew then base["is_new" := JBool(true)] else base)))
    case News(t) => Some(Tagged("news", JStr(t)))
    case Mode(t) => Some(Tagged("mode", JStr(t)))
    case Username(n) => Some(Tagged("username", JStr(n)))
    case Items(xs) => Some(Tagged("items", JArr(ItemsJson(xs))))
    case Error(t) => Some(Tagged("error", JStr(t)))
    case Retry => Some(JObj(map["type" := JStr("retry")]))
    case Clear => Some(JObj(map["type" := JStr("clear")]))
    case Bingo(_) => None
    case Timer(_) => None
  }

  function DecodeItem(j: Json): Option<Item>
  {
    if j.JObj? && j.fields.Keys == {"name", "emoji"} then Some(Item(j.fields["name"], j.fields["emoji"]))
    else None
  }

  function DecodeItems(js: seq<Json>): Option<seq<Item>>
  {
    if js == [] then Some([])
    else
      match (DecodeItem(js[0]), DecodeItems(js[1..]))
      case (Some(i), Some(rest)) => Some([i] + rest)
      case _ => None
  }

  function DecodeText(data: Json): Option<string>
  {
    if data.JStr? then Some(data.s) else None
  }

  function DecodePair(d: map<string, Json>): Option<Msg>
  {
    if "id" !in d || "new_item" !in d then None
    else
      var isNew := "is_new" in d;
      if d.Keys != (if isNew then {"id", "new_item", "is_new"} else {"id", "new_item"}) then None
      else if isNew && d["is_new"] != JBool(true) then None
      else if d["new_item"] == JNull then Some(PairResult(d["id"], None, isNew))
      else
        match DecodeItem(d["new_item"])
        case Some(i) => Some(PairResult(d["id"], Some(i), isNew))
        case None => None
  }

  /** Reads a `{type, data}` object back into the message it encodes. */
  function Decode(j: Json): Option<Msg>
  {
    if !j.JObj? || "type" !in j.fields || !j.fields["type"].JStr? then None
    else
      var t := j.fields["type"].s;
      if t == "retry" || t == "clear" then
        if j.fields.Keys == {"type"} then Some(if t == "retry" then Retry else Clear) else None
      else if j.fields.Keys != {"type", "data"} then None
      else
        var data := j.fields["data"];
        if t == "pair_result" then (if data.JObj? then DecodePair(data.fields) else None)
        else if t == "items" then
          (if data.JArr? then match DecodeItems(data.items) case Some(xs) => Some(Items(xs)) case None => None
           else None)
        else
          match DecodeText(data)
          case None => None
          case Some(s) =>
            if t == "news" then Some(News(s))
            else if t == "mode" then Some(Mode(s))
            else if t == "username" then Some(Username(s))
            else if t == "error" then Some(Error(s))
            else None
  }

  lemma {:induction false} ItemsRoundTrip(items: seq<Item>)
    ensures DecodeItems(ItemsJson(items)) == Some(items)
  {
    if items != [] {
      ItemsRoundTrip(items[1..]);
      assert ItemsJson(items)[0] == ItemJson(items[0]);
      assert ItemsJson(items)[1..] == ItemsJson(items[1..]);
      assert [items[0]] + items[1..] == items;
    }
  }

  /** The round trip of a `pair_result`. */
  lemma PairRoundTrip(id: Json, it: Option<Item>, isNew: bool)
    ensures Decode(Encode(PairResult(id, it, isNew)).value) == Some(PairResult(id, it, isNew))
  {
    var base := map["id" := id, "new_item" := if it.Some? then ItemJson(it.value) else JNull];
    var d := if isNew then base["is_new" := JBool(true)] else base;
    assert d.Keys == (if isNew then {"id", "new_item", "is_new"} else {"id", "new_item"});
    if it.Some? {
      assert ItemJson(it.value) != JNull;
      assert ItemJson(it.value).fields.Keys == {"name", "emoji"};
    }
    assert DecodePair(d) == Some(PairResult(id, it, isNew));
  }

  /** The round trip of an `item_list`. */
  lemma ItemsMsgRoundTrip(xs: seq<Item>)
    ensures Decode(Encode(Items(xs)).value) == Some(Items(xs))
  {
    ItemsRoundTrip(xs);
  }

  /** Every message with a wire form reads back as itself. */
  lemma EncodeDecode(m: Msg)
    requires Encode(m).Some?
    ensures Decode(Encode(m).value) == Some(m)
  {
    match m
    case Items(xs) => ItemsMsgRoundTrip(xs);
    case PairResult(id, it, isNew) => PairRoundTrip(id, it, isNew);
    case _ =>
  }

  /** `pair_result` carries `is_new: True` exactly when the item is new and
      omits the field otherwise; `pair_empty_result` sends `new_item: None`. */
  lemma PairResultWire(id: Json, it: Option<Item>, isNew: bool)
    ensures var j := Encode(PairResult(id, it, isNew));
      j.Some? && j.value.JObj? && "data" in j.value.fields && j.value.fields["data"].JObj?
      && var d := j.value.fields["data"].fields;
        ("is_new" in d <==> isNew)
        && (isNew ==> d["is_new"] == JBool(true))
        && "new_item" in d && (d["new_item"] == JNull <==> it.None?)
  {
  }

  /** `clear` and `retry` carry no data. */
  lemma NoDataMessages()
    ensures Encode(Clear).Some? && Encode(Clear).value.JObj? && "data" !in Encode(Clear).value.fields
    ensures Encode(Retry).Some? && Encode(Retry).value.JObj? && "data" !in Encode(Retry).value.fields
  {
  }

  /** The type tag of each message with a wire form. */
  lemma TypeTags(m: Msg)
    requires Encode(m).Some?
    ensures var f := Encode(m).value.fields;
      f["type"] == JStr(match m
        case PairResult(_, _, _) => "pair_result"
        case News(_) => "news"
        case Mode(_) => "mode"
        case Username(_) => "username"
        case Items(_) => "items"
        case Error(_) => "error"
        case Retry => "retry"
        case Clear => "clear"
        case _ => "")
  {
  }
}
