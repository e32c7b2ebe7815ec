/** The pure part of `GameController.ask_llm`: how the generator's reply is
    turned into either an accepted `{name, emoji}` object or nothing. The HTTP
    request, the JSON parser and the grapheme-cluster test are parameters. */
module Resolver {
  import opened Util
  import opened JsonValue
  import opened Text

  const Fence: string := "```"

  /** Lines 225-227: trim, and when the text is wrapped in a code fence keep
      only what lies between the first newline and the last fence, trimmed. */
  function StripFence(content: string): (r: string)
    ensures Stripped(r)
  {
    var s := Strip(content);
    StripIsStripped(content);
    if StartsWith(s, Fence) && EndsWith(s, Fence) then
      RFindOfSuffix(s, Fence);
      var inner := Slice(s, Find(s, '\n') + 1, RFind(s, Fence));
      StripIsStripped(inner);
      Strip(inner)
    else
      s
  }

  /** A fenced block, with any info string on its first line, yields its body
      trimmed, whatever the body contains. */
  lemma FenceRemoved(info: string, body: string)
    requires '\n' !in info
    ensures StripFence(Fence + info + "\n" + body + "\n" + Fence) == Strip(body)
  {
    var s := Fence + info + "\n" + body + "\n" + Fence;
    FencedIsStripped(info, body);
    StripIsStripped(s);
    FencedNewline(info, body);
    RFindOfSuffix(s, Fence);
    FencedInner(info, body);
    StripDropsTrailingSpace(body, '\n');
  }

  /** A fenced block starts and ends with a fence, so trimming keeps it. */
  lemma FencedIsStripped(info: string, body: string)
    ensures var s := Fence + info + "\n" + body + "\n" + Fence;
      Stripped(s) && StartsWith(s, Fence) && EndsWith(s, Fence)
  {
    var s := Fence + info + "\n" + body + "\n" + Fence;
    assert s[0] == '`' && s[|s| - 1] == '`';
    assert s[..3] == Fence;
    assert s[|s| - 3..] == Fence;
  }

  /** The first newline of a fenced block ends its info string. */
  lemma FencedNewline(info: string, body: string)
    requires '\n' !in info
    ensures Find(Fence + info + "\n" + body + "\n" + Fence, '\n') == |Fence + info|
  {
    var s := Fence + info + "\n" + body + "\n" + Fence;
    var k := |Fence + info|;
    assert s[k] == '\n';
    assert s[..k] == Fence + info;
    FindFirst(s, '\n', k);
  }

  /** Between the first newline and the closing fence lies the body and the
      newline before the fence. */
  lemma FencedInner(info: string, body: string)
    ensures var s := Fence + info + "\n" + body + "\n" + Fence;
      Slice(s, |Fence + info| + 1, |s| - 3) == body + "\n"
  {
    var s := Fence + info + "\n" + body + "\n" + Fence;
    var k := |Fence + info|;
    assert s[k + 1..|s| - 3] == body + "\n";
  }

  /** Find returns the first index holding c. */
  lemma FindFirst(s: string, c: char, k: nat)
    requires k < |s| && s[k] == c && c !in s[..k]
    ensures Find(s, c) == k
  {
  }

  /** Text that does not start with a fence is only trimmed; in particular a
      bare JSON object is passed on as it is. */
  lemma UnfencedOnlyTrimmed(content: string)
    requires !StartsWith(Strip(content), Fence)
    ensures StripFence(content) == Strip(content)
  {
  }

  /** Stripping the fence twice changes nothing more when the result does not
      itself start with a fence. */
  lemma StripFenceSettles(content: string)
    requires !StartsWith(StripFence(content), Fence)
    ensures StripFence(StripFence(content)) == StripFence(content)
  {
    StripIsStripped(StripFence(content));
  }

  /** Line 245: one grapheme cluster (the abstract `isCluster`, standing for
      `regex.fullmatch(r"\X", s)`) of at most three code points. */
  predicate IsSingleEmoji(s: string, isCluster: string -> bool)
  {
    isCluster(s) && |s| <= 3
  }

  /** Line 247: the acceptance rule for a generated `{name, emoji}`. */
  predicate Accepts(name: Json, emoji: Json, isCluster: string -> bool)
  {
    name.JStr? && 1 <= |name.s| <= 40 && emoji.JStr? && IsSingleEmoji(emoji.s, isCluster)
  }

  /** What the HTTP exchange produced. `body` is None when the body is not
      valid JSON. */
  datatype Reply =
    | MissingKey
    | NetworkError
    | Response(status: int, body: Option<Json>)

  /** Lines 213-222: `choices[0].message.content` when every step has the
      expected shape. */
  function Content(body: Json): (c: Option<string>)
    ensures c.Some? ==> (body.JObj? && Get(body.fields, "choices").JArr?
                         && Get(body.fields, "choices").items != [])
  {
    if !body.JObj? then None
    else
      var choices := Get(body.fields, "choices");
      if !choices.JArr? || choices.items == [] then None
      else
        var first := choices.items[0];
        var message := if first.JObj? then Get(first.fields, "message") else JNull;
        var content := if message.JObj? then Get(message.fields, "content") else JNull;
        if content.JStr? then Some(content.s) else None
  }

  /** The reply body a generator sends when it answers with `text`. */
  function ReplyBody(text: string): Json
  {
    JObj(map["choices" := JArr([JObj(map["message" := JObj(map["content" := JStr(text)])])])])
  }

  lemma ContentOfReplyBody(text: string)
    ensures Content(ReplyBody(text)) == Some(text)
  {
  }

  /** Lines 141-253: the object handed to `handle_combo`, or None on every
      failure. `parse` stands for `json.loads`. */
  function Interpret(reply: Reply, parse: string -> Option<Json>, isCluster: string -> bool): (r: Option<map<string, Json>>)
    ensures r.Some? ==> reply.Response? && reply.status == 200
    ensures r.Some? ==> Accepts(Get(r.value, "name"), Get(r.value, "emoji"), isCluster)
  {
    match reply
    case MissingKey => None
    case NetworkError => None
    case Response(status, body) =>
      if status != 200 || body.None? then None
      else
        match Content(body.value)
        case None => None
        case Some(text) =>
          match parse(StripFence(text))
          case Some(JObj(result)) =>
            if Accepts(Get(result, "name"), Get(result, "emoji"), isCluster) then Some(result) else None
          case _ => None
  }

  /** Each failure path ends in None: a missing key, a network error, a
      status other than 200, a body that is not JSON, a body without usable
      content, content that does not parse, content that is not an object. */
  lemma FailuresGiveNothing(parse: string -> Option<Json>, isCluster: string -> bool, status: int, body: Json, text: string)
    ensures Interpret(MissingKey, parse, isCluster).None?
    ensures Interpret(NetworkError, parse, isCluster).None?
    ensures status != 200 ==> Interpret(Response(status, Some(body)), parse, isCluster).None?
    ensures Interpret(Response(200, None), parse, isCluster).None?
    ensures Content(body).None? ==> Interpret(Response(200, Some(body)), parse, isCluster).None?
    ensures (parse(StripFence(text)).None? || !parse(StripFence(text)).value.JObj?) ==>
      Interpret(Response(200, Some(ReplyBody(text))), parse, isCluster).None?
  {
    ContentOfReplyBody(text);
    var parsed := parse(StripFence(text));
    if parsed.None? || !parsed.value.JObj? {
      assert Interpret(Response(200, Some(ReplyBody(text))), parse, isCluster).None?;
    }
  }

  /** A well-formed reply whose content parses to an object is accepted
      exactly when the acceptance rule holds, and then that object is the
      result. */
  lemma AcceptedIff(parse: string -> Option<Json>, isCluster: string -> bool, text: string, result: map<string, Json>)
    requires parse(StripFence(text)) == Some(JObj(result))
    ensures var r := Interpret(Response(200, Some(ReplyBody(text))), parse, isCluster);
      (r.Some? <==> Accepts(Get(result, "name"), Get(result, "emoji"), isCluster))
      && (r.Some? ==> r.value == result)
  {
    ContentOfReplyBody(text);
  }

  /** Wrapping the answer in a fence does not change the outcome. */
  lemma FencedAnswerSameAsPlain(parse: string -> Option<Json>, isCluster: string -> bool, info: string, answer: string)
    requires '\n' !in info
    requires !StartsWith(Strip(answer), Fence)
    ensures Interpret(Response(200, Some(ReplyBody(Fence + info + "\n" + answer + "\n" + Fence))), parse, isCluster)
         == Interpret(Response(200, Some(ReplyBody(answer))), parse, isCluster)
  {
    FenceRemoved(info, answer);
    UnfencedOnlyTrimmed(answer);
    ContentOfReplyBody(answer);
    ContentOfReplyBody(Fence + info + "\n" + answer + "\n" + Fence);
  }
}
