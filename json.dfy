/**
  JSON values as they appear in event contents, the one Gson conversion the
  room performs on them (a list of user ids), and the conversion between an
  outgoing message and the JSON object that becomes an event's content.
*/
module Json {
  import opened Options

  datatype Json =
    | JNull
    | JBool(b: bool)
    | JNumber(n: int)
    | JString(s: string)
    | JArray(items: seq<Json>)
    | JObject(fields: map<string, Json>)

  /** An event's content: a JSON object. */
  type Content = map<string, Json>

  /** The strings of a JSON array whose items are all strings; None as soon as one is not. */
  function StringItems(items: seq<Json>): (r: Option<seq<string>>)
    ensures r.Some? ==>
      |r.value| == |items| && forall i :: 0 <= i < |items| ==> items[i] == JString(r.value[i])
    ensures r.None? ==> exists i :: 0 <= i < |items| && !items[i].JString?
  {
    if items == [] then Some([])
    else
      match items[0]
      case JString(s) =>
        (match StringItems(items[1..])
         case Some(rest) => Some([s] + rest)
         case None => None)
      case _ => None
  }

  /**
    Gson's `fromJson(element, List<String>)`: a JSON array of strings becomes
    that list; JSON null becomes a null list (None); any other shape makes
    Gson throw, which the caller also sees as no list (None).
  */
  function ParseStringList(j: Json): (r: Option<seq<string>>)
    ensures r.Some? <==> j.JArray? && forall i :: 0 <= i < |j.items| ==> j.items[i].JString?
    ensures r.Some? ==> |r.value| == |j.items| && forall i :: 0 <= i < |j.items| ==> j.items[i] == JString(r.value[i])
  {
    match j
    case JArray(items) => StringItems(items)
    case _ => None
  }

  /** The JSON array holding the given strings, in order. */
  function StringArray(xs: seq<string>): (j: Json)
    ensures j.JArray? && |j.items| == |xs|
  {
    JArray(seq(|xs|, i requires 0 <= i < |xs| => JString(xs[i])))
  }

  /** Parsing an array built from a list of strings gives back exactly that list. */
  lemma {:induction false} ParseStringArray(xs: seq<string>)
    ensures ParseStringList(StringArray(xs)) == Some(xs)
  {
    var r := ParseStringList(StringArray(xs));
    assert r.Some?;
    assert |r.value| == |xs|;
    forall i | 0 <= i < |xs| ensures r.value[i] == xs[i] {
      assert StringArray(xs).items[i] == JString(xs[i]);
    }
    assert r.value == xs;
  }

  /** An outgoing message: its `msgtype` and its `body`. */
  datatype Message = Message(msgtype: string, body: string)

  /** `JsonUtils.toJson(message)`: the JSON object a message is serialised to. */
  function ToJson(m: Message): (c: Content)
    ensures c.Keys == {"msgtype", "body"}
  {
    map["msgtype" := JString(m.msgtype), "body" := JString(m.body)]
  }

  /** The string at key `k` of a JSON object, or the empty string when there is none. */
  function StringField(c: Content, k: string): string {
    if k in c && c[k].JString? then c[k].s else ""
  }

  /** `JsonUtils.toMessage(content)`: the message an event's content describes. */
  function ToMessage(c: Content): (m: Message)
    ensures "msgtype" in c && c["msgtype"].JString? ==> m.msgtype == c["msgtype"].s
    ensures "body" in c && c["body"].JString? ==> m.body == c["body"].s
  {
    Message(StringField(c, "msgtype"), StringField(c, "body"))
  }

  /** Reading back the content a message was serialised to gives that message. */
  lemma MessageRoundTrip(m: Message)
    ensures ToMessage(ToJson(m)) == m
  {
  }
}
