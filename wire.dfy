/** The event envelope the socket exchanges with the client:
    `{"id": …, "type": …, "data": …, "reply": …}` in JSON, and the regular
    expression `/"id":"([^"]+)"/` the long-poll transport uses to read an
    event's id back out of its serialised form (test/server.js:399). */
module Wire {
  import opened Base
  import opened Json

  /** An outbound event as `socket.send` builds it (test/server.js:528).
      `data` is `None` when the caller passed no data: `JSON.stringify` then
      leaves the member out. */
  datatype Event = Event(id: string, eventType: string, data: Option<Json>, reply: bool)

  /** An inbound event after `JSON.parse` (test/server.js:488). `id` is
      whatever the client put there (the client sends numbers), `None` when
      absent; `reply` is the truthiness of the client's `reply` member. */
  datatype Inbound = Inbound(id: Option<Json>, eventType: string, data: Option<Json>, reply: bool)

  function OptionalMember(key: string, v: Option<Json>): seq<Member>
  {
    if v.Some? then [Member(key, v.value)] else []
  }

  function EventJson(e: Event): Json
  {
    JObj([Member("id", JStr(e.id)), Member("type", JStr(e.eventType))]
         + OptionalMember("data", e.data)
         + [Member("reply", JBool(e.reply))])
  }

  /** `JSON.stringify(event)`, the text handed to the transport (test/server.js:540). */
  function Serialize(e: Event): string
  {
    Stringify(EventJson(e))
  }

  /** The data of the `reply` event that answers an inbound event:
      `{id: event.id, data: result, exception: …}` (test/server.js:507, 518). */
  function ReplyData(inboundId: Option<Json>, result: Option<Json>, exception: bool): Json
  {
    JObj(OptionalMember("id", inboundId) + OptionalMember("data", result)
         + [Member("exception", JBool(exception))])
  }

  /** The ids `uuid.v4` produces: non-empty and made of characters that
      `JSON.stringify` writes unchanged and that contain no quote. */
  predicate SafeId(id: string)
  {
    |id| > 0 && forall i :: 0 <= i < |id| ==> id[i] != '"' && id[i] != '\\' && id[i] as int >= 0x20
  }

  // ----- the id-extracting regular expression ----------------------------

  const IdKey: string := "\"id\":\""

  /** The match of `/"id":"([^"]+)"/` anchored at position `i`: the key, then
      the longest run of non-quote characters, which must be non-empty and be
      followed by a quote (backtracking to a shorter run cannot help, since a
      shorter run is followed by a non-quote). */
  function IdAt(m: string, i: nat): (r: Option<string>)
    requires i <= |m|
    ensures r.Some? ==> |r.value| > 0 && '"' !in r.value
  {
    if HasPrefix(m[i..], IdKey) then
      var t := m[i + |IdKey|..];
      var r := RunBefore(t, '"');
      if 0 < |r| < |t| then Some(r) else None
    else None
  }

  function IdFrom(m: string, i: nat): (r: Option<string>)
    requires i <= |m|
    ensures r.Some? ==> |r.value| > 0 && '"' !in r.value
    decreases |m| - i
  {
    if i == |m| then None
    else match IdAt(m, i)
      case Some(r) => Some(r)
      case None => IdFrom(m, i + 1)
  }

  /** The first capture of the leftmost match, `None` where `exec` gives `null`. */
  function IdOf(m: string): (r: Option<string>)
    ensures r.Some? ==> |r.value| > 0 && '"' !in r.value
  {
    IdFrom(m, 0)
  }

  /** `/^\[/.test(data)`: the payload is a flushed batch, not a single event. */
  predicate IsBatch(data: string)
  {
    |data| > 0 && data[0] == '['
  }

  // ----- properties ------------------------------------------------------

  /** The serialised event is a JSON object text, from `{` to `}`. */
  lemma SerializeObject(e: Event)
    ensures |Serialize(e)| >= 2 && Serialize(e)[0] == '{' && Serialize(e)[|Serialize(e)| - 1] == '}'
  {
    var j := EventJson(e);
    assert Stringify(j) == "{" + StringifyMembers(j.members, j) + "}";
  }

  /** The serialised event begins with its id member. */
  lemma SerializeHead(e: Event)
    requires SafeId(e.id)
    ensures exists rest :: Serialize(e) == "{" + IdKey + e.id + "\"" + rest
  {
    var j := EventJson(e);
    var ms := j.members;
    assert ms[0] == Member("id", JStr(e.id)) && |ms| >= 2;
    IdMemberHead(ms, j, e.id);
    var rest := "," + StringifyMembers(ms[1..], j) + "}";
    assert Serialize(e) == "{" + IdKey + e.id + "\"" + rest;
  }

  /** An object whose first member is a safe `id` is written starting with
      that member. */
  lemma IdMemberHead(ms: seq<Member>, j: Json, id: string)
    requires j == JObj(ms) && |ms| >= 2 && ms[0] == Member("id", JStr(id)) && SafeId(id)
    ensures Stringify(j) == "{" + IdKey + id + "\"" + ("," + StringifyMembers(ms[1..], j) + "}")
  {
    ObjectHead(ms, j);
    QuoteId(id);
    Regroup("{", IdKey, id, "\"");
  }

  lemma Regroup(a: string, b: string, c: string, d: string)
    ensures a + (b + c + d) == a + b + c + d
  {
  }

  lemma QuoteId(id: string)
    requires SafeId(id)
    ensures Quote("id") + ":" + Stringify(JStr(id)) == IdKey + id + "\""
  {
    EscapePlain(id);
    EscapePlain("id");
  }

  /** The long-poll transport reads back exactly the id the socket gave the event. */
  lemma IdOfSerialize(e: Event)
    requires SafeId(e.id)
    ensures IdOf(Serialize(e)) == Some(e.id)
  {
    SerializeHead(e);
    var rest :| Serialize(e) == "{" + IdKey + e.id + "\"" + rest;
    var m := Serialize(e);
    assert !HasPrefix(m[0..], IdKey) by { assert m[0] == '{'; }
    assert IdAt(m, 0) == None;
    assert m[1..][..|IdKey|] == IdKey;
    var t := m[1 + |IdKey|..];
    assert t == e.id + ['"'] + rest;
    assert '"' !in e.id by {
      forall i | 0 <= i < |e.id| ensures e.id[i] != '"' { }
    }
    RunBeforeDelimiter(e.id, '"', rest);
    assert IdAt(m, 1) == Some(e.id);
    assert IdFrom(m, 1) == Some(e.id);
    assert IdFrom(m, 0) == IdFrom(m, 1);
  }

  /** Every serialised event is an object, so the long-poll transport buffers it. */
  lemma SerializeNotBatch(e: Event)
    ensures !IsBatch(Serialize(e))
  {
    assert Serialize(e)[0] == '{';
  }
}
