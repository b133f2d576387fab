/** The socket (test/server.js:467-586): the application's view of one
    connection over any transport, with its table of reply callbacks, the
    single-use `done`/`fail` pair offered for events that expect a reply, the
    heartbeat supervisor, and the registry of live sockets by id
    (test/server.js:464).

    The transport is not an object here: each operation returns the text it
    hands to `transport.send`, or whether it asks the transport to close. The
    application's callbacks are represented by their identity, and the
    operation that would run one returns it with its argument instead. */
module Session {
  import opened Base
  import opened Json
  import opened Wire

  /** A function the application handed to `socket.send`. */
  datatype Callback = Callback(handle: nat)

  /** What the socket's own listeners do with an inbound event. */
  datatype Dispatch =
    | Replied(callback: Callback, data: Option<Json>)  // the stored callback runs with the reply's data
    | ReplyIgnored                                     // no stored callback for the carried id
    | ReplyCrashed                                     // `reply.id` read on undefined or null throws
    | HeartbeatEcho(wire: string)                      // the timer re-armed and a heartbeat sent back
    | Delivered                                        // only the application's listeners see it

  // ----- reply correlation -----------------------------------------------

  /** The value of `reply.id` as a property key, where `reply` is the inbound
      event's data; `None` when reading it throws. A primitive, an array or an
      object without `id` has `undefined` there, whose key is "undefined". */
  function ReplyKey(data: Option<Json>): (r: Option<string>)
    ensures r.None? <==> data.None? || data == Some(JNull)
  {
    match data
    case None => None
    case Some(JNull) => None
    case Some(d) =>
      match Property(d, "id")
      case None => Some("undefined")
      case Some(v) => Some(ToJsString(v))
  }

  /** `reply.data`, for data on which `reply.id` could be read. */
  function ReplyPayload(data: Option<Json>): Option<Json>
  {
    if data.Some? then Property(data.value, "data") else None
  }

  /** The result of `key in socket.callbacks` and what the call
      `socket.callbacks[key].call(...)` then reaches. */
  datatype Lookup = Own(callback: Callback) | Absent | Inherited | Throws

  /** The names a plain JavaScript object inherits from `Object.prototype`. */
  const InheritedNames: set<string> :=
    {"constructor", "hasOwnProperty", "isPrototypeOf", "propertyIsEnumerable", "toLocaleString",
     "toString", "valueOf", "__lookupGetter__", "__lookupSetter__",
     "__proto__", "__defineGetter__", "__defineSetter__"}

  /** The inherited names whose value cannot be called with the socket and a
      non-function argument: `__proto__` is no function, and the two
      `__define…__` methods demand a function as their second argument. */
  const ThrowingNames: set<string> := {"__proto__", "__defineGetter__", "__defineSetter__"}

  /** The lookup as written (test/server.js:551-553): `in` on a plain object
      also finds inherited properties. The table never holds an own entry
      under an inherited name, since its keys are the ids `uuid.v4` makes. */
  function LookupAsWritten(callbacks: map<string, Callback>, key: string): (r: Lookup)
    ensures r.Own? ==> key in callbacks && r.callback == callbacks[key]
  {
    if key in callbacks then Own(callbacks[key])
    else if key in ThrowingNames then Throws
    else if key in InheritedNames then Inherited
    else Absent
  }

  /** A reply whose id is `__proto__`, sent when no callback is stored, makes
      the lookup as written throw instead of ignoring the reply. */
  lemma ProtoReplyThrows()
    ensures ReplyKey(Some(JObj([Member("id", JStr("__proto__"))]))) == Some("__proto__")
    ensures LookupAsWritten(map[], "__proto__") == Throws
  {
  }

  /** The lookup the reply handler is meant to make: own entries only. */
  function LookupOwn(callbacks: map<string, Callback>, key: string): (r: Lookup)
    ensures r.Own? <==> key in callbacks
    ensures r.Own? ==> r.callback == callbacks[key]
    ensures !r.Own? ==> r == Absent
  {
    if key in callbacks then Own(callbacks[key]) else Absent
  }

  /** The two lookups agree on every id that is not an inherited name. */
  lemma LookupAgrees(callbacks: map<string, Callback>, key: string)
    requires key !in InheritedNames
    ensures LookupAsWritten(callbacks, key) == LookupOwn(callbacks, key)
  {
  }

  /** The socket's `reply` listener on the callback table (test/server.js:551-557):
      the callback stored under the carried id runs once with the reply's data
      and its entry is deleted; an unknown id leaves the table as it is. */
  function OnReply(callbacks: map<string, Callback>, data: Option<Json>): (r: (map<string, Callback>, Dispatch))
    ensures r.1.Replied? <==> ReplyKey(data).Some? && ReplyKey(data).value in callbacks
    ensures r.1.Replied? ==>
      var key := ReplyKey(data).value;
      r.1.callback == callbacks[key] && r.1.data == ReplyPayload(data) && r.0 == callbacks - {key}
    ensures !r.1.Replied? ==> r.0 == callbacks
    ensures r.1 == ReplyCrashed <==> ReplyKey(data).None?
  {
    match ReplyKey(data)
    case None => (callbacks, ReplyCrashed)
    case Some(key) =>
      match LookupOwn(callbacks, key)
      case Own(cb) => (callbacks - {key}, Replied(cb, ReplyPayload(data)))
      case _ => (callbacks, ReplyIgnored)
  }

  /** A callback fires at most once: the same reply delivered again is ignored. */
  lemma ReplyFiresOnce(callbacks: map<string, Callback>, data: Option<Json>)
    requires OnReply(callbacks, data).1.Replied?
    ensures OnReply(OnReply(callbacks, data).0, data).1 == ReplyIgnored
  {
  }

  /** A reply for one id leaves the callbacks stored under every other id in place. */
  lemma ReplyKeepsOthers(callbacks: map<string, Callback>, data: Option<Json>, other: string)
    requires other in callbacks && ReplyKey(data) != Some(other)
    ensures other in OnReply(callbacks, data).0
    ensures OnReply(callbacks, data).0[other] == callbacks[other]
  {
  }

  // ----- the reply latch ---------------------------------------------------

  /** One answer the application gives through a reply context. */
  datatype Call = DoneCall(result: Option<Json>) | FailCall(result: Option<Json>)

  /** The data of the `reply` event answering the inbound event `eventId`:
      `exception` is false for `done` and true for `fail`. */
  function ReplyFor(eventId: Option<Json>, call: Call): Json
  {
    ReplyData(eventId, call.result, call.FailCall?)
  }

  /** The outbound `reply` event `socket.send("reply", …)` builds. */
  function ReplyEvent(freshId: string, data: Json): Event
  {
    Event(freshId, "reply", Some(data), false)
  }

  /** The reply data sent for a sequence of answers, starting latched or not. */
  function Replies(eventId: Option<Json>, latched: bool, calls: seq<Call>): (r: seq<Json>)
    ensures |r| <= |calls|
    decreases |calls|
  {
    if calls == [] then []
    else (if latched then [] else [ReplyFor(eventId, calls[0])]) + Replies(eventId, true, calls[1..])
  }

  /** Once latched, nothing more is ever sent. */
  lemma {:induction false} LatchedSilent(eventId: Option<Json>, calls: seq<Call>)
    ensures Replies(eventId, true, calls) == []
    decreases |calls|
  {
    if calls != [] {
      LatchedSilent(eventId, calls[1..]);
    }
  }

  /** Any sequence of `done`/`fail` calls on a fresh context sends exactly one
      reply when it is not empty, the one for the first call. */
  lemma AtMostOneReply(eventId: Option<Json>, calls: seq<Call>)
    ensures |Replies(eventId, false, calls)| == if calls == [] then 0 else 1
    ensures calls != [] ==> Replies(eventId, false, calls) == [ReplyFor(eventId, calls[0])]
  {
    if calls != [] {
      LatchedSilent(eventId, calls[1..]);
    }
  }

  /** The client reads back the inbound event's id, the result and which of
      its callbacks to run from the reply data. */
  lemma ReplyFields(eventId: Option<Json>, call: Call)
    ensures Property(ReplyFor(eventId, call), "id") == eventId
    ensures Property(ReplyFor(eventId, call), "data") == call.result
    ensures Property(ReplyFor(eventId, call), "exception") == Some(JBool(call.FailCall?))
  {
    var ms := ReplyFor(eventId, call).members;
    var n := |ms|;
    assert ms[n - 1] == Member("exception", JBool(call.FailCall?));
    var init := OptionalMember("id", eventId) + OptionalMember("data", call.result);
    assert ms[..n - 1] == init;
    if call.result.Some? {
      assert init[|init| - 1] == Member("data", call.result.value);
      assert LastMember(init, "data") == call.result;
    } else {
      assert forall i :: 0 <= i < |init| ==> init[i].key == "id";
    }
    if eventId.Some? {
      var ids := OptionalMember("id", eventId);
      assert init[..1] == ids;
      if call.result.Some? {
        assert init[..|init| - 1] == ids;
      } else {
        assert init == ids;
      }
      assert LastMember(init, "id") == eventId;
    } else {
      assert forall i :: 0 <= i < |init| ==> init[i].key == "data";
    }
  }

  // ----- the heartbeat supervisor -----------------------------------------

  /** What reaches the supervisor: a `heartbeat` event from the client, or
      the heartbeat interval elapsing without one. */
  datatype Signal = Beat | Elapse

  /** How many times the supervisor closes the socket over `signals`, with
      `armed` saying whether its timer is pending at the start. */
  function Closes(enabled: bool, armed: bool, signals: seq<Signal>): (r: nat)
    ensures r <= |signals|
    decreases |signals|
  {
    if signals == [] then 0
    else match signals[0]
      case Beat => Closes(enabled, armed || enabled, signals[1..])
      case Elapse => (if armed then 1 else 0) + Closes(enabled, false, signals[1..])
  }

  function Beats(signals: seq<Signal>): nat
  {
    if signals == [] then 0 else (if signals[0] == Beat then 1 else 0) + Beats(signals[1..])
  }

  /** A socket opened without a heartbeat interval is never closed by the supervisor. */
  lemma {:induction false} DisabledNeverCloses(signals: seq<Signal>)
    ensures Closes(false, false, signals) == 0
  {
    if signals != [] {
      DisabledNeverCloses(signals[1..]);
    }
  }

  /** Each close is paid for by the initial arming or by a heartbeat received. */
  lemma {:induction false} ClosesBound(enabled: bool, armed: bool, signals: seq<Signal>)
    ensures Closes(enabled, armed, signals) <= (if armed then 1 else 0) + Beats(signals)
    decreases |signals|
  {
    if signals != [] {
      ClosesBound(enabled, armed || enabled, signals[1..]);
      ClosesBound(enabled, false, signals[1..]);
    }
  }

  /** Silence after the timer is armed closes the socket exactly once. */
  lemma SilenceClosesOnce(enabled: bool, rest: seq<Signal>)
    requires forall i :: 0 <= i < |rest| ==> rest[i] == Elapse
    ensures Closes(enabled, true, [Elapse] + rest) == 1
  {
    assert ([Elapse] + rest)[1..] == rest;
    UnarmedSilence(enabled, rest);
  }

  lemma {:induction false} UnarmedSilence(enabled: bool, rest: seq<Signal>)
    requires forall i :: 0 <= i < |rest| ==> rest[i] == Elapse
    ensures Closes(enabled, false, rest) == 0
  {
    if rest != [] {
      UnarmedSilence(enabled, rest[1..]);
    }
  }

  // ----- the registry ------------------------------------------------------

  /** The `sockets` object (test/server.js:464): live sockets by id. */
  class Registry {
    var sockets: map<string, Socket>

    constructor ()
      ensures sockets == map[]
    {
      sockets := map[];
    }

    /** Every entry is filed under its socket's own id. */
    predicate Keyed()
      reads this
    {
      forall k :: k in sockets ==> sockets[k].id == k
    }

    /** `req.params.id in sockets` and `sockets[req.params.id]`
        (test/server.js:110-111, 124-125, 185-186). */
    function Lookup(id: string): (r: Option<Socket>)
      reads this
      ensures r.Some? <==> id in sockets
      ensures r.Some? && Keyed() ==> r.value.id == id
    {
      if id in sockets then Some(sockets[id]) else None
    }
  }

  // ----- the socket ----------------------------------------------------------

  class Socket {
    /** `params.id`, chosen by the client. */
    const id: string
    /** `+params.heartbeat` is a non-zero number. */
    const heartbeat: bool
    const registry: Registry
    /** `socket.callbacks`: reply callbacks by the id of the event that expects the reply. */
    var callbacks: map<string, Callback>
    /** The heartbeat timer is pending. */
    var heartbeatArmed: bool

    /** `socket(params, transport)`: registers the socket under its id,
        replacing any socket filed there, and arms the heartbeat timer when an
        interval is given (test/server.js:525, 547, 560-564). */
    constructor (id: string, heartbeat: bool, registry: Registry)
      modifies registry
      ensures this.id == id && this.heartbeat == heartbeat && this.registry == registry
      ensures callbacks == map[] && heartbeatArmed == heartbeat
      ensures registry.sockets == old(registry.sockets)[id := this]
      ensures old(registry.Keyed()) ==> registry.Keyed()
    {
      this.id := id;
      this.heartbeat := heartbeat;
      this.registry := registry;
      callbacks := map[];
      heartbeatArmed := heartbeat;
      new;
      registry.sockets := registry.sockets[id := this];
    }

    /** `socket.send(type, data, callback)` with `freshId` the id `uuid.v4`
        makes (test/server.js:526-541): the event expects a reply exactly when
        a callback is given, which is then stored under the event's id. */
    method Send(eventType: string, data: Option<Json>, callback: Option<Callback>, freshId: string)
      returns (wire: string)
      modifies this`callbacks
      ensures wire == Serialize(Event(freshId, eventType, data, callback.Some?))
      ensures callbacks == if callback.Some? then old(callbacks)[freshId := callback.value] else old(callbacks)
    {
      wire := Serialize(Event(freshId, eventType, data, callback.Some?));
      if callback.Some? {
        callbacks := callbacks[freshId := callback.value];
      }
    }

    /** The transport's `message` event with the parsed event `e`
        (test/server.js:482-522, 550-557, 566-573). `ctx` is the reply context
        offered to the listeners, null when the event expects no reply; the
        `reply` and `heartbeat` listeners are the socket's own, and every
        event also reaches the application's listeners for its type. */
    method OnMessage(e: Inbound, freshId: string) returns (outcome: Dispatch, ctx: ReplyContext?)
      modifies this`callbacks, this`heartbeatArmed
      ensures (ctx == null) <==> !e.reply
      ensures ctx != null ==> fresh(ctx) && ctx.socket == this && ctx.eventId == e.id && !ctx.latch
      ensures e.eventType == "reply" ==>
        (callbacks, outcome) == OnReply(old(callbacks), e.data) && heartbeatArmed == old(heartbeatArmed)
      ensures e.eventType == "heartbeat" && heartbeat ==>
        outcome == HeartbeatEcho(Serialize(Event(freshId, "heartbeat", None, false)))
        && heartbeatArmed && callbacks == old(callbacks)
      ensures e.eventType != "reply" && (e.eventType != "heartbeat" || !heartbeat) ==>
        outcome == Delivered && callbacks == old(callbacks) && heartbeatArmed == old(heartbeatArmed)
    {
      if e.reply {
        ctx := new ReplyContext(this, e.id);
      } else {
        ctx := null;
      }
      if e.eventType == "reply" {
        var r := OnReply(callbacks, e.data);
        callbacks := r.0;
        outcome := r.1;
      } else if e.eventType == "heartbeat" && heartbeat {
        heartbeatArmed := true;
        var wire := Send("heartbeat", None, None, freshId);
        outcome := HeartbeatEcho(wire);
      } else {
        outcome := Delivered;
      }
    }

    /** The heartbeat interval elapses (test/server.js:577-579): a pending
        timer fires and the socket closes its transport. */
    method HeartbeatElapsed() returns (closeTransport: bool)
      modifies this`heartbeatArmed
      ensures closeTransport == old(heartbeatArmed)
      ensures !heartbeatArmed
    {
      closeTransport := heartbeatArmed;
      heartbeatArmed := false;
    }

    /** The transport's `close` event (test/server.js:475-480): the entry
        under the socket's id is deleted, whichever socket it holds. A second
        notification deletes nothing more. */
    method OnTransportClose()
      modifies registry
      ensures registry.sockets == old(registry.sockets) - {id}
      ensures old(registry.Keyed()) ==> registry.Keyed()
    {
      registry.sockets := registry.sockets - {id};
    }
  }

  /** The object with `done` and `fail` offered for an event that expects a
      reply (test/server.js:498-520); `latch` is shared by the two. */
  class ReplyContext {
    const socket: Socket
    /** `event.id` of the inbound event, as the client sent it. */
    const eventId: Option<Json>
    var latch: bool

    constructor (socket: Socket, eventId: Option<Json>)
      ensures this.socket == socket && this.eventId == eventId && !latch
    {
      this.socket := socket;
      this.eventId := eventId;
      latch := false;
    }

    /** `done(result)`: the first answer sends the reply with `exception` false. */
    method Done(result: Option<Json>, freshId: string) returns (wire: Option<string>)
      modifies this`latch, socket`callbacks
      ensures latch && socket.callbacks == old(socket.callbacks)
      ensures wire == if old(latch) then None
                      else Some(Serialize(ReplyEvent(freshId, ReplyFor(eventId, DoneCall(result)))))
    {
      wire := Answer(DoneCall(result), freshId);
    }

    /** `fail(result)`: the first answer sends the reply with `exception` true. */
    method Fail(result: Option<Json>, freshId: string) returns (wire: Option<string>)
      modifies this`latch, socket`callbacks
      ensures latch && socket.callbacks == old(socket.callbacks)
      ensures wire == if old(latch) then None
                      else Some(Serialize(ReplyEvent(freshId, ReplyFor(eventId, FailCall(result)))))
    {
      wire := Answer(FailCall(result), freshId);
    }

    method Answer(call: Call, freshId: string) returns (wire: Option<string>)
      modifies this`latch, socket`callbacks
      ensures latch && socket.callbacks == old(socket.callbacks)
      ensures wire == if old(latch) then None
                      else Some(Serialize(ReplyEvent(freshId, ReplyFor(eventId, call))))
    {
      if !latch {
        latch := true;
        var w := socket.Send("reply", Some(ReplyFor(eventId, call)), None, freshId);
        wire := Some(w);
      } else {
        wire := None;
      }
    }
  }
}
