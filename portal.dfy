/** How the parts fit together: a socket's envelope handed to the long-poll
    transport (test/server.js:540, 418-448), acknowledgement of that envelope
    by its id on a later poll (test/server.js:394-404), and the close
    notifications the transport emits around a poll (test/server.js:357-390),
    and the socket's reply latch and heartbeat supervisor driven through their
    methods and tied to the step functions that specify them
    (test/server.js:498-520, 560-580). */
module Portal {
  import opened Base
  import opened Json
  import opened Wire
  import opened LongPoll
  import opened Session

  lemma {:induction false} UnackedAppend(a: seq<string>, b: seq<string>, eventIds: seq<string>)
    ensures Unacked(a + b, eventIds) == Unacked(a, eventIds) + Unacked(b, eventIds)
  {
    if a != [] {
      UnackedAppend(a[1..], b, eventIds);
      assert (a + b)[1..] == a[1..] + b;
      assert (a + b)[0] == a[0];
    } else {
      assert a + b == b;
    }
  }

  lemma AppendDistinct(buffer: seq<string>, m: string)
    requires DistinctIds(buffer) && IdOf(m).Some?
    requires forall i :: 0 <= i < |buffer| ==> IdOf(buffer[i]) != IdOf(m)
    ensures DistinctIds(buffer + [m])
  {
    var b := buffer + [m];
    forall i | 0 <= i < |b| ensures IdOf(b[i]).Some? {
      if i < |buffer| { assert b[i] == buffer[i]; }
    }
    forall i, j | 0 <= i < |b| && 0 <= j < |b| && i != j ensures IdOf(b[i]) != IdOf(b[j]) {
      if i < |buffer| { assert b[i] == buffer[i]; }
      if j < |buffer| { assert b[j] == buffer[j]; }
    }
  }

  /** Appending an envelope with a new id keeps the buffered ids distinct, and
      acknowledging that id on the next poll removes exactly that envelope. */
  lemma AckSentEvent(buffer: seq<string>, e: Event)
    requires DistinctIds(buffer) && SafeId(e.id)
    requires forall i :: 0 <= i < |buffer| ==> IdOf(buffer[i]) != Some(e.id)
    ensures DistinctIds(buffer + [Serialize(e)])
    ensures Trim(buffer + [Serialize(e)], [e.id]) == Trimmed(buffer, false)
  {
    var m := Serialize(e);
    IdOfSerialize(e);
    AppendDistinct(buffer, m);
    var b := buffer + [m];
    TrimUnacked(b, [e.id]);
    UnackedAppend(buffer, [m], [e.id]);
    UnackedNoMatch(buffer, e.id);
    assert Acked(m, [e.id]);
    assert Unacked([m], [e.id]) == [];
  }

  /** `socket.send` over a long-poll transport: the envelope is buffered in
      any case, written when a response is held, and carries the fresh id the
      transport reads back out of it. */
  method SendOverLongPoll(s: Socket, t: Transport, eventType: string, data: Option<Json>,
                          callback: Option<Callback>, freshId: string)
    returns (body: Option<string>)
    modifies s`callbacks, t`buffer, t`written
    ensures var wire := Serialize(Event(freshId, eventType, data, callback.Some?));
      t.buffer == old(t.buffer) + [wire]
      && body == (if t.ended then None else Some(Body(t.format, wire)))
      && (SafeId(freshId) ==> IdOf(wire) == Some(freshId))
    ensures s.callbacks == if callback.Some? then old(s.callbacks)[freshId := callback.value] else old(s.callbacks)
  {
    var wire := s.Send(eventType, data, callback, freshId);
    SerializeNotBatch(Event(freshId, eventType, data, callback.Some?));
    if SafeId(freshId) {
      IdOfSerialize(Event(freshId, eventType, data, callback.Some?));
    }
    body := t.Send(wire);
  }

  /** A poll response that carried data ends and the next poll arrives before
      the idle-close timer fires: no close notification at all. */
  method PollBeforeIdleClose(t: Transport, lastEventIds: Option<string>)
    returns (onFinish: bool, onTimer: bool)
    requires t.written && !t.armed && t.strays == 0
    modifies t
    ensures !onFinish && !onTimer
  {
    onFinish := t.ResponseFinished(Poll);
    var _ := t.Refresh(Poll, lastEventIds);
    onTimer := t.Tick();
  }

  /** A poll response ends with nothing written: the client is taken to be
      gone and the close notification is immediate; the timer armed anyway
      notifies a second time unless a poll arrives. */
  method EmptyPollCloses(t: Transport) returns (onFinish: bool, onTimer: bool)
    requires !t.written && t.strays == 0
    modifies t
    ensures onFinish && onTimer
  {
    onFinish := t.ResponseFinished(Poll);
    onTimer := t.Tick();
  }

  /** A response whose `finish` and `close` events both arrive leaves a timer
      that the next poll cannot cancel: it still notifies close. */
  method BothEventsLeaveStrayTimer(t: Transport) returns (onTimer: bool)
    requires t.written && t.strays == 0
    modifies t
    ensures onTimer
  {
    var _ := t.ResponseFinished(Poll);
    var _ := t.ResponseFinished(Poll);
    var _ := t.Refresh(Poll, None);
    onTimer := t.Tick();
  }

  /** `done` and then `fail` on one reply context send exactly the one reply
      `Replies` gives for that pair of answers, the `done` one. */
  method DoneThenFail(ctx: ReplyContext, r1: Option<Json>, r2: Option<Json>, id1: string, id2: string)
    returns (w1: Option<string>, w2: Option<string>)
    requires !ctx.latch
    modifies ctx, ctx.socket
    ensures var sent := Replies(ctx.eventId, false, [DoneCall(r1), FailCall(r2)]);
      |sent| == 1 && w1 == Some(Serialize(ReplyEvent(id1, sent[0]))) && w2 == None
  {
    w1 := ctx.Done(r1, id1);
    w2 := ctx.Fail(r2, id2);
    AtMostOneReply(ctx.eventId, [DoneCall(r1), FailCall(r2)]);
  }

  /** The other order: the `fail` reply is the only one sent. */
  method FailThenDone(ctx: ReplyContext, r1: Option<Json>, r2: Option<Json>, id1: string, id2: string)
    returns (w1: Option<string>, w2: Option<string>)
    requires !ctx.latch
    modifies ctx, ctx.socket
    ensures var sent := Replies(ctx.eventId, false, [FailCall(r1), DoneCall(r2)]);
      |sent| == 1 && w1 == Some(Serialize(ReplyEvent(id1, sent[0]))) && w2 == None
  {
    w1 := ctx.Fail(r1, id1);
    w2 := ctx.Done(r2, id2);
    AtMostOneReply(ctx.eventId, [FailCall(r1), DoneCall(r2)]);
  }

  /** A socket's heartbeat supervisor driven through `signals`: a `heartbeat`
      event from the client for `Beat` (with the fresh id of its echo), the
      interval elapsing for `Elapse`. The socket asks its transport to close
      exactly as often as `Closes` counts, so the lemmas about `Closes` hold
      of the socket. */
  method Supervise(s: Socket, signals: seq<Signal>, freshIds: seq<string>) returns (closes: nat)
    requires |freshIds| == |signals|
    modifies s
    ensures closes == Closes(s.heartbeat, old(s.heartbeatArmed), signals)
  {
    closes := 0;
    var i := 0;
    while i < |signals|
      invariant 0 <= i <= |signals|
      invariant closes + Closes(s.heartbeat, s.heartbeatArmed, signals[i..])
             == Closes(s.heartbeat, old(s.heartbeatArmed), signals)
    {
      assert signals[i..][1..] == signals[i + 1..];
      if signals[i] == Beat {
        var outcome, ctx := s.OnMessage(Inbound(None, "heartbeat", None, false), freshIds[i]);
      } else {
        var close := s.HeartbeatElapsed();
        if close {
          closes := closes + 1;
        }
      }
      i := i + 1;
    }
  }
}
