/** The long-polling transport (test/server.js:329-457): a pseudo-connection
    made of a sequence of request/response exchanges. Between exchanges the
    messages sent are kept in a buffer, flushed as one batch on the next poll
    and trimmed only when the client acknowledges their ids.

    Timers are events: `Tick` is the moment the oldest pending close timer
    fires. The HTTP response is not an object here: "a live response is held"
    is `!ended`, and each operation returns what it writes on it. */
module LongPoll {
  import opened Base
  import opened Json
  import opened Wire

  /** `req.params.when` of the exchange that `refresh` receives. */
  datatype Phase = Open | Poll

  /** The first request's `transport` parameter: `Jsonp` for `longpolljsonp`,
      carrying the `callback` parameter (JavaScript writes an absent one as
      the text "undefined"); `Plain` for `longpollajax` and `longpollxdr`. */
  datatype Format = Plain | Jsonp(callback: string)

  /** What `refresh` does with the response it is given. */
  datatype RefreshOutcome =
    | EndedEmpty              // `res.end()` with no body: the open exchange
    | Held                    // kept open until something is sent or it ends
    | Flushed(body: string)   // the buffer sent as one batch, ending the response
    | Crashed                 // a buffered message had no id: `exec(...)[1]` threw

  // ----- response bodies -------------------------------------------------

  /** The text `response.end(payload)` writes for `data` (test/server.js:435-443). */
  function Body(format: Format, data: string): (r: string)
    ensures format.Jsonp? ==> |r| >= 2 && r[|r| - 2..] == ");"
  {
    match format
    case Plain => data
    case Jsonp(cb) => cb + "(" + Quote(data) + ");"
  }

  /** A JSONP body is a call of the callback whose one argument is a string
      literal that JSON-decodes to exactly the data sent. */
  lemma JsonpRoundTrip(cb: string, data: string)
    ensures var b := Body(Jsonp(cb), data);
      |b| >= |cb| + 3 && b[..|cb| + 1] == cb + "(" && b[|b| - 2..] == ");"
      && Unquote(b[|cb| + 1..|b| - 2]) == Some(data)
  {
    var b := Body(Jsonp(cb), data);
    assert b[|cb| + 1..|b| - 2] == Quote(data);
    QuoteRoundTrip(data);
  }

  /** `"[" + buffer.join(",") + "]"` (test/server.js:411). */
  function Batch(buffer: seq<string>): (r: string)
    ensures IsBatch(r)
  {
    "[" + Join(buffer, ",") + "]"
  }

  // ----- acknowledgement -------------------------------------------------

  /** The acknowledged ids of a poll: `lastEventIds.split(",")` when the
      parameter is present and not empty (test/server.js:394-396). */
  function AckIds(lastEventIds: Option<string>): (r: seq<string>)
    ensures r == [] <==> lastEventIds.None? || lastEventIds.value == ""
    ensures r != [] ==> Join(r, ",") == lastEventIds.value
    ensures forall i :: 0 <= i < |r| ==> ',' !in r[i]
  {
    if lastEventIds.None? || lastEventIds.value == "" then []
    else
      JoinSplitOn(lastEventIds.value, ',');
      SplitOn(lastEventIds.value, ',')
  }

  datatype Trimmed = Trimmed(buffer: seq<string>, crashed: bool)

  function Remove(s: seq<string>, j: nat): (r: seq<string>)
    requires j < |s|
    ensures |r| == |s| - 1
    ensures multiset(r) + multiset{s[j]} == multiset(s)
  {
    assert s == s[..j] + [s[j]] + s[j + 1..];
    s[..j] + s[j + 1..]
  }

  /** `s.indexOf(x)`: the first position holding `x`. */
  function IndexOf(s: seq<string>, x: string): (j: nat)
    requires x in s
    ensures j < |s| && s[j] == x
    ensures forall i :: 0 <= i < j ==> s[i] != x
  {
    if s[0] == x then 0 else 1 + IndexOf(s[1..], x)
  }

  /** One `buffer.forEach` for the acknowledged id `eventId`, from index `k`
      of a pass that visits the indices below `n`, the length when it began
      (test/server.js:397-403). An index beyond the current length is
      skipped; a matching message is spliced out at its first occurrence,
      which shifts the next message onto the index just visited; a message
      the id expression does not match stops everything. */
  function Pass(buffer: seq<string>, eventId: string, k: nat, n: nat): (r: Trimmed)
    ensures |r.buffer| <= |buffer|
    decreases n - k
  {
    if k >= n then Trimmed(buffer, false)
    else if k >= |buffer| then Pass(buffer, eventId, k + 1, n)
    else match IdOf(buffer[k])
      case None => Trimmed(buffer, true)
      case Some(id) =>
        if id == eventId then Pass(Remove(buffer, IndexOf(buffer, buffer[k])), eventId, k + 1, n)
        else Pass(buffer, eventId, k + 1, n)
  }

  /** The passes for all acknowledged ids, in order (test/server.js:396-404). */
  function Trim(buffer: seq<string>, eventIds: seq<string>): (r: Trimmed)
    ensures |r.buffer| <= |buffer|
    decreases |eventIds|
  {
    if eventIds == [] then Trimmed(buffer, false)
    else
      var t := Pass(buffer, eventIds[0], 0, |buffer|);
      if t.crashed then t else Trim(t.buffer, eventIds[1..])
  }

  lemma {:induction false} PassOnlyRemoves(buffer: seq<string>, eventId: string, k: nat, n: nat)
    ensures multiset(Pass(buffer, eventId, k, n).buffer) <= multiset(buffer)
    decreases n - k
  {
    if k < n {
      if k >= |buffer| {
        PassOnlyRemoves(buffer, eventId, k + 1, n);
      } else if IdOf(buffer[k]).Some? {
        if IdOf(buffer[k]).value == eventId {
          var j := IndexOf(buffer, buffer[k]);
          PassOnlyRemoves(Remove(buffer, j), eventId, k + 1, n);
        } else {
          PassOnlyRemoves(buffer, eventId, k + 1, n);
        }
      }
    }
  }

  /** Trimming, whatever the buffered ids, only takes messages out of the buffer. */
  lemma {:induction false} TrimOnlyRemoves(buffer: seq<string>, eventIds: seq<string>)
    ensures multiset(Trim(buffer, eventIds).buffer) <= multiset(buffer)
    decreases |eventIds|
  {
    if eventIds != [] {
      PassOnlyRemoves(buffer, eventIds[0], 0, |buffer|);
      var t := Pass(buffer, eventIds[0], 0, |buffer|);
      if !t.crashed {
        TrimOnlyRemoves(t.buffer, eventIds[1..]);
      }
    }
  }

  predicate Acked(message: string, eventIds: seq<string>)
  {
    IdOf(message).Some? && IdOf(message).value in eventIds
  }

  /** The messages not acknowledged, in their order: what trimming is meant to leave. */
  function Unacked(buffer: seq<string>, eventIds: seq<string>): seq<string>
  {
    if buffer == [] then []
    else (if Acked(buffer[0], eventIds) then [] else [buffer[0]]) + Unacked(buffer[1..], eventIds)
  }

  /** Every buffered message carries an id and no two carry the same one, as
      holds for the envelopes a socket sends with fresh ids. */
  predicate DistinctIds(buffer: seq<string>)
  {
    (forall i :: 0 <= i < |buffer| ==> IdOf(buffer[i]).Some?)
    && forall i, j :: 0 <= i < |buffer| && 0 <= j < |buffer| && i != j ==> IdOf(buffer[i]) != IdOf(buffer[j])
  }

  lemma {:induction false} UnackedMembers(buffer: seq<string>, eventIds: seq<string>, m: string)
    ensures m in Unacked(buffer, eventIds) <==> m in buffer && !Acked(m, eventIds)
  {
    if buffer != [] {
      UnackedMembers(buffer[1..], eventIds, m);
      assert buffer == [buffer[0]] + buffer[1..];
    }
  }

  /** What is left is no longer than the buffer, and its ids stay distinct. */
  lemma {:induction false} UnackedKeepsDistinct(buffer: seq<string>, eventIds: seq<string>)
    ensures |Unacked(buffer, eventIds)| <= |buffer|
    ensures DistinctIds(buffer) ==> DistinctIds(Unacked(buffer, eventIds))
  {
    if buffer != [] {
      UnackedKeepsDistinct(buffer[1..], eventIds);
      var rest := Unacked(buffer[1..], eventIds);
      if DistinctIds(buffer) {
        assert DistinctIds(buffer[1..]) by {
          forall i, j | 0 <= i < |buffer| - 1 && 0 <= j < |buffer| - 1 && i != j
            ensures IdOf(buffer[1..][i]) != IdOf(buffer[1..][j])
          {
            assert buffer[1..][i] == buffer[i + 1] && buffer[1..][j] == buffer[j + 1];
          }
        }
        forall m | m in rest ensures IdOf(m) != IdOf(buffer[0]) {
          UnackedMembers(buffer[1..], eventIds, m);
          var k :| 0 <= k < |buffer| - 1 && buffer[1..][k] == m;
          assert buffer[k + 1] == m;
        }
        var r := Unacked(buffer, eventIds);
        if !Acked(buffer[0], eventIds) {
          assert r == [buffer[0]] + rest;
          forall i, j | 0 <= i < |r| && 0 <= j < |r| && i != j ensures IdOf(r[i]) != IdOf(r[j]) {
            if i > 0 && j > 0 {
              assert r[i] == rest[i - 1] && r[j] == rest[j - 1];
            } else if i == 0 {
              assert r[j] == rest[j - 1] && rest[j - 1] in rest;
            } else {
              assert r[i] == rest[i - 1] && rest[i - 1] in rest;
            }
          }
        } else {
          assert r == rest;
        }
      }
    }
  }

  /** No message from index `k` on is acknowledged by `eventId`: the rest of
      the pass changes nothing. */
  lemma {:induction false} PassNoMatch(buffer: seq<string>, eventId: string, k: nat, n: nat)
    requires forall j :: k <= j < |buffer| ==> IdOf(buffer[j]).Some? && IdOf(buffer[j]).value != eventId
    ensures Pass(buffer, eventId, k, n) == Trimmed(buffer, false)
    decreases n - k
  {
    if k < n {
      PassNoMatch(buffer, eventId, k + 1, n);
    }
  }

  /** The one message acknowledged by `eventId` is at `p`, not before `k`:
      the pass removes exactly it. */
  lemma {:induction false} PassOneMatch(buffer: seq<string>, eventId: string, k: nat, n: nat, p: nat)
    requires DistinctIds(buffer)
    requires k <= p < |buffer| && p < n
    requires IdOf(buffer[p]) == Some(eventId)
    ensures Pass(buffer, eventId, k, n) == Trimmed(Remove(buffer, p), false)
    decreases n - k
  {
    if k < p {
      assert IdOf(buffer[k]) != IdOf(buffer[p]);
      PassOneMatch(buffer, eventId, k + 1, n, p);
    } else {
      assert IndexOf(buffer, buffer[p]) == p by {
        var q := IndexOf(buffer, buffer[p]);
        assert IdOf(buffer[q]) == IdOf(buffer[p]) ==> q == p;
      }
      var r := Remove(buffer, p);
      forall j | p + 1 <= j < |r| ensures IdOf(r[j]).Some? && IdOf(r[j]).value != eventId {
        assert r[j] == buffer[j + 1];
        assert IdOf(buffer[j + 1]) != IdOf(buffer[p]);
      }
      PassNoMatch(r, eventId, p + 1, n);
    }
  }

  lemma {:induction false} UnackedNoMatch(buffer: seq<string>, eventId: string)
    requires forall j :: 0 <= j < |buffer| ==> IdOf(buffer[j]).Some? && IdOf(buffer[j]).value != eventId
    ensures Unacked(buffer, [eventId]) == buffer
  {
    if buffer != [] {
      UnackedNoMatch(buffer[1..], eventId);
      assert buffer == [buffer[0]] + buffer[1..];
    }
  }

  lemma {:induction false} UnackedOneMatch(buffer: seq<string>, eventId: string, p: nat)
    requires DistinctIds(buffer)
    requires p < |buffer| && IdOf(buffer[p]) == Some(eventId)
    ensures Unacked(buffer, [eventId]) == Remove(buffer, p)
  {
    if p == 0 {
      forall j | 0 <= j < |buffer| - 1
        ensures IdOf(buffer[1..][j]).Some? && IdOf(buffer[1..][j]).value != eventId
      {
        assert buffer[1..][j] == buffer[j + 1];
        assert IdOf(buffer[j + 1]) != IdOf(buffer[0]);
      }
      UnackedNoMatch(buffer[1..], eventId);
    } else {
      assert IdOf(buffer[0]) != IdOf(buffer[p]);
      assert DistinctIds(buffer[1..]) by {
        forall i, j | 0 <= i < |buffer| - 1 && 0 <= j < |buffer| - 1 && i != j
          ensures IdOf(buffer[1..][i]) != IdOf(buffer[1..][j])
        {
          assert buffer[1..][i] == buffer[i + 1] && buffer[1..][j] == buffer[j + 1];
        }
      }
      assert buffer[1..][p - 1] == buffer[p];
      UnackedOneMatch(buffer[1..], eventId, p - 1);
      assert Remove(buffer, p) == [buffer[0]] + Remove(buffer[1..], p - 1);
    }
  }

  /** One pass removes exactly the messages `eventId` acknowledges. */
  lemma PassUnacked(buffer: seq<string>, eventId: string)
    requires DistinctIds(buffer)
    ensures Pass(buffer, eventId, 0, |buffer|) == Trimmed(Unacked(buffer, [eventId]), false)
  {
    if p :| 0 <= p < |buffer| && IdOf(buffer[p]) == Some(eventId) {
      PassOneMatch(buffer, eventId, 0, |buffer|, p);
      UnackedOneMatch(buffer, eventId, p);
    } else {
      PassNoMatch(buffer, eventId, 0, |buffer|);
      UnackedNoMatch(buffer, eventId);
    }
  }

  lemma {:induction false} UnackedTwice(buffer: seq<string>, e: string, rest: seq<string>)
    ensures Unacked(Unacked(buffer, [e]), rest) == Unacked(buffer, [e] + rest)
  {
    if buffer != [] {
      UnackedTwice(buffer[1..], e, rest);
      var head := buffer[0];
      assert Acked(head, [e] + rest) <==> Acked(head, [e]) || Acked(head, rest);
      var u := Unacked(buffer, [e]);
      var u' := Unacked(buffer[1..], [e]);
      if !Acked(head, [e]) {
        assert u == [head] + u';
        assert u[0] == head && u[1..] == u';
        assert Unacked(u, rest) == (if Acked(head, rest) then [] else [head]) + Unacked(u', rest);
      } else {
        assert u == u';
      }
    }
  }

  /** Acknowledgement trimming removes every message whose id was
      acknowledged and nothing else, keeping the order, when the buffered ids
      are distinct. */
  lemma {:induction false} TrimUnacked(buffer: seq<string>, eventIds: seq<string>)
    requires DistinctIds(buffer)
    ensures Trim(buffer, eventIds) == Trimmed(Unacked(buffer, eventIds), false)
    decreases |eventIds|
  {
    if eventIds == [] {
      UnackedNone(buffer);
    } else {
      var e := eventIds[0];
      PassUnacked(buffer, e);
      var once := Unacked(buffer, [e]);
      UnackedKeepsDistinct(buffer, [e]);
      TrimUnacked(once, eventIds[1..]);
      UnackedTwice(buffer, e, eventIds[1..]);
      assert [e] + eventIds[1..] == eventIds;
    }
  }

  lemma {:induction false} UnackedNone(buffer: seq<string>)
    ensures Unacked(buffer, []) == buffer
  {
    if buffer != [] {
      UnackedNone(buffer[1..]);
      assert buffer == [buffer[0]] + buffer[1..];
    }
  }

  /** The forEach pass really can skip: with two equal messages next to each
      other, the second moves onto the visited index when the first is
      spliced out, and stays. */
  lemma AdjacentDuplicateSurvives(m: string, eventId: string)
    requires IdOf(m) == Some(eventId)
    ensures Pass([m, m], eventId, 0, 2) == Trimmed([m], false)
  {
    assert Remove([m, m], 0) == [m];
  }

  // ----- the transport ---------------------------------------------------

  class Transport {
    /** The first request's parameters decide the body format. */
    const format: Format
    /** Messages kept for a client that has not acknowledged them. */
    var buffer: seq<string>
    /** The current response has finished; no live response is held. */
    var ended: bool
    /** Data was written on the current response. */
    var written: bool
    /** `closeTimer` refers to a timer that has neither fired nor been cleared. */
    var armed: bool
    /** Older close timers still pending that `closeTimer` no longer refers to,
        so that `clearTimeout` cannot reach them. */
    var strays: nat

    /** The state the transport starts in, before its first `refresh`
        (test/server.js:330-344). The source leaves `ended` undefined until the
        open response finishes; here no live response is held from the start. */
    constructor (format: Format)
      ensures this.format == format
      ensures buffer == [] && ended && !written && !armed && strays == 0
    {
      this.format := format;
      buffer := [];
      ended := true;
      written := false;
      armed := false;
      strays := 0;
    }

    /** `transport.send(data)` (test/server.js:418-448). */
    method Send(data: string) returns (body: Option<string>)
      modifies this`buffer, this`written
      ensures buffer == if IsBatch(data) then old(buffer) else old(buffer) + [data]
      ensures written == (old(written) || !ended)
      ensures body == if ended then None else Some(Body(format, data))
    {
      if !IsBatch(data) {
        buffer := buffer + [data];
      }
      if !ended {
        written := true;
        body := Some(Body(format, data));
      } else {
        body := None;
      }
    }

    /** The nested `forEach` loops of test/server.js:396-404. */
    method Acknowledge(eventIds: seq<string>) returns (crashed: bool)
      modifies this`buffer
      ensures Trim(old(buffer), eventIds) == Trimmed(buffer, crashed)
    {
      crashed := false;
      var i := 0;
      while i < |eventIds| && !crashed
        invariant 0 <= i <= |eventIds|
        invariant Trim(old(buffer), eventIds)
               == if crashed then Trimmed(buffer, true) else Trim(buffer, eventIds[i..])
      {
        var eventId := eventIds[i];
        ghost var start := buffer;
        var n := |buffer|;
        var k := 0;
        while k < n && !crashed
          invariant 0 <= k <= n
          invariant Pass(start, eventId, 0, n)
                 == if crashed then Trimmed(buffer, true) else Pass(buffer, eventId, k, n)
        {
          if k < |buffer| {
            var message := buffer[k];
            var id := IdOf(message);
            if id.None? {
              crashed := true;
            } else if id.value == eventId {
              var j := IndexOf(buffer, message);
              buffer := buffer[..j] + buffer[j + 1..];
            }
          }
          k := k + 1;
        }
        assert eventIds[i..][1..] == eventIds[i + 1..];
        i := i + 1;
      }
    }

    /** `transport.refresh(req, res)` for a new exchange (test/server.js:347-414). */
    method Refresh(phase: Phase, lastEventIds: Option<string>) returns (r: RefreshOutcome)
      modifies this
      ensures phase == Open ==>
        r == EndedEmpty && buffer == old(buffer) && ended == old(ended)
        && written == old(written) && armed == old(armed) && strays == old(strays)
      ensures phase == Poll ==>
        var t := Trim(old(buffer), AckIds(lastEventIds));
        buffer == t.buffer && !ended && !armed && strays == old(strays)
        && written == (!t.crashed && t.buffer != [])
        && r == if t.crashed then Crashed
                else if t.buffer == [] then Held
                else Flushed(Body(format, Batch(t.buffer)))
    {
      if phase == Open {
        r := EndedEmpty;
        return;
      }
      ended, written := false, false;
      armed := false;
      var crashed := Acknowledge(AckIds(lastEventIds));
      if crashed {
        r := Crashed;
        return;
      }
      if |buffer| > 0 {
        var body := Send(Batch(buffer));
        r := Flushed(body.value);
      } else {
        r := Held;
      }
    }

    /** `transport.close()` (test/server.js:449-454): whether it ends the
        current response, with no body. */
    method Close() returns (ends: bool)
      ensures ends == !ended
    {
      ends := !ended;
    }

    /** The `finish` or `close` event of a response whose exchange had phase
        `phase` (test/server.js:357-377); `notify` is the immediate close
        notification. Node delivers it for the response it belongs to, which
        may be an earlier one than the one now held. */
    method ResponseFinished(phase: Phase) returns (notify: bool)
      modifies this`ended, this`armed, this`strays
      ensures ended && armed
      ensures notify == (phase == Poll && !written)
      ensures strays == old(strays) + if old(armed) then 1 else 0
    {
      ended := true;
      notify := phase == Poll && !written;
      if armed {
        strays := strays + 1;
      }
      armed := true;
    }

    /** The oldest pending close timer fires and emits the close notification
        (test/server.js:372-374). All close timers have the same delay, so the
        stray ones, armed earlier, fire before the one `closeTimer` refers to. */
    method Tick() returns (notify: bool)
      modifies this`armed, this`strays
      ensures notify == (old(strays) > 0 || old(armed))
      ensures if old(strays) > 0 then strays == old(strays) - 1 && armed == old(armed)
              else strays == 0 && !armed
    {
      if strays > 0 {
        strays := strays - 1;
        notify := true;
      } else {
        notify := armed;
        armed := false;
      }
    }
  }
}
