/** The browser's WebSocket client (src/services/websocketClient.ts): one socket at a
    time, a status that every status subscriber hears about, message handlers by message
    type, and automatic reconnection after an unintended close, at most five times in a
    row. The browser's WebSocket is outside the model: each socket is a number, and its
    "open", "message" and "close" events are methods called with that number.
    Subscribers are numbers too (a JavaScript function's identity), and what a
    subscriber is called with is appended to a log. */
module WebSocket {
  import opened Wrappers

  datatype Status = Connecting | Open | Reconnecting | Closed | Failed

  /** The socket the client holds: its number and whether it has opened. */
  datatype Socket = Socket(id: nat, open: bool)

  type HandlerId = nat

  const MaxReconnectAttempts := 5
  const ReconnectDelay := 2000

  /** The calls a `forEach` over handlers makes: every handler, in order, with the same
      argument. A status change calls the subscribers with the new status; a message calls
      the handlers registered for its type with its data. */
  function Calls<A>(handlers: seq<HandlerId>, arg: A): (calls: seq<(HandlerId, A)>)
    ensures |calls| == |handlers|
    ensures forall k :: 0 <= k < |calls| ==> calls[k] == (handlers[k], arg)
  {
    seq(|handlers|, k requires 0 <= k < |handlers| => (handlers[k], arg))
  }

  /** `indexOf`: the first position of `h`, or -1. */
  function IndexOf(hs: seq<HandlerId>, h: HandlerId): (r: int)
    ensures -1 <= r < |hs|
    ensures r >= 0 ==> hs[r] == h && forall k :: 0 <= k < r ==> hs[k] != h
    ensures r == -1 <==> h !in hs
    decreases |hs|
  {
    if |hs| == 0 then -1
    else if hs[0] == h then 0
    else
      var r := IndexOf(hs[1..], h);
      if r == -1 then -1 else r + 1
  }

  /** `splice(indexOf(h), 1)` when h is there: its first occurrence is removed. */
  function RemoveFirst(hs: seq<HandlerId>, h: HandlerId): (r: seq<HandlerId>)
    ensures h !in hs ==> r == hs
    ensures h in hs ==> |r| == |hs| - 1 && multiset(r) == multiset(hs) - multiset{h}
    ensures h in hs ==> exists i :: 0 <= i < |hs| && hs[i] == h && h !in hs[..i] && r == hs[..i] + hs[i + 1..]
  {
    var i := IndexOf(hs, h);
    if i == -1 then hs
    else
      assert hs == hs[..i] + [h] + hs[i + 1..];
      assert h !in hs[..i];
      hs[..i] + hs[i + 1..]
  }

  /** Unsubscribing a handler that was just subscribed gives the list back when the
      handler was not already in it. When it was, the earlier registration is the one
      removed, so the list keeps its contents but not its order. */
  lemma OnThenOff(hs: seq<HandlerId>, h: HandlerId)
    ensures multiset(RemoveFirst(hs + [h], h)) == multiset(hs)
    ensures h !in hs ==> RemoveFirst(hs + [h], h) == hs
  {
    if h !in hs {
      assert IndexOf(hs + [h], h) == |hs| by {
        assert (hs + [h])[|hs|] == h;
        assert forall k :: 0 <= k < |hs| ==> (hs + [h])[k] == hs[k];
      }
      assert (hs + [h])[..|hs|] == hs;
    }
  }

  /** A concrete case of the reordering: with [h, g] registered, registering h again and
      then unsubscribing it leaves [g, h]. */
  lemma OnThenOffReorders(h: HandlerId, g: HandlerId)
    requires h != g
    ensures RemoveFirst([h, g] + [h], h) == [g, h]
  {
    assert IndexOf([h, g, h], h) == 0;
    assert [h, g] + [h] == [h, g, h];
  }

  /** The status a close leaves and whether it schedules a reconnect: while the close
      was not asked for and fewer than five attempts have been made, one more attempt is
      counted and scheduled; otherwise the client settles on closed (asked for) or
      failed (not asked for). */
  function CloseOutcome(intentional: bool, attempts: nat): (r: (nat, Status, bool))
    ensures r.2 <==> !intentional && attempts < MaxReconnectAttempts
    ensures r.2 ==> r.0 == attempts + 1 && r.1 == Reconnecting
    ensures !r.2 ==> r.0 == attempts && r.1 == (if intentional then Closed else Failed)
  {
    if !intentional && attempts < MaxReconnectAttempts then (attempts + 1, Reconnecting, true)
    else (attempts, if intentional then Closed else Failed, false)
  }

  /** How many reconnects `n` unintended closes in a row schedule, with no successful
      open in between, starting from `attempts`. */
  function ReconnectsScheduled(attempts: nat, n: nat): nat
    decreases n
  {
    if n == 0 then 0
    else
      var r := CloseOutcome(false, attempts);
      (if r.2 then 1 else 0) + ReconnectsScheduled(r.0, n - 1)
  }

  /** However many times the socket closes without ever opening, the client schedules
      no more reconnects than the five allowed (fewer when attempts were already made). */
  lemma {:induction false} ReconnectsAreBounded(attempts: nat, n: nat)
    requires attempts <= MaxReconnectAttempts
    ensures ReconnectsScheduled(attempts, n) == if n < MaxReconnectAttempts - attempts then n else MaxReconnectAttempts - attempts
    decreases n
  {
    if n > 0 {
      var r := CloseOutcome(false, attempts);
      ReconnectsAreBounded(r.0, n - 1);
    }
  }

  /** After an intended close, a close event never schedules a reconnect and always
      reports closed. */
  lemma IntendedCloseStays(attempts: nat)
    ensures CloseOutcome(true, attempts) == (attempts, Closed, false)
  {
  }

  class WebSocketClient {
    var ws: Option<Socket>
    /** The number the next socket gets. */
    var nextSocket: nat
    /** The message handlers of each message type, in registration order. */
    var handlers: map<string, seq<HandlerId>>
    /** The status subscribers, a set kept in insertion order. */
    var statusHandlers: seq<HandlerId>
    var reconnectAttempts: nat
    var isIntentionallyClosed: bool
    var status: Status
    /** Reconnect timers that are scheduled and have not fired. */
    var pendingReconnects: nat
    /** Every call made to a status subscriber, in order. */
    var statusLog: seq<(HandlerId, Status)>
    /** Every call made to a message handler, in order. */
    var deliveryLog: seq<(HandlerId, string)>
    /** Every frame sent, with the socket it went on. */
    var sentLog: seq<(nat, string)>
    /** The sockets the client asked to close. */
    var closeLog: seq<nat>

    ghost predicate Valid()
      reads this
    {
      && reconnectAttempts <= MaxReconnectAttempts
      && (forall i, j :: 0 <= i < j < |statusHandlers| ==> statusHandlers[i] != statusHandlers[j])
      && (ws.Some? ==> ws.value.id < nextSocket)
    }

    constructor ()
      ensures Valid()
      ensures ws == None && nextSocket == 0 && handlers == map[] && statusHandlers == []
      ensures reconnectAttempts == 0 && !isIntentionallyClosed && status == Closed && pendingReconnects == 0
      ensures statusLog == [] && deliveryLog == [] && sentLog == [] && closeLog == []
    {
      ws := None;
      nextSocket := 0;
      handlers := map[];
      statusHandlers := [];
      reconnectAttempts := 0;
      isIntentionallyClosed := false;
      status := Closed;
      pendingReconnects := 0;
      statusLog := [];
      deliveryLog := [];
      sentLog := [];
      closeLog := [];
    }

    /** `setStatus`: the status changes and every subscriber is called once with it. */
    method SetStatus(s: Status)
      modifies this`status, this`statusLog
      ensures status == s
      ensures statusLog == old(statusLog) + Calls(statusHandlers, s)
    {
      status := s;
      var k := 0;
      while k < |statusHandlers|
        invariant 0 <= k <= |statusHandlers|
        invariant status == s
        invariant statusLog == old(statusLog) + Calls(statusHandlers[..k], s)
      {
        assert Calls(statusHandlers[..k + 1], s) == Calls(statusHandlers[..k], s) + [(statusHandlers[k], s)];
        statusLog := statusLog + [(statusHandlers[k], s)];
        k := k + 1;
      }
      assert statusHandlers[..k] == statusHandlers;
    }

    /** `connect`: nothing happens while the socket is open. Otherwise the close is no
        longer intended, the status becomes reconnecting (after failed attempts) or
        connecting, and a new socket replaces the old one, or, when the browser refuses
        to create it, the status becomes failed. */
    method Connect(creationFails: bool)
      requires Valid()
      modifies this`ws, this`nextSocket, this`isIntentionallyClosed, this`status, this`statusLog
      ensures Valid()
      ensures old(ws).Some? && old(ws).value.open ==>
        ws == old(ws) && nextSocket == old(nextSocket) && isIntentionallyClosed == old(isIntentionallyClosed)
        && status == old(status) && statusLog == old(statusLog)
      ensures !(old(ws).Some? && old(ws).value.open) ==>
        var first := if reconnectAttempts > 0 then Reconnecting else Connecting;
        && !isIntentionallyClosed
        && (creationFails ==>
              ws == old(ws) && nextSocket == old(nextSocket) && status == Failed
              && statusLog == old(statusLog) + Calls(statusHandlers, first) + Calls(statusHandlers, Failed))
        && (!creationFails ==>
              ws == Some(Socket(old(nextSocket), false)) && nextSocket == old(nextSocket) + 1 && status == first
              && statusLog == old(statusLog) + Calls(statusHandlers, first))
    {
      if ws.Some? && ws.value.open {
        return;
      }
      isIntentionallyClosed := false;
      SetStatus(if reconnectAttempts > 0 then Reconnecting else Connecting);
      if creationFails {
        SetStatus(Failed);
      } else {
        ws := Some(Socket(nextSocket, false));
        nextSocket := nextSocket + 1;
      }
    }

    /** The "open" event of socket `id`: the attempts are forgotten and the status
        becomes open. The handler belongs to the client, not to the socket, so a socket
        that has since been replaced still does this. */
    method OnSocketOpen(id: nat)
      requires Valid() && id < nextSocket
      modifies this`ws, this`reconnectAttempts, this`status, this`statusLog
      ensures Valid()
      ensures ws == (if old(ws).Some? && old(ws).value.id == id then Some(Socket(id, true)) else old(ws))
      ensures reconnectAttempts == 0 && status == Open
      ensures statusLog == old(statusLog) + Calls(statusHandlers, Open)
    {
      if ws.Some? && ws.value.id == id {
        ws := Some(Socket(id, true));
      }
      reconnectAttempts := 0;
      SetStatus(Open);
    }

    /** The "close" event of socket `id`: the client drops whatever socket it holds
        (even one newer than `id`), then follows `CloseOutcome`. */
    method OnSocketClose(id: nat)
      requires Valid() && id < nextSocket
      modifies this`ws, this`reconnectAttempts, this`status, this`statusLog, this`pendingReconnects
      ensures Valid()
      ensures ws == None
      ensures var r := CloseOutcome(isIntentionallyClosed, old(reconnectAttempts));
        && reconnectAttempts == r.0 && status == r.1
        && pendingReconnects == old(pendingReconnects) + (if r.2 then 1 else 0)
        && statusLog == old(statusLog) + Calls(statusHandlers, r.1)
    {
      ws := None;
      if !isIntentionallyClosed && reconnectAttempts < MaxReconnectAttempts {
        reconnectAttempts := reconnectAttempts + 1;
        SetStatus(Reconnecting);
        pendingReconnects := pendingReconnects + 1;
      } else {
        SetStatus(if isIntentionallyClosed then Closed else Failed);
      }
    }

    /** A reconnect timer fires and calls `connect`. */
    method OnReconnectTimer(creationFails: bool)
      requires Valid() && pendingReconnects > 0
      modifies this`ws, this`nextSocket, this`isIntentionallyClosed, this`status, this`statusLog, this`pendingReconnects
      ensures Valid()
      ensures pendingReconnects == old(pendingReconnects) - 1
      ensures old(ws).None? && !creationFails ==>
        && ws == Some(Socket(old(nextSocket), false)) && !isIntentionallyClosed
        && status == (if reconnectAttempts > 0 then Reconnecting else Connecting)
    {
      pendingReconnects := pendingReconnects - 1;
      Connect(creationFails);
    }

    /** `disconnect`: the close becomes intended, the socket (if any) is asked to close
        and dropped, and the status becomes closed. */
    method Disconnect()
      requires Valid()
      modifies this`ws, this`isIntentionallyClosed, this`closeLog, this`status, this`statusLog
      ensures Valid()
      ensures isIntentionallyClosed && ws == None && status == Closed
      ensures closeLog == old(closeLog) + (if old(ws).Some? then [old(ws).value.id] else [])
      ensures statusLog == old(statusLog) + Calls(statusHandlers, Closed)
    {
      isIntentionallyClosed := true;
      if ws.Some? {
        closeLog := closeLog + [ws.value.id];
        ws := None;
      }
      SetStatus(Closed);
    }

    /** `disconnect` as it is evidently meant to work: besides everything `Disconnect`
        does, the scheduled reconnects are cancelled, so no timer can reopen a socket
        the caller closed. */
    method DisconnectCancellingReconnects()
      requires Valid()
      modifies this`ws, this`isIntentionallyClosed, this`closeLog, this`status, this`statusLog, this`pendingReconnects
      ensures Valid()
      ensures isIntentionallyClosed && ws == None && status == Closed && pendingReconnects == 0
      ensures closeLog == old(closeLog) + (if old(ws).Some? then [old(ws).value.id] else [])
      ensures statusLog == old(statusLog) + Calls(statusHandlers, Closed)
    {
      Disconnect();
      pendingReconnects := 0;
    }

    /** `on`: the handler is appended to its type's list (created empty when needed). */
    method On(msgType: string, h: HandlerId)
      modifies this`handlers
      ensures handlers == old(handlers)[msgType := HandlersOf(old(handlers), msgType) + [h]]
    {
      if msgType !in handlers {
        handlers := handlers[msgType := []];
      }
      handlers := handlers[msgType := handlers[msgType] + [h]];
    }

    /** `off`: the handler's first registration for the type is removed; an unknown
        type or handler changes nothing, and an emptied list stays in the map. */
    method Off(msgType: string, h: HandlerId)
      modifies this`handlers
      ensures msgType !in old(handlers) ==> handlers == old(handlers)
      ensures msgType in old(handlers) ==> handlers == old(handlers)[msgType := RemoveFirst(old(handlers)[msgType], h)]
    {
      if msgType in handlers {
        var hs := handlers[msgType];
        var index := IndexOf(hs, h);
        if index > -1 {
          assert hs[..index] + hs[index + 1..] == RemoveFirst(hs, h);
          handlers := handlers[msgType := hs[..index] + hs[index + 1..]];
        } else {
          assert RemoveFirst(hs, h) == hs;
          assert handlers == handlers[msgType := hs];
        }
      }
    }

    /** `onStatusChange`: a set insertion, so a subscriber is called once per change
        however often it subscribes. */
    method OnStatusChange(h: HandlerId)
      requires Valid()
      modifies this`statusHandlers
      ensures Valid()
      ensures h in old(statusHandlers) ==> statusHandlers == old(statusHandlers)
      ensures h !in old(statusHandlers) ==> statusHandlers == old(statusHandlers) + [h]
    {
      if h !in statusHandlers {
        statusHandlers := statusHandlers + [h];
      }
    }

    /** `offStatusChange`: a set deletion. */
    method OffStatusChange(h: HandlerId)
      requires Valid()
      modifies this`statusHandlers
      ensures Valid()
      ensures h !in statusHandlers
      ensures statusHandlers == RemoveFirst(old(statusHandlers), h)
    {
      var index := IndexOf(statusHandlers, h);
      if index > -1 {
        var hs := statusHandlers;
        statusHandlers := hs[..index] + hs[index + 1..];
        assert forall k :: 0 <= k < |statusHandlers| ==> statusHandlers[k] == hs[if k < index then k else k + 1];
      }
    }

    /** `getStatus`. */
    function GetStatus(): Status
      reads this
    {
      status
    }

    /** `isConnected`: a socket is held and it has opened. */
    function IsConnected(): (b: bool)
      reads this
      ensures b <==> ws.Some? && ws.value.open
    {
      ws.Some? && ws.value.open
    }

    /** `send`: the frame goes out on the socket only while it is open. */
    method Send(frame: string)
      modifies this`sentLog
      ensures IsConnected() ==> sentLog == old(sentLog) + [(ws.value.id, frame)]
      ensures !IsConnected() ==> sentLog == old(sentLog)
    {
      if ws.Some? && ws.value.open {
        sentLog := sentLog + [(ws.value.id, frame)];
      }
    }

    /** A "message" event: text that is not JSON is dropped; otherwise `handleMessage`
        calls each handler registered for the message's type with its data. */
    method OnSocketMessage(parsed: Option<(string, string)>)
      modifies this`deliveryLog
      ensures parsed.None? ==> deliveryLog == old(deliveryLog)
      ensures parsed.Some? ==>
        deliveryLog == old(deliveryLog) + Calls(HandlersOf(handlers, parsed.value.0), parsed.value.1)
    {
      if parsed.Some? {
        HandleMessage(parsed.value.0, parsed.value.1);
      }
    }

    /** `handleMessage`. */
    method HandleMessage(msgType: string, data: string)
      modifies this`deliveryLog
      ensures deliveryLog == old(deliveryLog) + Calls(HandlersOf(handlers, msgType), data)
    {
      if msgType in handlers {
        var hs := handlers[msgType];
        var k := 0;
        while k < |hs|
          invariant 0 <= k <= |hs|
          invariant deliveryLog == old(deliveryLog) + Calls(hs[..k], data)
        {
          assert Calls(hs[..k + 1], data) == Calls(hs[..k], data) + [(hs[k], data)];
          deliveryLog := deliveryLog + [(hs[k], data)];
          k := k + 1;
        }
        assert hs[..k] == hs;
      }
    }
  }

  /** `disconnect` does not cancel a reconnect already scheduled: when the connection
      drops, the user disconnects within the two seconds, and then the timer fires, the
      client opens a new socket and no longer counts the close as intended. */
  method DisconnectDuringBackoff() returns (c: WebSocketClient)
    ensures c.Valid() && c.ws == Some(Socket(1, false)) && !c.isIntentionallyClosed && c.status == Reconnecting
  {
    c := new WebSocketClient();
    c.Connect(false);
    c.OnSocketClose(0);
    assert c.reconnectAttempts == 1 && c.pendingReconnects == 1;
    c.Disconnect();
    c.OnReconnectTimer(false);
  }

  /** With reconnects cancelled on disconnect, no timer is left to fire: the client
      stays closed until `connect` is called again. */
  method DisconnectStaysClosed() returns (c: WebSocketClient)
    ensures c.Valid() && c.ws == None && c.isIntentionallyClosed && c.status == Closed && c.pendingReconnects == 0
  {
    c := new WebSocketClient();
    c.Connect(false);
    c.OnSocketClose(0);
    c.DisconnectCancellingReconnects();
  }

  /** The handlers registered for a type, none when the type is unknown. */
  function HandlersOf(handlers: map<string, seq<HandlerId>>, msgType: string): seq<HandlerId> {
    if msgType in handlers then handlers[msgType] else []
  }
}
