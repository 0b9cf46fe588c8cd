/** The browser's single feed connection (frontend/src/lib/websocket.ts): the
    module variables `socket`, `reconnectTimeout` and `messageHandlers`, driven
    by `connectWebSocket`, the socket's open/message/close callbacks, the
    reconnect timer, `sendWebSocketMessage`, `onWebSocketMessage` and
    `disconnectWebSocket`.

    Every socket ever created keeps its callbacks, and those callbacks do not
    check which socket fired them, so the model keeps all sockets by handle.
    Browser events (a socket opening, closing, a frame arriving, a timer
    firing) are methods the environment calls. */
module Transport {
  import opened Text
  import opened Alert

  /** Delay of the reconnect timer, in milliseconds. */
  const ReconnectDelay: nat := 3000

  datatype ReadyState = Connecting | Open | Closing | Closed

  /** A socket created by `connectWebSocket(url)`. */
  datatype Socket = Socket(url: string, state: ReadyState)

  /** An inbound frame: a well-formed message, or text that `JSON.parse` rejects. */
  datatype Frame = Parsed(message: Message) | Malformed

  /** The handler closures registered by the dashboard: its live feed handler,
      one per history load, and one per alert card. */
  datatype HandlerId = LiveFeed | History(generation: nat) | Card(cardIndex: int)

  /** One call of a registered handler with a message. */
  datatype Delivery = Delivery(handler: HandlerId, message: Message)

  /** The handlers `forEach` reaches when the handlers in `throwing` throw:
      every handler in order, up to and including the first one that throws. */
  function Dispatch(hs: seq<HandlerId>, throwing: set<HandlerId>): (r: seq<HandlerId>)
    ensures |r| <= |hs| && r == hs[..|r|]
    ensures forall k :: 0 <= k < |r| - 1 ==> r[k] !in throwing
    ensures |r| < |hs| ==> |r| > 0 && r[|r| - 1] in throwing
    ensures (forall k :: 0 <= k < |hs| ==> hs[k] !in throwing) ==> r == hs
  {
    if hs == [] then []
    else if hs[0] in throwing then [hs[0]]
    else [hs[0]] + Dispatch(hs[1..], throwing)
  }

  /** The calls made when message `m` is handed to the handlers `hs`, in order. */
  function Deliver(hs: seq<HandlerId>, m: Message): (r: seq<Delivery>)
    ensures |r| == |hs|
    ensures forall k :: 0 <= k < |hs| ==> r[k] == Delivery(hs[k], m)
  {
    seq(|hs|, k requires 0 <= k < |hs| => Delivery(hs[k], m))
  }

  /** `Set.delete(h)` on a duplicate-free insertion-ordered set. */
  function RemoveHandler(hs: seq<HandlerId>, h: HandlerId): (r: seq<HandlerId>)
    ensures forall x :: x in r <==> x in hs && x != h
    ensures |r| <= |hs|
    ensures h !in hs ==> r == hs
  {
    if hs == [] then []
    else if hs[0] == h then RemoveHandler(hs[1..], h)
    else [hs[0]] + RemoveHandler(hs[1..], h)
  }

  predicate Distinct(hs: seq<HandlerId>) {
    forall j, k :: 0 <= j < k < |hs| ==> hs[j] != hs[k]
  }

  /** Deleting a handler registered once keeps the others in their order:
      the handlers before it, then those after it. */
  lemma RemoveHandlerAt(hs: seq<HandlerId>, h: HandlerId, i: nat)
    requires Distinct(hs) && i < |hs| && hs[i] == h
    ensures RemoveHandler(hs, h) == hs[..i] + hs[i + 1..]
  {
    DistinctAt(hs, i);
    RemoveAround(hs[..i], h, hs[i + 1..]);
    assert hs == hs[..i] + [h] + hs[i + 1..];
  }

  /** A handler registered once occurs neither before nor after its position. */
  lemma DistinctAt(hs: seq<HandlerId>, i: nat)
    requires Distinct(hs) && i < |hs|
    ensures hs[i] !in hs[..i] && hs[i] !in hs[i + 1..]
  {
    var after := hs[i + 1..];
    forall k | 0 <= k < |after| ensures after[k] != hs[i] {
      assert after[k] == hs[i + 1 + k];
    }
  }

  /** Deleting `h` from `a + [h] + b` when `h` is in neither part. */
  lemma {:induction false} RemoveAround(a: seq<HandlerId>, h: HandlerId, b: seq<HandlerId>)
    requires h !in a && h !in b
    ensures RemoveHandler(a + [h] + b, h) == a + b
    decreases |a|
  {
    if a == [] {
      assert ([h] + b)[1..] == b;
    } else {
      RemoveAround(a[1..], h, b);
      assert (a + [h] + b)[1..] == a[1..] + [h] + b;
      assert a + b == [a[0]] + (a[1..] + b);
    }
  }

  lemma {:induction false} RemoveKeepsDistinct(hs: seq<HandlerId>, h: HandlerId)
    requires Distinct(hs)
    ensures Distinct(RemoveHandler(hs, h))
  {
    if hs != [] {
      RemoveKeepsDistinct(hs[1..], h);
      var rest := RemoveHandler(hs[1..], h);
      assert forall x :: x in rest ==> x in hs[1..];
      assert hs[0] !in hs[1..];
    }
  }

  class Connector {
    /** Every socket created so far, by handle. */
    var sockets: seq<Socket>
    /** The module variable `socket`: the handle of the current socket, or null. */
    var socket: Option<nat>
    /** The module variable `reconnectTimeout`: the last timer id recorded. */
    var reconnectTimeout: Option<nat>
    /** Timers armed and neither fired nor cleared, with the url each reconnects to. */
    var timers: map<nat, string>
    /** Next id `setTimeout` hands out (timer ids are positive). */
    var nextTimer: nat
    /** The `messageHandlers` set, in insertion order. */
    var handlers: seq<HandlerId>
    /** Every frame transmitted: the socket handle and the message. */
    var sent: seq<(nat, Message)>
    /** Every handler call made by inbound frames, in order. */
    var deliveries: seq<Delivery>

    /** At most one timer is ever pending, and it is the one recorded in
        `reconnectTimeout`; the current socket exists; handlers are a set. */
    ghost predicate Valid()
      reads this
    {
      && (socket.Some? ==> socket.value < |sockets|)
      && (forall t :: t in timers ==> reconnectTimeout == Some(t))
      && (forall t :: t in timers ==> 0 < t < nextTimer)
      && 0 < nextTimer
      && Distinct(handlers)
    }

    /** Number of pending reconnect timers. */
    function PendingTimers(): (n: nat)
      reads this
      requires Valid()
      ensures n <= 1
    {
      assert timers.Keys == {} || timers.Keys == {reconnectTimeout.value};
      |timers.Keys|
    }

    /** `isWebSocketConnected()`. */
    predicate IsConnected()
      reads this
    {
      socket.Some? && socket.value < |sockets| && sockets[socket.value].state == Open
    }

    /** The module's initial state. */
    constructor ()
      ensures Valid()
      ensures sockets == [] && socket == None && reconnectTimeout == None
      ensures timers == map[] && handlers == [] && sent == [] && deliveries == []
    {
      sockets, socket, reconnectTimeout := [], None, None;
      timers, nextTimer := map[], 1;
      handlers, sent, deliveries := [], [], [];
    }

    /** `connectWebSocket(url)`: a no-op while the current socket is open;
        otherwise a new socket replaces the current one (the old one is not closed). */
    method Connect(url: string)
      requires Valid()
      modifies this
      ensures Valid()
      ensures old(IsConnected()) ==> sockets == old(sockets) && socket == old(socket)
      ensures !old(IsConnected()) ==>
        sockets == old(sockets) + [Socket(url, Connecting)] && socket == Some(|old(sockets)|)
      ensures reconnectTimeout == old(reconnectTimeout) && timers == old(timers)
      ensures nextTimer == old(nextTimer) && handlers == old(handlers)
      ensures sent == old(sent) && deliveries == old(deliveries)
    {
      if socket.Some? && sockets[socket.value].state == Open {
        return;
      }
      socket := Some(|sockets|);
      sockets := sockets + [Socket(url, Connecting)];
    }

    /** `socket.onopen` of socket `s`: cancels the recorded timer, if any. */
    method OnOpen(s: nat)
      requires Valid() && s < |sockets| && sockets[s].state == Connecting
      modifies this
      ensures Valid()
      ensures sockets == old(sockets)[s := Socket(old(sockets)[s].url, Open)]
      ensures socket == old(socket)
      ensures reconnectTimeout == None && timers == map[]
      ensures nextTimer == old(nextTimer) && handlers == old(handlers)
      ensures sent == old(sent) && deliveries == old(deliveries)
    {
      sockets := sockets[s := Socket(sockets[s].url, Open)];
      if reconnectTimeout.Some? {
        timers := timers - {reconnectTimeout.value};
        reconnectTimeout := None;
      }
    }

    /** `socket.onclose` of socket `s`: clears `socket` (whichever socket is
        current) and arms a reconnect timer only when no timer id is recorded. */
    method OnClose(s: nat)
      requires Valid() && s < |sockets| && sockets[s].state != Closed
      modifies this
      ensures Valid()
      ensures sockets == old(sockets)[s := Socket(old(sockets)[s].url, Closed)]
      ensures socket == None
      ensures old(reconnectTimeout).Some? ==>
        reconnectTimeout == old(reconnectTimeout) && timers == old(timers) && nextTimer == old(nextTimer)
      ensures old(reconnectTimeout).None? ==>
        reconnectTimeout == Some(old(nextTimer)) && timers == map[old(nextTimer) := old(sockets)[s].url]
        && nextTimer == old(nextTimer) + 1
      ensures handlers == old(handlers) && sent == old(sent) && deliveries == old(deliveries)
    {
      var url := sockets[s].url;
      sockets := sockets[s := Socket(url, Closed)];
      socket := None;
      if reconnectTimeout.None? {
        assert timers == map[];
        timers := map[nextTimer := url];
        reconnectTimeout := Some(nextTimer);
        nextTimer := nextTimer + 1;
      }
    }

    /** The reconnect timer `t` fires: it calls `connectWebSocket(url)` again and
        leaves `reconnectTimeout` as it is. */
    method FireReconnectTimer(t: nat)
      requires Valid() && t in timers
      modifies this
      ensures Valid()
      ensures timers == map[] && reconnectTimeout == old(reconnectTimeout) && reconnectTimeout == Some(t)
      ensures old(IsConnected()) ==> sockets == old(sockets) && socket == old(socket)
      ensures !old(IsConnected()) ==>
        sockets == old(sockets) + [Socket(old(timers)[t], Connecting)] && socket == Some(|old(sockets)|)
      ensures nextTimer == old(nextTimer) && handlers == old(handlers)
      ensures sent == old(sent) && deliveries == old(deliveries)
    {
      var url := timers[t];
      timers := timers - {t};
      Connect(url);
    }

    /** The timer callback as evidently intended: it forgets its own id before
        reconnecting, so that a later close can arm a new timer. */
    method FireReconnectTimerFixed(t: nat)
      requires Valid() && t in timers
      modifies this
      ensures Valid()
      ensures timers == map[] && reconnectTimeout == None
      ensures old(IsConnected()) ==> sockets == old(sockets) && socket == old(socket)
      ensures !old(IsConnected()) ==>
        sockets == old(sockets) + [Socket(old(timers)[t], Connecting)] && socket == Some(|old(sockets)|)
      ensures nextTimer == old(nextTimer) && handlers == old(handlers)
      ensures sent == old(sent) && deliveries == old(deliveries)
    {
      var url := timers[t];
      timers := timers - {t};
      reconnectTimeout := None;
      Connect(url);
    }

    /** `socket.onmessage` of an open socket: a malformed frame reaches no
        handler; a parsed one reaches the handlers in insertion order up to and
        including the first that throws. */
    method OnMessage(s: nat, frame: Frame, throwing: set<HandlerId>)
      requires Valid() && s < |sockets| && sockets[s].state == Open
      modifies this
      ensures Valid()
      ensures frame.Malformed? ==> deliveries == old(deliveries)
      ensures frame.Parsed? ==>
        deliveries == old(deliveries) + Deliver(Dispatch(handlers, throwing), frame.message)
      ensures sockets == old(sockets) && socket == old(socket) && reconnectTimeout == old(reconnectTimeout)
      ensures timers == old(timers) && nextTimer == old(nextTimer)
      ensures handlers == old(handlers) && sent == old(sent)
    {
      if frame.Parsed? {
        deliveries := deliveries + Deliver(Dispatch(handlers, throwing), frame.message);
      }
    }

    /** `sendWebSocketMessage(m)`: rejects exactly when there is no open
        current socket; otherwise transmits `m` once on it. */
    method Send(m: Message) returns (ok: bool)
      requires Valid()
      modifies this
      ensures Valid()
      ensures ok == old(IsConnected())
      ensures ok ==> sent == old(sent) + [(old(socket).value, m)]
      ensures !ok ==> sent == old(sent)
      ensures sockets == old(sockets) && socket == old(socket) && reconnectTimeout == old(reconnectTimeout)
      ensures timers == old(timers) && nextTimer == old(nextTimer)
      ensures handlers == old(handlers) && deliveries == old(deliveries)
    {
      ok := socket.Some? && sockets[socket.value].state == Open;
      if ok {
        sent := sent + [(socket.value, m)];
      }
    }

    /** `onWebSocketMessage(h)`: adds `h` to the set (a duplicate counts once). */
    method Subscribe(h: HandlerId)
      requires Valid()
      modifies this
      ensures Valid()
      ensures handlers == if h in old(handlers) then old(handlers) else old(handlers) + [h]
      ensures sockets == old(sockets) && socket == old(socket) && reconnectTimeout == old(reconnectTimeout)
      ensures timers == old(timers) && nextTimer == old(nextTimer)
      ensures sent == old(sent) && deliveries == old(deliveries)
    {
      if h !in handlers {
        handlers := handlers + [h];
      }
    }

    /** The function `onWebSocketMessage(h)` returns: deletes exactly `h`. */
    method Unsubscribe(h: HandlerId)
      requires Valid()
      modifies this
      ensures Valid()
      ensures handlers == RemoveHandler(old(handlers), h)
      ensures sockets == old(sockets) && socket == old(socket) && reconnectTimeout == old(reconnectTimeout)
      ensures timers == old(timers) && nextTimer == old(nextTimer)
      ensures sent == old(sent) && deliveries == old(deliveries)
    {
      RemoveKeepsDistinct(handlers, h);
      handlers := RemoveHandler(handlers, h);
    }

    /** `disconnectWebSocket()`: clears the timer, starts closing the current
        socket and forgets it, and drops every handler. */
    method Disconnect()
      requires Valid()
      modifies this
      ensures Valid()
      ensures reconnectTimeout == None && timers == map[] && socket == None && handlers == []
      ensures !IsConnected()
      ensures old(socket).Some? && old(sockets)[old(socket).value].state in {Connecting, Open} ==>
        sockets == old(sockets)[old(socket).value := Socket(old(sockets)[old(socket).value].url, Closing)]
      ensures !(old(socket).Some? && old(sockets)[old(socket).value].state in {Connecting, Open}) ==>
        sockets == old(sockets)
      ensures nextTimer == old(nextTimer) && sent == old(sent) && deliveries == old(deliveries)
    {
      if reconnectTimeout.Some? {
        timers := timers - {reconnectTimeout.value};
        reconnectTimeout := None;
      }
      if socket.Some? {
        var s := socket.value;
        if sockets[s].state == Connecting || sockets[s].state == Open {
          sockets := sockets[s := Socket(sockets[s].url, Closing)];
        }
        socket := None;
      }
      handlers := [];
    }
  }

  /** A reconnect attempt that closes before opening leaves the client with no
      timer for good: the callback left its own id in `reconnectTimeout`. */
  method FailedReconnectStalls(url: string) returns (pendingAfterDrop: nat, pendingAfterRetry: nat, connected: bool)
    ensures pendingAfterDrop == 1
    ensures pendingAfterRetry == 0
    ensures !connected
  {
    var c := new Connector();
    c.Connect(url);
    c.OnOpen(0);
    c.OnClose(0);
    pendingAfterDrop := c.PendingTimers();
    var t := c.reconnectTimeout.value;
    c.FireReconnectTimer(t);
    c.OnClose(1);
    pendingAfterRetry := c.PendingTimers();
    connected := c.IsConnected();
  }

  /** With the corrected callback, the failed attempt arms the next one. */
  method FixedReconnectRetries(url: string) returns (pendingAfterRetry: nat, nextUrl: string)
    ensures pendingAfterRetry == 1
    ensures nextUrl == url
  {
    var c := new Connector();
    c.Connect(url);
    c.OnOpen(0);
    c.OnClose(0);
    c.FireReconnectTimerFixed(c.reconnectTimeout.value);
    c.OnClose(1);
    pendingAfterRetry := c.PendingTimers();
    nextUrl := c.timers[c.reconnectTimeout.value];
  }

  /** Exactly one reconnect attempt follows a dropped connection: the timer
      creates one new socket to the same address. */
  method DropReconnectsOnce(url: string) returns (socketsAfterFire: nat, attemptUrl: string, pendingAfterFire: nat)
    ensures socketsAfterFire == 2 && attemptUrl == url && pendingAfterFire == 0
  {
    var c := new Connector();
    c.Connect(url);
    c.OnOpen(0);
    c.OnClose(0);
    c.FireReconnectTimer(c.reconnectTimeout.value);
    socketsAfterFire := |c.sockets|;
    attemptUrl := c.sockets[1].url;
    pendingAfterFire := c.PendingTimers();
  }

  /** The close event that `disconnectWebSocket` itself causes still runs the
      socket's close callback, which arms a reconnect timer. */
  method DisconnectStillReconnects(url: string) returns (pendingAfterDisconnect: nat, pendingAfterClose: nat)
    ensures pendingAfterDisconnect == 0
    ensures pendingAfterClose == 1
  {
    var c := new Connector();
    c.Connect(url);
    c.OnOpen(0);
    c.Disconnect();
    pendingAfterDisconnect := c.PendingTimers();
    c.OnClose(0);
    pendingAfterClose := c.PendingTimers();
  }

  /** A socket replaced while connecting still owns its callbacks: its late
      close clears `socket`, so the client reports itself disconnected and
      refuses to send although the newer socket is open. */
  method StaleCloseHidesOpenSocket(url: string, m: Message) returns (newerOpen: bool, connected: bool, sendOk: bool)
    ensures newerOpen && !connected && !sendOk
  {
    var c := new Connector();
    c.Connect(url);
    c.Connect(url);
    c.OnOpen(1);
    c.OnClose(0);
    newerOpen := c.sockets[1].state == Open;
    connected := c.IsConnected();
    sendOk := c.Send(m);
  }

  /** A handler registered twice is called once per frame, and after the
      returned unsubscribe function runs it is not called at all. */
  method SubscriptionIsASet(url: string, m: Message) returns (callsBefore: nat, callsAfter: nat)
    ensures callsBefore == 1 && callsAfter == 0
  {
    var c := new Connector();
    c.Connect(url);
    c.OnOpen(0);
    c.Subscribe(LiveFeed);
    c.Subscribe(LiveFeed);
    c.OnMessage(0, Parsed(m), {});
    callsBefore := |c.deliveries|;
    c.Unsubscribe(LiveFeed);
    c.OnMessage(0, Parsed(m), {});
    callsAfter := |c.deliveries| - callsBefore;
  }
}
