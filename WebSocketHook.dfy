/** The dashboard's WebSocket hook (frontend/src/hooks/use-websocket.ts): the
    connect guard, the reconnect policy on close, disconnect and sending.
    Close code 1000 is the normal closure of section 7.4.1 of RFC 6455. */
module WebSocketHook {
  import opened Common

  const DefaultReconnectInterval := 3000
  const DefaultMaxReconnectAttempts := 5
  const NormalClosure := 1000

  datatype ReadyState = Connecting | Open | Closing | Closed

  /** What `onclose` does after updating the state. */
  datatype CloseAction = ScheduleReconnect | GiveUp | StayClosed

  /** The branch `onclose` takes: reconnect while allowed, below the limit and
      not after a normal closure; report failure once the limit is reached. */
  function CloseDecision(shouldReconnect: bool, attempts: int, maxAttempts: int, code: int): (a: CloseAction)
    ensures a == ScheduleReconnect <==> shouldReconnect && attempts < maxAttempts && code != NormalClosure
    ensures a == GiveUp <==> attempts >= maxAttempts
  {
    if shouldReconnect && attempts < maxAttempts && code != NormalClosure then ScheduleReconnect
    else if attempts >= maxAttempts then GiveUp
    else StayClosed
  }

  function GiveUpMessage(maxAttempts: int): string
  {
    "Failed to reconnect after " + IntToDecimal(maxAttempts) + " attempts"
  }

  /** A normal closure or a manual disconnect never schedules a reconnect. */
  lemma NoReconnectAfterNormalOrManual(shouldReconnect: bool, attempts: int, maxAttempts: int, code: int)
    requires code == NormalClosure || !shouldReconnect
    ensures CloseDecision(shouldReconnect, attempts, maxAttempts, code) != ScheduleReconnect
  {
  }

  /** Reconnect timers, numbered in the order they are set: `pending` holds
      the ones not yet fired or cleared, `ref` the one `reconnectTimeoutRef`
      names, and `count` how many were ever set. */
  datatype Timers = Timers(pending: set<nat>, ref: Option<nat>, count: nat)
  {
    predicate Valid()
    {
      (forall t :: t in pending ==> t < count) && (ref.Some? ==> ref.value < count)
    }

    /** Every pending timer is the one the ref names, so clearing that one
        clears them all. */
    predicate Tracked()
    {
      forall t :: t in pending ==> ref == Some(t)
    }

    /** The timer the ref names, as a set. */
    function Held(): (s: set<nat>)
      ensures ref.Some? ==> ref.value in s
      ensures forall t :: t in s ==> ref == Some(t)
    {
      if ref.Some? then {ref.value} else {}
    }

    /** `setTimeout`, its id stored in the ref over whatever it held. */
    function Set(): (r: Timers)
      ensures r.pending == pending + {count} && r.ref == Some(count) && r.count == count + 1
      ensures Valid() ==> r.Valid()
    {
      Timers(pending + {count}, Some(count), count + 1)
    }

    /** `clearTimeout` of the ref's timer, and the ref set to null. */
    function ClearRef(): (r: Timers)
      ensures r.pending == pending - Held() && r.ref.None? && r.count == count
      ensures Valid() ==> r.Valid()
      ensures Tracked() ==> r.pending == {}
    {
      Timers(pending - Held(), None, count)
    }

    /** `clearTimeout` of the ref's timer, the ref left as it is. */
    function CancelRef(): (r: Timers)
      ensures r.pending == pending - Held() && r.ref == ref && r.count == count
      ensures Valid() ==> r.Valid()
      ensures Tracked() ==> r.pending == {}
    {
      Timers(pending - Held(), ref, count)
    }
  }

  /** The refs and state of one hook instance. Every socket the hook has
      created keeps its ready state in `sockets`, in creation order; `current`
      is the one `wsRef` holds. An event names the socket it comes from, so a
      late event of an old socket leaves the current one alone. */
  class WebSocketClient {
    const reconnectInterval: int
    const maxReconnectAttempts: int
    var sockets: seq<ReadyState>
    var current: Option<nat>
    var timers: Timers
    var attempts: int
    var shouldReconnect: bool
    var connectingFlag: bool
    var isConnected: bool
    var isConnecting: bool
    var error: Option<string>
    var lastMessage: Option<string>
    var sent: seq<string>

    /** `wsRef` holds a created socket, the timers are ones that were set, and
        the attempt count stays within the limit (or at zero for a negative
        limit). */
    ghost predicate Valid()
      reads this
    {
      && (current.Some? ==> current.value < |sockets|)
      && timers.Valid()
      && 0 <= attempts && (attempts <= maxReconnectAttempts || attempts == 0)
    }

    constructor (interval: Option<int>, maxAttempts: Option<int>)
      ensures reconnectInterval == (if interval.Some? then interval.value else DefaultReconnectInterval)
      ensures maxReconnectAttempts == (if maxAttempts.Some? then maxAttempts.value else DefaultMaxReconnectAttempts)
      ensures sockets == [] && current.None? && attempts == 0 && shouldReconnect && !connectingFlag
      ensures timers == Timers({}, None, 0)
      ensures !isConnected && !isConnecting && error.None? && lastMessage.None? && sent == []
      ensures Valid() && timers.Tracked()
    {
      reconnectInterval := if interval.Some? then interval.value else DefaultReconnectInterval;
      maxReconnectAttempts := if maxAttempts.Some? then maxAttempts.value else DefaultMaxReconnectAttempts;
      sockets := [];
      current := None;
      timers := Timers({}, None, 0);
      attempts := 0;
      shouldReconnect := true;
      connectingFlag := false;
      isConnected := false;
      isConnecting := false;
      error := None;
      lastMessage := None;
      sent := [];
    }

    /** The ready state of the socket `wsRef` holds. */
    function CurrentState(): Option<ReadyState>
      reads this
      requires Valid()
    {
      if current.Some? then Some(sockets[current.value]) else None
    }

    predicate ConnectBlocked()
      reads this
      requires Valid()
    {
      CurrentState() == Some(Open) || CurrentState() == Some(Connecting) || connectingFlag
    }

    /** `connect`: a no-op while the current socket is open or connecting or
        a connect is under way; otherwise the old socket (closing or closed
        already, so `close()` changes nothing) is dropped and a new one is
        created, unless its constructor throws. `shouldReconnect` is not
        consulted. */
    method Connect(constructorThrows: bool, reason: string)
      requires Valid()
      modifies this
      ensures Valid()
      ensures old(ConnectBlocked()) ==>
        sockets == old(sockets) && current == old(current) && connectingFlag == old(connectingFlag)
        && isConnecting == old(isConnecting) && error == old(error)
      ensures !old(ConnectBlocked()) && !constructorThrows ==>
        sockets == old(sockets) + [Connecting] && current == Some(|old(sockets)|)
        && connectingFlag && isConnecting && error.None?
      ensures !old(ConnectBlocked()) && constructorThrows ==>
        sockets == old(sockets) && current.None? && !connectingFlag && !isConnecting
        && error == Some("Failed to create WebSocket connection: " + reason)
      ensures attempts == old(attempts) && shouldReconnect == old(shouldReconnect)
      ensures timers == old(timers)
      ensures isConnected == old(isConnected) && sent == old(sent) && lastMessage == old(lastMessage)
    {
      if ConnectBlocked() {
        return;
      }
      current := None;
      connectingFlag := true;
      isConnecting := true;
      error := None;
      if constructorThrows {
        connectingFlag := false;
        error := Some("Failed to create WebSocket connection: " + reason);
        isConnecting := false;
      } else {
        current := Some(|sockets|);
        sockets := sockets + [Connecting];
      }
    }

    /** `onopen` of socket `id`: that socket is open, the hook connected with
        no error, and the attempt count starts over. */
    method OnOpen(id: nat)
      requires Valid() && id < |sockets|
      modifies this
      ensures Valid()
      ensures sockets == old(sockets)[id := Open] && current == old(current)
      ensures !connectingFlag && isConnected && !isConnecting
      ensures error.None? && attempts == 0
      ensures shouldReconnect == old(shouldReconnect)
      ensures timers == old(timers)
      ensures sent == old(sent) && lastMessage == old(lastMessage)
    {
      sockets := sockets[id := Open];
      connectingFlag := false;
      isConnected := true;
      isConnecting := false;
      error := None;
      attempts := 0;
    }

    /** The browser starts the closing handshake of an open socket `id` (the
        server sent a Close frame, section 7.1.3 of RFC 6455): its ready
        state becomes CLOSING. The hook has no handler for this. */
    method ClosingHandshakeStarted(id: nat)
      requires Valid() && id < |sockets| && sockets[id] == Open
      modifies this
      ensures Valid()
      ensures sockets == old(sockets)[id := Closing] && current == old(current)
      ensures connectingFlag == old(connectingFlag) && isConnected == old(isConnected)
      ensures isConnecting == old(isConnecting) && error == old(error) && attempts == old(attempts)
      ensures shouldReconnect == old(shouldReconnect)
      ensures timers == old(timers)
      ensures sent == old(sent) && lastMessage == old(lastMessage)
    {
      sockets := sockets[id := Closing];
    }

    /** `onclose` of socket `id`: that socket is closed and the hook
        disconnected, whichever socket `wsRef` holds; then a reconnect timer
        is set (counting one more attempt) and `reconnectTimeoutRef` is
        overwritten with it, leaving any timer it named before pending; or
        failure is reported once the limit is reached. */
    method OnClose(id: nat, code: int)
      requires Valid() && id < |sockets|
      modifies this
      ensures Valid()
      ensures sockets == old(sockets)[id := Closed] && current == old(current)
      ensures !connectingFlag && !isConnected && !isConnecting
      ensures var action := CloseDecision(old(shouldReconnect), old(attempts), maxReconnectAttempts, code);
        (action == ScheduleReconnect ==>
           attempts == old(attempts) + 1 && error == old(error) && timers == old(timers).Set())
        && (action != ScheduleReconnect ==> attempts == old(attempts) && timers == old(timers))
        && (action == GiveUp ==> error == Some(GiveUpMessage(maxReconnectAttempts)))
        && (action == StayClosed ==> error == old(error))
      ensures shouldReconnect == old(shouldReconnect)
      ensures sent == old(sent) && lastMessage == old(lastMessage)
    {
      sockets := sockets[id := Closed];
      connectingFlag := false;
      isConnected := false;
      isConnecting := false;
      if shouldReconnect && attempts < maxReconnectAttempts && code != NormalClosure {
        attempts := attempts + 1;
        timers := timers.Set();
      } else if attempts >= maxReconnectAttempts {
        error := Some(GiveUpMessage(maxReconnectAttempts));
      }
    }

    /** `onclose` as evidently intended: the timer `reconnectTimeoutRef`
        still names is cleared before a new one is set, so at most one
        reconnect is ever pending and it is the one the ref names. */
    method OnCloseClearingTimer(id: nat, code: int)
      requires Valid() && id < |sockets|
      modifies this
      ensures Valid()
      ensures sockets == old(sockets)[id := Closed] && current == old(current)
      ensures !connectingFlag && !isConnected && !isConnecting
      ensures var action := CloseDecision(old(shouldReconnect), old(attempts), maxReconnectAttempts, code);
        (action == ScheduleReconnect ==>
           attempts == old(attempts) + 1 && error == old(error) && timers == old(timers).CancelRef().Set())
        && (action != ScheduleReconnect ==> attempts == old(attempts) && timers == old(timers))
        && (action == GiveUp ==> error == Some(GiveUpMessage(maxReconnectAttempts)))
        && (action == StayClosed ==> error == old(error))
      ensures old(timers.Tracked()) ==> timers.Tracked()
      ensures shouldReconnect == old(shouldReconnect)
      ensures sent == old(sent) && lastMessage == old(lastMessage)
    {
      if CloseDecision(shouldReconnect, attempts, maxReconnectAttempts, code) == ScheduleReconnect {
        timers := timers.CancelRef();
      }
      OnClose(id, code);
    }

    /** `onerror`: the error is recorded and connecting stops. */
    method OnError()
      requires Valid()
      modifies this
      ensures Valid()
      ensures !connectingFlag && !isConnecting && error == Some("WebSocket connection error")
      ensures sockets == old(sockets) && current == old(current)
      ensures isConnected == old(isConnected) && attempts == old(attempts)
      ensures shouldReconnect == old(shouldReconnect)
      ensures timers == old(timers)
      ensures sent == old(sent) && lastMessage == old(lastMessage)
    {
      connectingFlag := false;
      error := Some("WebSocket connection error");
      isConnecting := false;
    }

    method OnMessage(message: string)
      modifies this
      ensures lastMessage == Some(message)
      ensures sockets == old(sockets) && current == old(current)
      ensures isConnected == old(isConnected) && isConnecting == old(isConnecting)
      ensures error == old(error) && attempts == old(attempts) && connectingFlag == old(connectingFlag)
      ensures shouldReconnect == old(shouldReconnect) && sent == old(sent)
      ensures timers == old(timers)
    {
      lastMessage := Some(message);
    }

    /** Pending timer `t` runs `connect`, whatever `reconnectTimeoutRef` names
        now, and is no longer pending; the ref keeps its value. */
    method TimerFires(t: nat, constructorThrows: bool, reason: string)
      requires Valid() && t in timers.pending
      modifies this
      ensures Valid()
      ensures timers == old(timers).(pending := old(timers).pending - {t})
      ensures old(timers.Tracked()) ==> timers.Tracked()
      ensures old(ConnectBlocked()) ==>
        sockets == old(sockets) && current == old(current) && connectingFlag == old(connectingFlag)
        && isConnecting == old(isConnecting) && error == old(error)
      ensures !old(ConnectBlocked()) && !constructorThrows ==>
        sockets == old(sockets) + [Connecting] && current == Some(|old(sockets)|)
        && connectingFlag && isConnecting && error.None?
      ensures !old(ConnectBlocked()) && constructorThrows ==>
        sockets == old(sockets) && current.None? && !connectingFlag && !isConnecting
        && error == Some("Failed to create WebSocket connection: " + reason)
      ensures attempts == old(attempts) && shouldReconnect == old(shouldReconnect)
      ensures isConnected == old(isConnected) && sent == old(sent) && lastMessage == old(lastMessage)
    {
      timers := timers.(pending := timers.pending - {t});
      Connect(constructorThrows, reason);
    }

    /** The unmount cleanup: no more reconnects, the timer
        `reconnectTimeoutRef` names is cleared (any other pending timer is
        not), an open or connecting socket starts closing, and `wsRef` lets
        it go. The state flags are left as they are. */
    method Unmount()
      requires Valid()
      modifies this
      ensures Valid()
      ensures !shouldReconnect && current.None?
      ensures timers == old(timers).ClearRef()
      ensures old(CurrentState()) == Some(Open) || old(CurrentState()) == Some(Connecting) ==>
        sockets == old(sockets)[old(current).value := Closing]
      ensures !(old(CurrentState()) == Some(Open) || old(CurrentState()) == Some(Connecting)) ==>
        sockets == old(sockets)
      ensures isConnected == old(isConnected) && isConnecting == old(isConnecting)
      ensures attempts == old(attempts) && error == old(error) && connectingFlag == old(connectingFlag)
      ensures sent == old(sent) && lastMessage == old(lastMessage)
    {
      shouldReconnect := false;
      timers := timers.ClearRef();
      if current.Some? {
        if sockets[current.value] == Open || sockets[current.value] == Connecting {
          sockets := sockets[current.value := Closing];
        }
        current := None;
      }
    }

    /** `disconnect`: the unmount cleanup, and the hook reports itself
        neither connected nor connecting. */
    method Disconnect()
      requires Valid()
      modifies this
      ensures Valid()
      ensures !shouldReconnect && current.None?
      ensures timers == old(timers).ClearRef()
      ensures old(CurrentState()) == Some(Open) || old(CurrentState()) == Some(Connecting) ==>
        sockets == old(sockets)[old(current).value := Closing]
      ensures !(old(CurrentState()) == Some(Open) || old(CurrentState()) == Some(Connecting)) ==>
        sockets == old(sockets)
      ensures !isConnected && !isConnecting
      ensures attempts == old(attempts) && error == old(error) && connectingFlag == old(connectingFlag)
      ensures sent == old(sent) && lastMessage == old(lastMessage)
    {
      Unmount();
      isConnected := false;
      isConnecting := false;
    }

    /** `sendMessage`: sent and true only when the socket `wsRef` holds is open. */
    method SendMessage(message: string) returns (ok: bool)
      requires Valid()
      modifies this
      ensures ok <==> old(CurrentState()) == Some(Open)
      ensures ok ==> sent == old(sent) + [message]
      ensures !ok ==> sent == old(sent)
      ensures sockets == old(sockets) && current == old(current)
      ensures attempts == old(attempts) && error == old(error) && shouldReconnect == old(shouldReconnect)
      ensures timers == old(timers)
      ensures isConnected == old(isConnected) && isConnecting == old(isConnecting)
      ensures connectingFlag == old(connectingFlag) && lastMessage == old(lastMessage)
    {
      if CurrentState() == Some(Open) {
        sent := sent + [message];
        return true;
      }
      return false;
    }
  }

  /** After `disconnect`, a close event of any socket sets no timer and
      counts no attempt; the pending timers can only shrink. */
  method DisconnectThenClose(ws: WebSocketClient, id: nat, code: int)
    requires ws.Valid() && id < |ws.sockets|
    modifies ws
    ensures ws.timers == old(ws.timers).ClearRef() && ws.attempts == old(ws.attempts)
    ensures old(ws.timers.Tracked()) ==> ws.timers.pending == {}
  {
    ws.Disconnect();
    ws.OnClose(id, code);
  }

  /** Two failed connections in a row, the second from a manual `connect`:
      the second `onclose` overwrites `reconnectTimeoutRef`, so `disconnect`
      clears only the second timer. The first one then fires and creates a
      socket although reconnecting was switched off. */
  method TimerOutlivesDisconnect() returns (ws: WebSocketClient)
    ensures ws.Valid() && !ws.shouldReconnect
    ensures ws.CurrentState() == Some(Connecting) && ws.isConnecting && |ws.sockets| == 3
  {
    ws := new WebSocketClient(None, None);
    ws.Connect(false, "");
    ws.OnOpen(0);
    ws.OnClose(0, 1006);
    ws.Connect(false, "");
    ws.OnClose(1, 1006);
    ws.Disconnect();
    assert 0 in ws.timers.pending;
    ws.TimerFires(0, false, "");
  }

  /** The same events with the intended `onclose`: the second close clears
      the first timer, so `disconnect` leaves no reconnect pending and no
      timer can create a socket afterwards. */
  method ClearingTimerLeavesNoneAfterDisconnect() returns (ws: WebSocketClient)
    ensures ws.Valid() && !ws.shouldReconnect && ws.timers.pending == {}
    ensures ws.current.None? && |ws.sockets| == 2
  {
    ws := new WebSocketClient(None, None);
    ws.Connect(false, "");
    ws.OnOpen(0);
    ws.OnCloseClearingTimer(0, 1006);
    ws.Connect(false, "");
    ws.OnCloseClearingTimer(1, 1006);
    ws.Disconnect();
  }

  /** The server starts closing the open socket and a manual `connect`
      replaces it before its close event; the new socket opens, then the old
      socket's close event arrives. The hook then reports itself
      disconnected, yet messages still go out on the new socket. */
  method LateCloseOfOldSocket(message: string) returns (ws: WebSocketClient, ok: bool)
    ensures ok && ws.sent == [message]
    ensures !ws.isConnected
  {
    ws := new WebSocketClient(None, None);
    ws.Connect(false, "");
    ws.OnOpen(0);
    ws.ClosingHandshakeStarted(0);
    ws.Connect(false, "");
    ws.OnOpen(1);
    ws.OnClose(0, 1001);
    ok := ws.SendMessage(message);
  }
}
