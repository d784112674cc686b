/** The push-mode feed of lib/GetStock.js: the module-level `stockDataCache`,
    `wsConnection` and `reconnectInterval`, the `WebSocketService` event
    handlers, the `CacheService` getters and `AppLifecycle.cleanup`, as one
    object. The socket is reduced to its `readyState`; the reconnect timer
    to the handle variable plus the number of timers actually pending, whose
    firing is the method `FireReconnect`. */
module StockFeed {
  import opened Wrappers
  import opened Catalog
  import opened Formatter

  /** The `readyState` values of a `ws` WebSocket. */
  const CONNECTING: int := 0
  const OPEN: int := 1
  const CLOSING: int := 2
  const CLOSED: int := 3

  /** `getConnectionState` for a connection that is absent or has the given
      ready state. */
  function ConnectionStateName(socket: Option<int>): (name: string)
    ensures socket.None? <==> name == "Not initialized"
    ensures socket == Some(CONNECTING) <==> name == "Connecting"
    ensures socket == Some(OPEN) <==> name == "Connected"
    ensures socket == Some(CLOSING) <==> name == "Closing"
    ensures socket == Some(CLOSED) <==> name == "Closed"
    ensures socket.Some? && !(CONNECTING <= socket.value <= CLOSED) <==> name == "Unknown"
  {
    match socket
    case None => "Not initialized"
    case Some(readyState) =>
      if readyState == CONNECTING then "Connecting"
      else if readyState == OPEN then "Connected"
      else if readyState == CLOSING then "Closing"
      else if readyState == CLOSED then "Closed"
      else "Unknown"
  }

  /** `isConnected`: a connection exists and is open. */
  predicate IsConnectedState(socket: Option<int>) {
    socket.Some? && socket.value == OPEN
  }

  /** The feed reports "Connected" exactly when it is connected. */
  lemma ConnectedIffOpen(socket: Option<int>)
    ensures ConnectionStateName(socket) == "Connected" <==> IsConnectedState(socket)
  {
  }

  /** The rejection of `getStockData` when nothing is cached. */
  datatype CacheError = NoStockData

  class Feed {
    /** `stockDataCache`: None until the first message that formats. */
    var cache: Option<Snapshot>
    /** `wsConnection?.readyState`: None until the first `connect`. */
    var socket: Option<int>
    /** `reconnectInterval` is non-null. */
    var reconnectHandle: bool
    /** Reconnect timers scheduled and neither fired nor cleared. */
    var pendingTimers: nat

    /** At most one reconnect timer is pending, and only while the handle is
        set; the ready state is one of the four. */
    ghost predicate Valid()
      reads this
    {
      && pendingTimers <= 1
      && (pendingTimers > 0 ==> reconnectHandle)
      && (socket.Some? ==> CONNECTING <= socket.value <= CLOSED)
    }

    /** The state at module load: nothing cached, no connection, no timer. */
    constructor ()
      ensures Valid()
      ensures cache.None? && socket.None? && !reconnectHandle && pendingTimers == 0
    {
      cache := None;
      socket := None;
      reconnectHandle := false;
      pendingTimers := 0;
    }

    /** `connect` (also what `initialize` does): a new socket, connecting. */
    method Connect()
      requires Valid()
      modifies this
      ensures Valid()
      ensures socket == Some(CONNECTING)
      ensures cache == old(cache) && reconnectHandle == old(reconnectHandle) && pendingTimers == old(pendingTimers)
    {
      socket := Some(CONNECTING);
    }

    /** `handleOpen`: the socket is open; a pending reconnect timer is
        cleared and the handle reset. */
    method OnOpen()
      requires Valid() && socket.Some?
      modifies this
      ensures Valid()
      ensures socket == Some(OPEN)
      ensures !reconnectHandle && pendingTimers == 0
      ensures cache == old(cache)
    {
      socket := Some(OPEN);
      if reconnectHandle {
        pendingTimers := 0;
        reconnectHandle := false;
      }
    }

    /** `handleMessage`: a body that parses to a readable value replaces the
        cache with the snapshot formatted against a freshly built index; an
        unparsable body, or `null` (whose field read throws), leaves the cache
        as it was. Nothing escapes the handler. */
    method OnMessage(data: Received, catalog: seq<CatalogItem>, now: int)
      requires Valid()
      modifies this
      ensures Valid()
      ensures data.Json? ==> cache == Some(FormatStockData(data.payload, BuildIndex(catalog), now))
      ensures !data.Json? ==> cache == old(cache)
      ensures socket == old(socket) && reconnectHandle == old(reconnectHandle) && pendingTimers == old(pendingTimers)
    {
      match data {
        case Json(payload) =>
          var lookup := CreateItemLookup(catalog);
          cache := Some(FormatStockData(payload, lookup, now));
        case Unreadable =>
        case NullJson =>
      }
    }

    /** `handleClose`: the socket is closed; a reconnect is scheduled only
        when the handle is not already set. */
    method OnClose()
      requires Valid() && socket.Some?
      modifies this
      ensures Valid()
      ensures socket == Some(CLOSED)
      ensures reconnectHandle
      ensures pendingTimers == if old(reconnectHandle) then old(pendingTimers) else 1
      ensures cache == old(cache)
    {
      socket := Some(CLOSED);
      if !reconnectHandle {
        reconnectHandle := true;
        pendingTimers := pendingTimers + 1;
      }
    }

    /** The reconnect timer fires and calls `connect`. The handle is not
        reset, so a close before the next open schedules nothing. */
    method FireReconnect()
      requires Valid() && pendingTimers > 0
      modifies this
      ensures Valid()
      ensures pendingTimers == 0 && reconnectHandle
      ensures socket == Some(CONNECTING)
      ensures cache == old(cache)
    {
      pendingTimers := pendingTimers - 1;
      Connect();
    }

    /** `cleanup`: close an existing socket (a closed one stays closed) and
        clear a pending timer, leaving the handle and the cache alone. */
    method Cleanup()
      requires Valid()
      modifies this
      ensures Valid()
      ensures pendingTimers == 0
      ensures socket == match old(socket)
        case None => None
        case Some(readyState) => Some(if readyState == CLOSED then CLOSED else CLOSING)
      ensures reconnectHandle == old(reconnectHandle) && cache == old(cache)
    {
      if socket.Some? {
        socket := Some(if socket.value == CLOSED then CLOSED else CLOSING);
      }
      if reconnectHandle {
        pendingTimers := 0;
      }
    }

    /** `getConnectionState`. */
    function ConnectionState(): string
      reads this
    {
      ConnectionStateName(socket)
    }

    /** `isConnected`. */
    predicate IsConnected()
      reads this
    {
      IsConnectedState(socket)
    }

    /** `CacheService.getStockData`: the cached snapshot itself, or a
        rejection when nothing has been cached. */
    function GetStockData(): (r: Result<Snapshot, CacheError>)
      reads this
      ensures r.Failure? <==> cache.None?
      ensures r.Success? ==> Some(r.value) == cache
    {
      match cache
      case None => Failure(NoStockData)
      case Some(snapshot) => Success(snapshot)
    }

    /** `CacheService.hasData`. */
    predicate HasData()
      reads this
      ensures HasData() <==> GetStockData().Success?
    {
      cache.Some?
    }

    /** `CacheService.getLastUpdate`: `updatedAt` of the cache, or null when
        nothing is cached (or when `updatedAt` is the falsy 0). */
    function GetLastUpdate(): (r: Option<int>)
      reads this
      ensures r.Some? ==> cache.Some? && r.value == cache.value.updatedAt && r.value != 0
      ensures cache.Some? && cache.value.updatedAt != 0 ==> r.Some?
    {
      if cache.Some? && cache.value.updatedAt != 0 then Some(cache.value.updatedAt) else None
    }
  }
}
