/** Given sequences of events on the push-mode feed, and the state they
    lead to. */
module FeedScenarios {
  import opened Wrappers
  import opened Catalog
  import opened Formatter
  import opened StockFeed
  import opened Scenarios

  /** Two closes in a row while the feed is down leave one reconnect timer,
      not two. */
  method DoubleCloseSchedulesOnce() returns (timers: nat, state: string)
    ensures timers == 1 && state == "Closed"
  {
    var feed := new Feed();
    feed.Connect();
    feed.OnOpen();
    feed.OnClose();
    feed.Connect();
    feed.OnClose();
    timers := feed.pendingTimers;
    state := feed.ConnectionState();
  }

  /** A reconnect that fires and fails again schedules nothing more: the
      handle was left set when the timer fired, and only an open resets it. */
  method FailedReconnectIsNotRetried() returns (timers: nat, state: string)
    ensures timers == 0 && state == "Closed"
  {
    var feed := new Feed();
    feed.Connect();
    feed.OnOpen();
    feed.OnClose();
    feed.FireReconnect();
    feed.OnClose();
    timers := feed.pendingTimers;
    state := feed.ConnectionState();
  }

  /** Once the reconnected socket opens, the next close schedules again. */
  method ReconnectThenCloseReschedules() returns (timers: nat, connectedBeforeClose: bool)
    ensures timers == 1 && connectedBeforeClose
  {
    var feed := new Feed();
    feed.Connect();
    feed.OnOpen();
    feed.OnClose();
    feed.FireReconnect();
    feed.OnOpen();
    connectedBeforeClose := feed.IsConnected();
    feed.OnClose();
    timers := feed.pendingTimers;
  }

  /** A good message fills the cache; an unparsable body and a `null` body
      after it leave that snapshot in place. */
  method BadMessagesKeepCache(now: int) returns (data: Result<Snapshot, CacheError>, lastUpdate: Option<int>)
    ensures data == Success(GoldenSnapshot(now))
    ensures now != 0 ==> lastUpdate == Some(now)
  {
    var feed := new Feed();
    feed.Connect();
    feed.OnOpen();
    feed.OnMessage(Json(GoldenPayload), GoldenCatalog, now);
    feed.OnMessage(Unreadable, GoldenCatalog, now + 1);
    feed.OnMessage(NullJson, [], now + 2);
    data := feed.GetStockData();
    lastUpdate := feed.GetLastUpdate();
  }

  /** Before any message, the feed has nothing to serve. */
  method NoDataBeforeFirstMessage() returns (data: Result<Snapshot, CacheError>, hasData: bool, state: string)
    ensures data == Failure(NoStockData) && !hasData && state == "Connecting"
  {
    var feed := new Feed();
    feed.Connect();
    data := feed.GetStockData();
    hasData := feed.HasData();
    state := feed.ConnectionState();
  }

  /** Shutting down while a reconnect is pending cancels the timer and keeps
      the cached snapshot. */
  method CleanupCancelsTimer(now: int) returns (timers: nat, data: Result<Snapshot, CacheError>, state: string)
    ensures timers == 0 && data == Success(GoldenSnapshot(now)) && state == "Closed"
  {
    var feed := new Feed();
    feed.Connect();
    feed.OnOpen();
    feed.OnMessage(Json(GoldenPayload), GoldenCatalog, now);
    feed.OnClose();
    feed.Cleanup();
    timers := feed.pendingTimers;
    data := feed.GetStockData();
    state := feed.ConnectionState();
  }
}
