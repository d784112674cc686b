# Grow a Garden API: a verified model of the stock and weather core

This project models the data logic behind the Grow a Garden stock and weather
endpoints, in Dafny, and proves what that logic guarantees. It covers four
parts.

- **Rarity resolution.** `DatabaseService.createItemLookup`, `normalizeItemName`
  and `DataFormatter.findItemRarity` build a string-keyed index from the item
  catalog and resolve the rarity of an upstream stock item against it.
  lib/GetRareStock.js and lib/GetStock.js contain the same code; one model
  (modules `Catalog` and `Formatter`) serves both. The table below cites the
  lib/GetRareStock.js copy; its lib/GetStock.js counterparts are
  `createItemLookup` at lib/GetStock.js:36-59, `formatStockData` and
  `formatCategory` at lib/GetStock.js:70-91 and `findItemRarity` at
  lib/GetStock.js:93-110.
- **Snapshot formatting and the rare-item pipeline.**
  `convertToStockFormat` / `formatStockData` turn the five upstream arrays
  into a snapshot (`Formatter`). From that snapshot, `RareItemsFilter`:
  - filters by a fixed rule per category (`RareFilter`);
  - sorts by rarity priority, then by name (`RareSort`);
  - counts entries per rarity (`TierBreakdown`).
  `RareStockHandler.handleRequest` puts these steps together (`RareStock`).
- **The push-mode feed of lib/GetStock.js.** The cached snapshot, the
  WebSocket ready state and the reconnect timer are the fields of a class
  (`StockFeed.Feed`). Each socket event, the timer firing and shutdown cleanup
  is a method. The methods keep the invariant that at most one reconnect timer
  is pending.
- **Weather** (lib/GrabWeather.js, module `Weather`):
  - the shape check on the upstream body;
  - `formatWeatherData`;
  - the `/active` projection;
  - the two error fallbacks.

Supporting modules:
- `JsStrings`: the JavaScript string built-ins that the core depends on.
- `Sequences`: `filter`, `map` and the order-preserving subsequence relation.

Worked examples:
- `Scenarios` proves what the rare-stock pipeline answers on small concrete
  inputs ("Golden Sprinkler", "Carrot Seed").
- `FeedScenarios` proves where the feed ends up after given sequences of
  events.

The JavaScript is modelled with these conventions.
- An optional string field is an `Option<string>`. Absent and `""` are both
  falsy.
- `toLowerCase` folds ASCII `A`–`Z`.
- `localeCompare` is lexicographic order by character code.
- `stock` is an integer. Both `(…).toString()` and `parseInt(…)` are the
  identity on it.
- Clock readings (`Date.now()`, `new Date().toISOString()`) are parameters.
- A parsed JSON body is one of three things:
  - text that does not parse;
  - the literal `null`;
  - a value whose fields can be read.

Some behaviours of the code are easy to misread. The model follows the code in
all of them except the last, where it follows the evident intent.
- An item is looked up under six keys:
  - the display name and its lower-cased form;
  - the id and its lower-cased form;
  - the normalised display name and the normalised id.

  The upstream `name` field is never a key (lib/GetRareStock.js:112-119).
- A body that parses to `null` does not replace the cache.
  `wsData.gear_stock` throws inside the `try`, so `handleMessage` keeps the
  old snapshot (lib/GetStock.js:137-145). On the same body, `handleRequest`
  answers 500. Only a body whose fields can be read replaces the cache.
- `getLastUpdate` uses `|| null`, so an `updatedAt` of 0 reads as null
  (lib/GetStock.js:195-197).
- A failed reconnect is not retried until a socket opens again.
  - When the reconnect timer fires, `reconnectInterval` keeps its (spent)
    handle (lib/GetStock.js:152-155).
  - Only `handleOpen` resets it (lib/GetStock.js:130-135).
  - So if the socket the timer opened closes before it opens, no new timer is
    scheduled. `FeedScenarios.FailedReconnectIsNotRetried` shows this.
- `handleClose` is passed to `on('close', …)` unbound (lib/GetStock.js:127). So
  `this.connect()` inside the timer callback (lib/GetStock.js:154) does not
  reach `WebSocketService.connect`. The listener runs with `this` set to the
  socket that emitted the event, which has no `connect` method. So, as written,
  the callback throws a TypeError when the timer fires, outside any `try`, and
  no reconnect happens. No `uncaughtException` listener is registered anywhere
  in the repository, so that TypeError ends the Node process. The model follows the evident intent instead: the timer
  firing connects (`StockFeed.Feed.FireReconnect`).

## Model

| member | source | states |
|---|---|---|
| Catalog.NormalizeItemName | lib/GetRareStock.js:56-58 | the result holds only `[a-z0-9]`, is `''` for an absent or empty name, and is no longer than the name |
| Catalog.NormalizeKeepsKeyChars | lib/GetRareStock.js:57 | the result is the lower-cased name with everything outside `[a-z0-9]` removed: an order-preserving subsequence of it holding every occurrence of every `[a-z0-9]` character |
| Catalog.NormalizeKeyName | lib/GetRareStock.js:57 | a non-empty name made only of `[a-z0-9]` normalises to itself |
| Catalog.NormalizeIgnoresCase | lib/GetRareStock.js:57 | normalising does not depend on letter case |
| Catalog.NormalizeIdempotent | lib/GetRareStock.js:56-58 | normalising a normalised name gives it back unchanged |
| Catalog.TruthyOnlyMembership | lib/GetRareStock.js:39-46 | `filter(Boolean)` keeps a string exactly when it is non-empty and present in the list |
| Catalog.LookupKeysMembership | lib/GetRareStock.js:39-46 | a string is a lookup key of an item exactly when it is non-empty and one of the six variants |
| Catalog.RarityOf | lib/GetRareStock.js:36 | the stored rarity is the lower-cased rarity, or `'unknown'` when it is absent or empty, and never empty |
| Catalog.WriteAllDomain | lib/GetRareStock.js:35-50 | after the writes, a key is present exactly when some item produced it |
| Catalog.WriteAllLastWriter | lib/GetRareStock.js:48-50 | a key holds the value of the last item, in load order, that produced it |
| Catalog.WriteAllValue | lib/GetRareStock.js:48-50 | every present key has a last writer whose value it holds |
| Catalog.BuildIndexDomain | lib/GetRareStock.js:35-50 | the index's keys are exactly the keys that some catalog item produces |
| Catalog.BuildIndexLastWriter | lib/GetRareStock.js:35-50 | a later catalog item overwrites an earlier one on a shared key (last write wins) |
| Catalog.BuildIndexValue | lib/GetRareStock.js:35-50 | every value of the index is the rarity of the last catalog item that produced its key |
| Catalog.BuildIndexNoEmpty | lib/GetRareStock.js:46 | the empty string is never a key, and no value is empty |
| Catalog.CreateItemLookup | lib/GetRareStock.js:31-54 | the nested loops build the specified index: every key of every item is present, nothing else is, each value is the last writer's rarity, and `''` is absent |
| Formatter.FirstHitAtIndex | lib/GetRareStock.js:121-125 | when key `i` is the first key that hits, the search returns that key's value |
| Formatter.FirstHitNone | lib/GetRareStock.js:121-127 | when no key hits, the search returns `'unknown'` |
| Formatter.FirstHitIsFirst | lib/GetRareStock.js:121-127 | the search yields the first hit's value, or `'unknown'` when nothing hits |
| Formatter.FirstHitResultUnique | lib/GetRareStock.js:121-127 | that characterisation admits exactly one result |
| Formatter.FirstHitNonEmpty | lib/GetRareStock.js:121-127 | the search never returns an empty rarity |
| Formatter.Resolve | lib/GetRareStock.js:111-128 | `findItemRarity` never fails and never gives an empty rarity |
| Formatter.SearchFirstHit | lib/GetRareStock.js:121-127 | the early-return loop returns the value of the first key that hits, or `'unknown'` when none does, matching the recursive `FirstHit` |
| Formatter.FindItemRarity | lib/GetRareStock.js:111-128 | the rarity is the index value of the first of the six keys, in their fixed order, that is present with a truthy rarity, or `'unknown'`, matching `Resolve` |
| Formatter.ResolveByDisplayName | lib/GetRareStock.js:112-125 | a display name that is itself a key resolves to that key's value |
| Formatter.ResolveMiss | lib/GetRareStock.js:127 | an item none of whose keys is in the index resolves to `'unknown'` |
| Formatter.ResolveCatalogItem | lib/GetRareStock.js:111-128 | an item named like catalog item `i`, the last writer of that name, resolves to item `i`'s rarity |
| Formatter.ResolveFromCatalog | lib/GetRareStock.js:111-128 | a resolved rarity is `'unknown'` or the rarity of some catalog item |
| Formatter.ResolveEmptyCatalog | lib/GetRareStock.js:111-128 | with an empty catalog, every item resolves to `'unknown'` |
| Formatter.StockCount | lib/GetRareStock.js:136 | the stock is `quantity` when truthy, else `stock` when truthy, else 0 |
| Formatter.FormatCategory | lib/GetRareStock.js:131-139 | a non-array gives `[]`; an array gives one entry per item, in order, named by `display_name`, else `name`, with its stock count and its first-hit rarity, never empty |
| Formatter.FormatPreservesSizes | lib/GetRareStock.js:141-150 | for `Formatter.FormatStockData`: gear, seeds, egg, honey and cosmetics have the lengths of `gear_stock`, `seed_stock`, `egg_stock`, `eventshop_stock` and `cosmetic_stock` |
| JsStrings.ToLowerIdempotent | lib/GetRareStock.js:169 | lower-casing twice equals lower-casing once |
| JsStrings.ContainsIffOccurs | lib/GetRareStock.js:178 | `includes` holds exactly when the substring occurs at some position |
| JsStrings.LexCompareZeroIffEqual | lib/GetRareStock.js:241 | the name comparison returns 0 exactly for equal names |
| JsStrings.LexCompareAntisymmetric | lib/GetRareStock.js:241 | swapping the arguments negates the comparison |
| JsStrings.LexCompareTransitive | lib/GetRareStock.js:241 | the name order is transitive |
| RareFilter.RarityPriority | lib/GetRareStock.js:158-170 | the priority lies in 0..6, and an unlisted rarity gets 0 |
| RareFilter.PriorityIgnoresCase | lib/GetRareStock.js:169 | the priority does not depend on letter case |
| RareFilter.MythicIsMythical | lib/GetRareStock.js:162-163 | `mythic` and `mythical` both rank 4, in any letter case |
| RareFilter.PriorityOrder | lib/GetRareStock.js:159-168 | the tiers rank prismatic > divine > mythical = mythic > legendary > rare > uncommon > common = 0 |
| RareFilter.RareIffHighPriority | lib/GetRareStock.js:158-175 | `RareFilter.IsRareRarity` holds: a rarity is rare exactly when its priority is at least 3 (legendary) |
| RareFilter.KeepWhere | lib/GetRareStock.js:196-204 | the push loop keeps exactly the entries that pass, in input order |
| RareFilter.FilterRareItems | lib/GetRareStock.js:186-231 | the seeds, gear and egg lists are the filters of their categories; honey and cosmetics are dropped; `updatedAt` falls back to the current time when 0 |
| RareFilter.RareListsAreFilters | lib/GetRareStock.js:172-228 | with the tests `RareFilter.IsRareRarity`, `RareFilter.IsSprinkler` and `RareFilter.IsAllowedEgg`: each rare list is an order-preserving subsequence of its category and holds exactly the entries that pass its test (rare seed rarity, sprinkler gear name, allowed egg name; stock above 0); so it is never longer |
| Sequences.FilterIsSubsequence | lib/GetRareStock.js:196-228 | what a filter keeps is an order-preserving subsequence of its input |
| Sequences.FilterMultiset | lib/GetRareStock.js:196-228 | a filter keeps every copy of a passing element and none of a failing one |
| Sequences.FilterComplement | lib/GrabWeather.js:63-64 | a filter and its complement split the input between them |
| RareSort.InOrderMeaning | lib/GetRareStock.js:235-242 | for the comparator `RareSort.Compare`: `a` sorts before `b` when its priority is higher, or equal with a name that is not greater |
| RareSort.InOrderTotal | lib/GetRareStock.js:235-242 | the comparator relates any two entries |
| RareSort.InOrderTransitive | lib/GetRareStock.js:235-242 | the comparator is transitive |
| RareSort.InOrderTie | lib/GetRareStock.js:235-242 | entries tie only when priority and name are equal |
| RareSort.AdjacentToSorted | lib/GetRareStock.js:235-242 | a list whose neighbours are in order is sorted |
| RareSort.SortCategory | lib/GetRareStock.js:235-242 | the in-place sort leaves the array sorted by non-increasing priority, then non-decreasing name; it is a permutation of the input, and an already sorted array is left unchanged |
| RareSort.SortedCopy | lib/GetRareStock.js:235-242 | sorting a list gives a sorted permutation of the same length, and a sorted list comes back unchanged |
| RareSort.SortItemsByRarity | lib/GetRareStock.js:233-246 | gear, seeds and egg each become a sorted permutation of themselves, and `updatedAt` is kept |
| TierBreakdown.CountRarityPermutation | lib/GetRareStock.js:248-256 | the count of a rarity depends only on the multiset of entries |
| TierBreakdown.TallyCounts | lib/GetRareStock.js:248-256 | a rarity is a key of the breakdown exactly when some entry has it, and its counter is the number of such entries |
| TierBreakdown.TallyPermutation | lib/GetRareStock.js:295-298 | the breakdown is the same before and after sorting |
| TierBreakdown.SumValuesRemove | lib/GetRareStock.js:252 | the sum of the counters does not depend on the order in which they are added |
| TierBreakdown.TallySum | lib/GetRareStock.js:248-256 | the counters sum to the number of entries |
| TierBreakdown.CalculateTierBreakdown | lib/GetRareStock.js:248-256 | through `TierBreakdown.TallyInto` for each list, the counting loop gives the breakdown of gear, seeds and egg together, and its counters sum to their total length |
| RareStock.SameBreakdown | lib/GetRareStock.js:278-298 | sorting the three lists keeps their total and their breakdown |
| RareStock.RespondWith | lib/GetRareStock.js:275-310 | a zero total gives the "No rare items" answer, with three empty lists and no breakdown; otherwise the answer has the filtered lists' total, their breakdown whose counters sum to the total, and each list a sorted permutation of its filtered list |
| RareStock.HandleRequest | lib/GetRareStock.js:263-319 | a body whose fields can be read gives that answer for the snapshot formatted against the catalog's index; an unparsable or `null` body gives the 500 response |
| Scenarios.GoldenSprinklerResolves | lib/GetRareStock.js:111-128 | with a catalog holding "Golden Sprinkler" as "Legendary", that item resolves to `legendary` |
| Scenarios.GoldenSprinklerScenario | lib/GetRareStock.js:263-312 | a gear array holding one "Golden Sprinkler" with quantity 3 gives one rare item `{Golden Sprinkler, 3, legendary}` and breakdown `{legendary: 1}` |
| Scenarios.CarrotSeedResolves | lib/GetRareStock.js:111-128 | with a catalog holding "Carrot Seed" as "Common", that item resolves to `common` |
| Scenarios.CarrotSeedExcluded | lib/GetRareStock.js:194-204 | a common seed is not in the rare seeds |
| StockFeed.ConnectionStateName | lib/GetStock.js:159-170 | for `StockFeed.Feed.ConnectionState`: `'Not initialized'` with no connection; the four ready states map to their names, in both directions; any other state is `'Unknown'` |
| StockFeed.ConnectedIffOpen | lib/GetStock.js:172-174 | for `StockFeed.Feed.IsConnected`: the state reads `'Connected'` exactly when `isConnected` holds, that is, when the ready state is OPEN |
| StockFeed.Feed.constructor | lib/GetStock.js:14-16 | at start, nothing is cached, there is no connection and no timer |
| StockFeed.Feed.Connect | lib/GetStock.js:121-128 | a new connection starts CONNECTING; nothing else changes |
| StockFeed.Feed.OnOpen | lib/GetStock.js:130-135 | the socket is OPEN and any pending reconnect is cleared and the handle reset; the cache is untouched |
| StockFeed.Feed.OnMessage | lib/GetStock.js:137-145 | a readable body replaces the cache wholesale with its freshly formatted snapshot; an unparsable or `null` body leaves the cache exactly as it was; the connection and timer are untouched |
| StockFeed.Feed.OnClose | lib/GetStock.js:151-157 | a reconnect is scheduled only when no handle is set, so at most one timer is ever pending |
| StockFeed.Feed.FireReconnect | lib/GetStock.js:152-155 | firing connects, leaves no timer pending and leaves the handle set |
| StockFeed.Feed.Cleanup | lib/GetStock.js:251-258 | an existing connection is closed, a pending timer cancelled, and the cache untouched |
| StockFeed.Feed.GetStockData | lib/GetStock.js:181-188 | fails exactly when nothing is cached, and otherwise returns the cache itself |
| StockFeed.Feed.HasData | lib/GetStock.js:191-193 | true exactly when `getStockData` would succeed |
| StockFeed.Feed.GetLastUpdate | lib/GetStock.js:195-197 | the cache's `updatedAt` when that is truthy, else null |
| FeedScenarios.DoubleCloseSchedulesOnce | lib/GetStock.js:151-157 | two closes while the feed is down leave exactly one reconnect timer |
| FeedScenarios.FailedReconnectIsNotRetried | lib/GetStock.js:130-157 | after the timer fires, a close before the next open schedules nothing |
| FeedScenarios.ReconnectThenCloseReschedules | lib/GetStock.js:130-157 | once the reconnected socket opens, the next close schedules a timer again |
| FeedScenarios.BadMessagesKeepCache | lib/GetStock.js:137-145 | an unparsable body and a `null` body after a good one keep the good snapshot and its time |
| FeedScenarios.NoDataBeforeFirstMessage | lib/GetStock.js:181-193 | before any message, `getStockData` fails and `hasData` is false |
| FeedScenarios.CleanupCancelsTimer | lib/GetStock.js:251-258 | shutting down with a reconnect pending cancels it and keeps the cache |
| Weather.FetchWeather | lib/GrabWeather.js:28-55 | succeeds exactly on a body whose `weather` is an array, and returns that array; a missing or non-array field is rejected as an invalid structure; a timeout has its own message |
| Weather.ViewRoundTrip | lib/GrabWeather.js:72-89 | the field renaming is one-for-one: renaming back gives the record |
| Weather.FormatWeatherData | lib/GrabWeather.js:62-91 | total = length, active + inactive = total, active count = length of `active_weather`; `active_weather` renamed back is the filter of active records; `all_weather` has the input's length, order and field values |
| Weather.ActiveWeatherIsSubsequence | lib/GrabWeather.js:63-89 | `active_weather` is an order-preserving subsequence of `all_weather`, holding exactly its entries with truthy `active` |
| Weather.ActiveOnly | lib/GrabWeather.js:132-143 | `active_weather_count` is the length of `active_weather`, whose entries are the active records, renamed and without an `active` field |
| Weather.ActiveOnlyAgreesWithReport | lib/GrabWeather.js:132-143 | the `/active` entries are the full report's active entries, in order, with `active` dropped, and counted the same |
| Weather.ErrorText | lib/GrabWeather.js:109 | returns the error's message, or the fallback when the message is empty |
| Weather.GetWeather | lib/GrabWeather.js:94-124 | success formats the fetched array; any failure gives the fallback with all-zero counts, empty lists, status `error` and a non-empty error |
| Weather.GetActiveWeather | lib/GrabWeather.js:127-157 | success projects the fetched array; any failure gives a non-empty error and an empty list |
| Weather.EndpointsAgree | lib/GrabWeather.js:28-43 | both endpoints succeed or fail together; a body without a weather array never reaches the formatter |

## Left out

- Network and transport are not modelled. This covers the HTTPS requests of
  `ApiService.fetchStockFromJoshlei` and `fetchWeatherData`, chunk
  accumulation, timeouts, and the WebSocket library itself. Their outcomes are
  inputs: `Received` and `Upstream`.
- Reading `Database.json` (`loadItems`) is not modelled. The catalog is an
  input sequence. A missing file or bad JSON is the empty catalog.
- A `Database.json` that parses to a truthy non-array (`{}`, `true`, a
  non-zero number, a non-empty string) is not modelled. The falsy values
  (`null`, `0`, `""`, `false`) become `[]` through `data || []` and are the
  empty catalog. A truthy non-array gets past `data || []` (lib/GetRareStock.js:25,
  lib/GetStock.js:30), and `items.forEach` then throws outside `loadItems`'s
  `try` (lib/GetRareStock.js:35, lib/GetStock.js:40). In the source, every
  rare-stock request then answers 500, and every feed message is dropped with
  the cache unchanged. The model's catalog is always a sequence of items.
- A `null` element of the upstream `weather` array is not modelled.
  `w.active` throws on it (lib/GrabWeather.js:63, :132) inside the handlers'
  `try`, so both weather endpoints answer their 500 fallback.
  `Weather.WeatherRecord` cannot be null, so `Weather.GetWeather` and
  `Weather.GetActiveWeather` count such a body as a success. A number, string
  or boolean element does not throw: every field reads `undefined`. It is the
  all-`Undefined` record, which counts as inactive and appears in
  `all_weather`.
- `Weather.JsonValue` has no array or object case. An `active` field (or any
  other field) holding an object or array, which JavaScript treats as truthy,
  cannot be represented.
- The Express wiring is not modelled:
  - api/index.js as a whole;
  - the `RouteHandlers` of lib/GetStock.js (`getStock`, `getStatus`);
  - `setupProcessHandlers`, `startStandaloneMode` and `process.exit`;
  - all logging.
- The fields of the 500 response of `handleRequest` are not modelled; it is
  only distinguished as `Failed`.
- `lastUpdated` ISO timestamps are passed in as parameters, and are not
  modelled in the rare-stock response.
- lib/CaclulatePrice.js is not part of this model. Its only logic is a
  floating-point mock.
- `handleError` does nothing, so it has no method.
- `initialize` is `connect` once, so `Feed.Connect` stands for both.
- Unicode case mapping in `toLowerCase` is not modelled, and neither is locale
  collation in `localeCompare`. The model uses ASCII folding and
  character-code order.
- Lookups on plain JavaScript objects are not modelled as such. They can hit
  inherited keys such as `constructor` or `__proto__`. The model's index is a
  map without such keys.
- Catalog and stock items whose fields are not strings or integers (numbers
  as names, `null` entries) are outside the model.
  - Such items can make the source throw inside the `try`.
  - An entry without a name would make `localeCompare` throw. The model gives
    it the name `""`.
- JSON numbers in weather records are integers here. Beyond truthiness and
  copying, the formatter never looks at them.
- `parseInt` of a stringified stock is the stock itself. The model has no
  hexadecimal or exponent forms.
- The model does not say in what JSON key order `tierBreakdown` is
  serialised.
- The `ws` library's own ready-state transitions, other than those the handlers
  cause, are not modelled. Neither are events from a socket that a later
  `connect` superseded. The model has one socket at a time.
- `cleanup` while a timer is pending clears the timer but not the handle. The
  model reproduces that, but does not model `process.exit`, which follows.
- RareSort.SortCategory: does not state that the sort is stable. Entries that
  tie (same priority and same name) can still differ in stock or in the
  spelling of their rarity, and their relative order is left unspecified.
- RareSort.SortedCopy: does not state stability; tied entries may come out in
  either order.
- RareSort.SortItemsByRarity: does not state stability; tied entries in gear,
  seeds or egg may come out in either order.
- RareStock.RespondWith: does not state stability; the order of tied entries in
  the answer's lists is left open.
- RareStock.HandleRequest: does not state stability, as for
  `RareStock.RespondWith`.
- The JavaScript `this` binding in `handleClose` is not modelled. The TypeError
  thrown when the reconnect timer fires is replaced by the intended `connect`
  (see above).
