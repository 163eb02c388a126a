# SockTrader exchange session bookkeeping, in Dafny

This project models the exchange-independent core of SockTrader's exchange
session, the abstract class `BaseExchange` in `src/core/exchanges/baseExchange.ts`.
That class holds the bookkeeping every concrete exchange adapter shares:

- the **readiness latch**: `isReady` turns `ready` on and emits `"ready"` once,
  when the reference data (`currencies`) is loaded and the session is
  authenticated; `onCurrenciesLoaded` stores the reference data and re-checks it;
- the **open-order table** `openOrders` and the **in-progress marks**
  `orderInProgress`, updated by `onReport`, `addOrder`, `removeOrder`,
  `setOrderInProgress`, `createOrder` (and `buy`/`sell`) and
  `isAdjustingOrderAllowed`;
- the **client order id generator** `generateOrderId`: a per-session counter,
  the pair and the millisecond timestamp, padded with random symbols to 32
  characters; a five-minute timer resets the counter;
- the **keyed factories** `getOrderbook` (one order book per configured pair)
  and `getCandleCollection` (one candle collection per `pair_intervalCode` key).

The model has three modules:

- `Orders` (`orders.dfy`): the order record carried by execution reports, the
  filter that removes an id from the table (`WithoutId`), and the specification
  functions `OrdersAfterReport`, `InProgressAfterReport` and `AdjustAllowed`,
  with lemmas stating what each report kind does to the table.
- `OrderIds` (`order_ids.dfy`): the decimal rendering of numbers, its inverse,
  the id prefix and the random suffix, with injectivity lemmas.
- `Exchanges` (`exchange.dfy`): the class `BaseExchange` with the source's
  fields, whose methods update them in place under field-level `modifies`
  frames and are proved against the functions above; the classes `Orderbook`
  and `CandleCollection` stand for the cached instances, so "the same instance
  for the same key" is object identity. `Valid()` keeps three invariants: the
  event log holds exactly one `"ready"` once the session is ready and none
  before; each cached order book belongs to its key; no two keys share a cached
  instance.

Inputs that the source takes from the environment are parameters: the
timestamp (`now`) and the random stream (`entropy`, a string over the id
alphabet from which the suffix is taken). Emitted events are appended to the
`events` log instead of being delivered to listeners.

Notes on the code's behaviour:

- `onReport` leaves the open-order table unchanged for a `"trade"` report whose
  status is not `"filled"` (a partial fill), and for every other report type.
- `getOrderbook` returns a cached book even when the pair has since disappeared
  from the reference data; only an uncached pair is looked up.
- `createOrder` in the base class only generates and marks the id; its price,
  quantity and side are not used there.
- the candle cache key `pair_intervalCode` is ambiguous when a pair contains
  `_`: pair `A_B` with interval `C` and pair `A` with interval `B_C` share one
  collection.

## Model

| member | source | states |
|---|---|---|
| Orders.WithoutId | src/core/exchanges/baseExchange.ts:292-294 | removing an id never lengthens the open-order table |
| Orders.WithoutIdMembers | src/core/exchanges/baseExchange.ts:292-294 | an order survives `removeOrder(id)` exactly when it was present and its client id is not `id` |
| Orders.WithoutIdConcat | src/core/exchanges/baseExchange.ts:292-294 | filtering distributes over concatenation, so the surviving orders keep their relative order |
| Orders.WithoutIdIdempotent | src/core/exchanges/baseExchange.ts:292-294 | removing the same id twice is the same as removing it once |
| Orders.WithoutAbsentId | src/core/exchanges/baseExchange.ts:292-294 | removing an id no open order has leaves the table exactly as it was |
| Orders.OrdersAfterReport | src/core/exchanges/baseExchange.ts:170-182 | after a report the table holds only orders it held before or the reported order, and after a "replaced" or "new" report the reported order is last |
| Orders.InProgressAfterReport | src/core/exchanges/baseExchange.ts:164-173 | after any report the reported id is no longer in progress, after a "replaced" report the superseded id neither, and every other mark is kept |
| Orders.ReplacedReportSwapsOrder | src/core/exchanges/baseExchange.ts:170-175 | a "replaced" report leaves the new order last, keeps exactly the other orders whose id is not the superseded one, and no order but the new one carries the superseded id |
| Orders.NewReportAppends | src/core/exchanges/baseExchange.ts:176-177 | a "new" report appends the order at the end and leaves every earlier entry in place |
| Orders.ClosingReportRemovesOrder | src/core/exchanges/baseExchange.ts:178-181 | a filled "trade", "canceled", "expired" or "suspended" report keeps exactly the orders with a different id, and a repeated such report changes nothing more |
| Orders.OtherReportKeepsOrders | src/core/exchanges/baseExchange.ts:176-182 | any other report type, including a trade that is not filled, leaves the table unchanged |
| Orders.AdjustAllowed | src/core/exchanges/baseExchange.ts:260-266 | an adjustment is refused when the id is in progress or price and quantity both equal the order's, and allowed in every other case |
| Orders.AdjustAllowedOnlyOnce | src/core/exchanges/baseExchange.ts:259-270 | once an adjustment was allowed and its id marked, any further adjustment of that id is refused whatever the price and quantity |
| Orders.ReportReopensAdjustment | src/core/exchanges/baseExchange.ts:164-168 | after a report for an order, adjusting it to a different price or quantity is allowed again |
| OrderIds.DigitChar | src/core/exchanges/baseExchange.ts:248 | a digit value below 10 becomes the decimal digit character of that value |
| OrderIds.DecimalString | src/core/exchanges/baseExchange.ts:248 | the rendering of a number in an id is a non-empty string of digits without a leading zero |
| OrderIds.ParseDecimalString | src/core/exchanges/baseExchange.ts:248 | reading the decimal rendering back yields the number |
| OrderIds.DecimalStringInjective | src/core/exchanges/baseExchange.ts:248 | distinct counter values render differently |
| OrderIds.IdPrefix | src/core/exchanges/baseExchange.ts:248 | the id prefix splits into the counter's digits, the pair and the timestamp's digits, each of which reads back to its value |
| OrderIds.Suffix | src/core/exchanges/baseExchange.ts:250 | the random part pads a prefix of at most 32 characters to exactly 32, using only symbols of the id alphabet |
| OrderIds.PrefixInjective | src/core/exchanges/baseExchange.ts:244-251 | for one pair and timestamp, distinct counters give distinct id prefixes |
| OrderIds.DistinctCountersGiveDistinctIds | src/core/exchanges/baseExchange.ts:244-251 | for one pair and timestamp, distinct counters with the same number of digits give distinct ids whatever the random suffixes |
| Exchanges.DecimalPlaces | src/core/exchanges/baseExchange.ts:113 | the precision of a tick size is at most its scale, and a positive precision means no trailing zero was dropped at that scale |
| Exchanges.DecimalPlacesAreSignificant | src/core/exchanges/baseExchange.ts:113 | the places dropped from a tick size are trailing zeros and the last place kept, if any, is not zero: the precision is the number of significant decimal places |
| Exchanges.DecimalPlacesOfPaddedValue | src/core/exchanges/baseExchange.ts:113 | the precision depends on the tick size's value, not on trailing zeros of its representation |
| Exchanges.FindPair | src/core/exchanges/baseExchange.ts:108 | the lookup fails exactly when no configuration row has the pair's id, and otherwise returns the first row with that id |
| Exchanges.CandleKey | src/core/exchanges/baseExchange.ts:83 | the cache key is the pair, then `_`, then the interval code |
| Exchanges.CandleKeyInjective | src/core/exchanges/baseExchange.ts:83 | for pairs without `_`, equal keys mean equal pairs and equal interval codes |
| Exchanges.CandleKeyCollision | src/core/exchanges/baseExchange.ts:83 | a pair containing `_` can share its key with another pair and interval |
| Exchanges.Orderbook.constructor | src/core/exchanges/baseExchange.ts:115 | a new order book is created for the pair with the given precision |
| Exchanges.CandleCollection.constructor | src/core/exchanges/baseExchange.ts:88 | a new candle collection is created for the interval, with no listener yet |
| Exchanges.CandleCollection.On | src/core/exchanges/baseExchange.ts:89 | registering an "update" handler appends it to the collection's listeners |
| Exchanges.BaseExchange.constructor | src/core/exchanges/baseExchange.ts:30-47 | a new session is not authenticated, not loaded, not ready, has empty tables and caches, a zero counter and an empty event log |
| Exchanges.BaseExchange.ResetOrderIncrement | src/core/exchanges/baseExchange.ts:151-155 | the periodic reset sets the id counter to 0 and changes nothing else |
| Exchanges.BaseExchange.IsReady | src/core/exchanges/baseExchange.ts:119-134 | the session becomes ready exactly when it was ready or both flags hold, returns the new readiness, emits "ready" only on the transition, and never more than one "ready" is ever emitted |
| Exchanges.BaseExchange.OnCurrenciesLoaded | src/core/exchanges/baseExchange.ts:157-161 | stores the reference data, sets the loaded flag, and becomes ready (emitting "ready" once) if the session is authenticated |
| Exchanges.BaseExchange.SetOrderInProgress | src/core/exchanges/baseExchange.ts:299-305 | true marks the id in progress, false deletes the mark; nothing else changes |
| Exchanges.BaseExchange.AddOrder | src/core/exchanges/baseExchange.ts:225-227 | the order is appended at the end of the open-order table |
| Exchanges.BaseExchange.RemoveOrder | src/core/exchanges/baseExchange.ts:292-294 | the table keeps exactly the orders whose id differs, in their original order; nothing else changes |
| Exchanges.BaseExchange.GetOpenOrders | src/core/exchanges/baseExchange.ts:96 | returns the open-order table |
| Exchanges.BaseExchange.OnReport | src/core/exchanges/baseExchange.ts:164-185 | the table and the marks change as OrdersAfterReport and InProgressAfterReport say for the report's type, and the report is always emitted as "app.report" |
| Exchanges.BaseExchange.GenerateOrderId | src/core/exchanges/baseExchange.ts:244-251 | the counter grows by exactly 1; the id starts with the new counter, the pair and the timestamp, continues with alphabet symbols only, and is exactly 32 characters when that prefix fits |
| Exchanges.BaseExchange.CreateOrder | src/core/exchanges/baseExchange.ts:232-236 | returns a freshly generated id and marks exactly that id in progress |
| Exchanges.BaseExchange.Buy | src/core/exchanges/baseExchange.ts:51-53 | creates a buy order: the counter grows by 1, and the new id, marked in progress, is the counter, pair and timestamp followed by alphabet symbols, 32 characters when that prefix fits |
| Exchanges.BaseExchange.Sell | src/core/exchanges/baseExchange.ts:191-193 | creates a sell order: the counter grows by 1, and the new id, marked in progress, is the counter, pair and timestamp followed by alphabet symbols, 32 characters when that prefix fits |
| Exchanges.BaseExchange.IsAdjustingOrderAllowed | src/core/exchanges/baseExchange.ts:259-270 | refuses, changing nothing, when the id is in progress or price and quantity both equal the order's; otherwise marks the id and allows |
| Exchanges.BaseExchange.GetOrderbook | src/core/exchanges/baseExchange.ts:103-117 | a cached pair returns its cached book unchanged; an unknown uncached pair fails and stores nothing; a configured pair gets one new book with its tick size's precision, stored under the pair |
| Exchanges.BaseExchange.GetCandleCollection | src/core/exchanges/baseExchange.ts:82-91 | an existing key returns its cached collection untouched (the new handler is not registered); a new key gets exactly one new collection, listened to by the given handler, stored under `pair_code` |
| Exchanges.ReadyOnceScenario | src/core/exchanges/baseExchange.ts:119-161 | whichever of authentication and reference data comes first, and however often readiness is re-checked, exactly one "ready" is emitted |

## Left out

- The WebSocket plumbing (`connect`, `onConnect`, `send` and its "first connect" guard, the connection's event handlers) is I/O and is not part of this model.
- The `emit`, `on` and `destroy` overrides and their development-mode logging are not modelled; emission is recorded in the `events` log.
- The five-minute `setInterval` timer is not modelled; its body is `ResetOrderIncrement`, with no timing and no interleaving with id generation.
- The abstract members `adjustOrder`, `cancelOrder`, `login`, `loadCurrencies`, `subscribeCandles`, `subscribeOrderbook`, `subscribeReports`, `onUpdateCandles` and `onUpdateOrderbook` have no code in the base class; the concrete adapters that implement them are not part of this model. Subclasses set the public `isAuthenticated` field directly, and so do clients of the model.
- The internals of `Orderbook` and `CandleCollection` are not part of this model; they are represented only by their constructor arguments and the collection's "update" listeners.
- Exchanges.DecimalPlaces: the tick size is taken as an exact decimal; the conversion of a binary floating-point `tickSize` to a decimal by the decimal library is not modelled.
- Exchanges.BaseExchange.GenerateOrderId: the random library is modelled as taking the needed symbols from `entropy`; when the prefix is longer than 32 characters the library would be asked for a negative length, and the model then appends nothing. No uniqueness claim is made for ids with different timestamps or across a counter reset.
- OrderIds.Suffix: lengths are counted in characters (Unicode scalar values), not in UTF-16 code units as JavaScript's `length` counts them; for a pair with characters outside the Basic Multilingual Plane the source's suffix is shorter by one per such character.
- Exchanges.BaseExchange.GenerateOrderId: for the same reason, the 32-character length holds in characters, which equals JavaScript's length only for pairs within the Basic Multilingual Plane.
- JavaScript number semantics are not modelled: prices and quantities are exact reals (no NaN), and counters and timestamps are rendered in plain decimal (no exponent notation for values of 10^21 and more).
- Keys inherited by plain JavaScript objects (such as `"constructor"`), which the source's truthiness checks on `orderInProgress`, `orderbooks` and `candles` would treat as present, are not modelled.
- A report without `originalRequestClientOrderId` (an `undefined` id) is not modelled; the field is always a string.
- Exchanges.BaseExchange.GetOpenOrders: it returns the table's value; that the source returns the live array, which a later `push` changes but a later `filter` does not, is not modelled.
