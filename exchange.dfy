/**
 * The exchange-independent part of an exchange session (`BaseExchange`): the
 * readiness latch, the table of open orders and the in-progress marks, the
 * client order id generator, and the lazily filled caches of order books and
 * candle collections.
 */
module Exchanges {
  import opened Orders
  import opened OrderIds

  datatype Option<T> = None | Some(value: T)

  datatype Result<T, E> = Success(value: T) | Failure(error: E)

  /** The synchronous failure of an order-book request for an unknown pair. */
  datatype Error = NoConfigurationForPair(pair: string)

  /** An exact decimal number `unscaled * 10^-scale`. */
  datatype Decimal = Decimal(unscaled: nat, scale: nat)

  /** Reference data of one tradeable pair. */
  datatype TradeablePair = TradeablePair(id: string, quantityIncrement: Decimal, tickSize: Decimal)

  /** A candle interval; only its code takes part in the session's bookkeeping. */
  datatype CandleInterval = CandleInterval(code: string)

  /** A subscriber callback, represented by an opaque handle. */
  datatype UpdateHandler = UpdateHandler(handle: nat)

  /** What the session emits to its listeners. */
  datatype Event = Ready | AppReport(report: Report)

  /** Number of "ready" notifications in an event log. */
  function ReadyCount(events: seq<Event>): nat {
    if events == [] then 0
    else ReadyCount(events[..|events| - 1]) + (if events[|events| - 1] == Ready then 1 else 0)
  }

  /** The number of significant decimal places of a decimal number. */
  function DecimalPlaces(d: Decimal): (places: nat)
    ensures places <= d.scale
    ensures places > 0 ==> d.unscaled % 10 != 0 || d.scale > places
    decreases d.scale
  {
    if d.scale == 0 || d.unscaled == 0 then 0
    else if d.unscaled % 10 == 0 then DecimalPlaces(Decimal(d.unscaled / 10, d.scale - 1))
    else d.scale
  }

  function Pow10(n: nat): (r: nat)
    ensures r >= 1
  {
    if n == 0 then 1 else 10 * Pow10(n - 1)
  }

  /**
   * `digits` are the significant digits of `d` when `places` decimal places are
   * kept: the unscaled value is `digits` followed by the dropped places, all
   * zeros, and the last kept place, if any, is not zero.
   */
  ghost predicate SignificantDigits(d: Decimal, places: nat, digits: nat)
    requires places <= d.scale
  {
    d.unscaled == digits * Pow10(d.scale - places) && (places > 0 ==> digits % 10 != 0)
  }

  /**
   * The places dropped by `DecimalPlaces` were all trailing zeros and the last
   * place kept is not: the result is the number of significant decimal places.
   */
  lemma {:induction false} DecimalPlacesAreSignificant(d: Decimal)
    ensures exists digits: nat :: SignificantDigits(d, DecimalPlaces(d), digits)
    decreases d.scale
  {
    var places := DecimalPlaces(d);
    if d.scale == 0 || d.unscaled == 0 {
      assert places == 0;
      if d.scale == 0 {
        assert Pow10(d.scale - places) == 1;
      }
      assert SignificantDigits(d, places, d.unscaled);
    } else if d.unscaled % 10 == 0 {
      var shorter := Decimal(d.unscaled / 10, d.scale - 1);
      DecimalPlacesAreSignificant(shorter);
      assert places == DecimalPlaces(shorter) && places <= shorter.scale;
      var digits: nat :| SignificantDigits(shorter, places, digits);
      assert Pow10(d.scale - places) == 10 * Pow10(shorter.scale - places);
      assert d.unscaled == 10 * shorter.unscaled;
      assert SignificantDigits(d, places, digits);
    } else {
      assert places == d.scale && Pow10(0) == 1;
      assert SignificantDigits(d, places, d.unscaled);
    }
  }

  /** Decimal places depend on the value only, not on trailing zeros of its representation. */
  lemma DecimalPlacesOfPaddedValue(d: Decimal)
    ensures DecimalPlaces(Decimal(d.unscaled * 10, d.scale + 1)) == DecimalPlaces(d)
  {
  }

  /** Index of the first pair at or after `from` whose id is `pair`, or |currencies|. */
  function FindFrom(currencies: seq<TradeablePair>, pair: string, from: nat): (i: nat)
    requires from <= |currencies|
    ensures from <= i <= |currencies|
    ensures i < |currencies| ==> currencies[i].id == pair
    ensures forall j :: from <= j < i ==> currencies[j].id != pair
    decreases |currencies| - from
  {
    if from == |currencies| then from
    else if currencies[from].id == pair then from
    else FindFrom(currencies, pair, from + 1)
  }

  /** The first configuration row of the pair, as `Array.prototype.find` returns it. */
  function FindPair(currencies: seq<TradeablePair>, pair: string): (r: Option<TradeablePair>)
    ensures r.None? <==> forall c :: c in currencies ==> c.id != pair
    ensures r.Some? ==> exists i :: 0 <= i < |currencies| && currencies[i] == r.value
                          && r.value.id == pair
                          && forall j :: 0 <= j < i ==> currencies[j].id != pair
  {
    var i := FindFrom(currencies, pair, 0);
    if i < |currencies| then Some(currencies[i]) else None
  }

  /** The key of the candle cache: pair and interval code joined by an underscore. */
  function CandleKey(pair: string, interval: CandleInterval): (key: string)
    ensures |key| == |pair| + 1 + |interval.code|
    ensures key[..|pair|] == pair && key[|pair|] == '_' && key[|pair| + 1..] == interval.code
  {
    pair + "_" + interval.code
  }

  /**
   * For pairs without an underscore, the cache key determines the pair and the
   * interval code, so distinct subscriptions never share a collection.
   */
  lemma CandleKeyInjective(pair: string, interval: CandleInterval,
                           pair': string, interval': CandleInterval)
    requires '_' !in pair && '_' !in pair'
    requires CandleKey(pair, interval) == CandleKey(pair', interval')
    ensures pair == pair' && interval.code == interval'.code
  {
  }

  /** With an underscore in a pair, two different subscriptions share one key. */
  lemma CandleKeyCollision()
    ensures CandleKey("A_B", CandleInterval("C")) == CandleKey("A", CandleInterval("B_C"))
  {
  }

  /** An order book for one pair; its contents are not part of this model. */
  class Orderbook {
    const pair: string
    const precision: nat

    constructor (pair: string, precision: nat)
      ensures this.pair == pair && this.precision == precision
    {
      this.pair := pair;
      this.precision := precision;
    }
  }

  /** A candle series for one interval, with its "update" listeners. */
  class CandleCollection {
    const interval: CandleInterval
    var updateHandlers: seq<UpdateHandler>

    constructor (interval: CandleInterval)
      ensures this.interval == interval && updateHandlers == []
    {
      this.interval := interval;
      updateHandlers := [];
    }

    /** Registers a listener for "update". */
    method On(handler: UpdateHandler)
      modifies this`updateHandlers
      ensures updateHandlers == old(updateHandlers) + [handler]
    {
      updateHandlers := updateHandlers + [handler];
    }
  }

  class BaseExchange {
    var isAuthenticated: bool
    var isCurrenciesLoaded: bool
    var candles: map<string, CandleCollection>
    var currencies: seq<TradeablePair>
    var openOrders: seq<Order>
    var orderbooks: map<string, Orderbook>
    var orderIncrement: nat
    var orderInProgress: set<string>
    var ready: bool
    /** Everything emitted so far, oldest first. */
    var events: seq<Event>

    /**
     * The session's invariant: "ready" has been emitted exactly once if the
     * session is ready and never otherwise; each cached order book belongs to
     * its key; no two keys share a cached instance.
     */
    ghost predicate Valid()
      reads this
    {
      && ReadyCount(events) == (if ready then 1 else 0)
      && (forall p :: p in orderbooks ==> orderbooks[p].pair == p)
      && (forall p, q :: p in orderbooks && q in orderbooks && p != q ==> orderbooks[p] != orderbooks[q])
      && (forall k, l :: k in candles && l in candles && k != l ==> candles[k] != candles[l])
    }

    /** A fresh session; the periodic counter reset is `ResetOrderIncrement`. */
    constructor ()
      ensures Valid()
      ensures !isAuthenticated && !isCurrenciesLoaded && !ready
      ensures candles == map[] && orderbooks == map[]
      ensures currencies == [] && openOrders == [] && orderInProgress == {}
      ensures orderIncrement == 0 && events == []
    {
      isAuthenticated := false;
      isCurrenciesLoaded := false;
      candles := map[];
      currencies := [];
      openOrders := [];
      orderbooks := map[];
      orderIncrement := 0;
      orderInProgress := {};
      ready := false;
      events := [];
    }

    /** The body of the five-minute timer: the id counter starts over. */
    method ResetOrderIncrement()
      requires Valid()
      modifies this`orderIncrement
      ensures Valid() && orderIncrement == 0
    {
      orderIncrement := 0;
    }

    /**
     * Becomes ready, emitting "ready", the first time it is called with both
     * the reference data loaded and the session authenticated; once ready it
     * stays ready and emits nothing more.
     */
    method IsReady() returns (r: bool)
      requires Valid()
      modifies this`ready, this`events
      ensures Valid()
      ensures r == ready
      ensures ready == (old(ready) || (isCurrenciesLoaded && isAuthenticated))
      ensures events == if !old(ready) && ready then old(events) + [Ready] else old(events)
      ensures ReadyCount(events) <= 1
    {
      if ready {
        return ready;
      }
      if isCurrenciesLoaded && isAuthenticated {
        ready := true;
        events := events + [Ready];
        assert events[..|events| - 1] == old(events);
      }
      r := ready;
    }

    /** Stores the reference data, marks it loaded and re-checks readiness. */
    method OnCurrenciesLoaded(cs: seq<TradeablePair>)
      requires Valid()
      modifies this`currencies, this`isCurrenciesLoaded, this`ready, this`events
      ensures Valid()
      ensures currencies == cs && isCurrenciesLoaded
      ensures ready == (old(ready) || isAuthenticated)
      ensures events == if !old(ready) && ready then old(events) + [Ready] else old(events)
    {
      currencies := cs;
      isCurrenciesLoaded := true;
      var _ := IsReady();
    }

    /** Marks (`state` true) or clears (`state` false) an order id as in progress. */
    method SetOrderInProgress(orderId: string, state: bool := true)
      requires Valid()
      modifies this`orderInProgress
      ensures Valid()
      ensures orderInProgress == if state then old(orderInProgress) + {orderId}
                                 else old(orderInProgress) - {orderId}
    {
      if state == false {
        orderInProgress := orderInProgress - {orderId};
      } else {
        orderInProgress := orderInProgress + {orderId};
      }
    }

    /** Appends an order to the open-order table. */
    method AddOrder(order: Order)
      requires Valid()
      modifies this`openOrders
      ensures Valid()
      ensures openOrders == old(openOrders) + [order]
    {
      openOrders := openOrders + [order];
    }

    /** Keeps exactly the open orders whose client id is not `orderId`. */
    method RemoveOrder(orderId: string)
      requires Valid()
      modifies this`openOrders
      ensures Valid()
      ensures openOrders == WithoutId(old(openOrders), orderId)
      ensures forall o :: o in openOrders <==> o in old(openOrders) && o.clientOrderId != orderId
    {
      WithoutIdMembers(openOrders, orderId);
      openOrders := WithoutId(openOrders, orderId);
    }

    /** The open-order table. */
    method GetOpenOrders() returns (orders: seq<Order>)
      ensures orders == openOrders
    {
      orders := openOrders;
    }

    /**
     * Handles an execution report: clears the in-progress mark of the reported
     * id (and, for a replacement, of the superseded id), updates the open-order
     * table according to the report type, and always passes the report on.
     */
    method OnReport(data: Report)
      requires Valid()
      modifies this`openOrders, this`orderInProgress, this`events
      ensures Valid()
      ensures openOrders == OrdersAfterReport(old(openOrders), data.params)
      ensures orderInProgress == InProgressAfterReport(old(orderInProgress), data.params)
      ensures events == old(events) + [AppReport(data)]
    {
      var order := data.params;
      var orderId := order.clientOrderId;
      ghost var before := openOrders;

      SetOrderInProgress(orderId, false);

      if order.reportType == "replaced" {
        var oldOrderId := order.originalRequestClientOrderId;
        SetOrderInProgress(oldOrderId, false);
        RemoveOrder(oldOrderId);
        AddOrder(order);
      } else if order.reportType == "new" {
        AddOrder(order);
      } else if order.reportType == "trade" && order.status == "filled" {
        RemoveOrder(orderId);
      } else if order.reportType in ["canceled", "expired", "suspended"] {
        assert IsClosingType(order.reportType);
        RemoveOrder(orderId);
      } else {
        assert !IsClosingType(order.reportType);
      }
      assert openOrders == OrdersAfterReport(before, order);

      events := events + [AppReport(data)];
      assert events[..|events| - 1] == old(events);
    }

    /**
     * Advances the counter by one and returns the counter, the pair and the
     * timestamp in decimal, followed by symbols of the random stream `entropy`
     * up to a total of 32 characters.
     */
    method GenerateOrderId(pair: string, now: nat, entropy: string) returns (id: string)
      requires Valid()
      requires |entropy| >= MaxIdLength && OverAlphabet(entropy)
      modifies this`orderIncrement
      ensures Valid()
      ensures orderIncrement == old(orderIncrement) + 1
      ensures var prefix := IdPrefix(orderIncrement, pair, now);
        && |prefix| <= |id| && id[..|prefix|] == prefix
        && OverAlphabet(id[|prefix|..])
        && (|prefix| <= MaxIdLength ==> |id| == MaxIdLength)
    {
      orderIncrement := orderIncrement + 1;
      var orderId := IdPrefix(orderIncrement, pair, now);
      var suffix := Suffix(orderId, entropy);
      id := orderId + suffix;
      assert id[..|orderId|] == orderId && id[|orderId|..] == suffix;
    }

    /** Generates a client order id, marks it in progress and returns it. */
    method CreateOrder(pair: string, price: real, qty: real, side: Side, now: nat, entropy: string)
      returns (orderId: string)
      requires Valid()
      requires |entropy| >= MaxIdLength && OverAlphabet(entropy)
      modifies this`orderIncrement, this`orderInProgress
      ensures Valid()
      ensures orderIncrement == old(orderIncrement) + 1
      ensures orderInProgress == old(orderInProgress) + {orderId}
      ensures var prefix := IdPrefix(orderIncrement, pair, now);
        && |prefix| <= |orderId| && orderId[..|prefix|] == prefix
        && OverAlphabet(orderId[|prefix|..])
        && (|prefix| <= MaxIdLength ==> |orderId| == MaxIdLength)
    {
      orderId := GenerateOrderId(pair, now, entropy);
      SetOrderInProgress(orderId);
    }

    /** A buy order: `CreateOrder` on the buy side. */
    method Buy(symbol: string, price: real, qty: real, now: nat, entropy: string)
      returns (orderId: string)
      requires Valid()
      requires |entropy| >= MaxIdLength && OverAlphabet(entropy)
      modifies this`orderIncrement, this`orderInProgress
      ensures Valid()
      ensures orderIncrement == old(orderIncrement) + 1
      ensures orderInProgress == old(orderInProgress) + {orderId}
      ensures var prefix := IdPrefix(orderIncrement, symbol, now);
        && |prefix| <= |orderId| && orderId[..|prefix|] == prefix
        && OverAlphabet(orderId[|prefix|..])
        && (|prefix| <= MaxIdLength ==> |orderId| == MaxIdLength)
    {
      orderId := CreateOrder(symbol, price, qty, Side.Buy, now, entropy);
    }

    /** A sell order: `CreateOrder` on the sell side. */
    method Sell(symbol: string, price: real, qty: real, now: nat, entropy: string)
      returns (orderId: string)
      requires Valid()
      requires |entropy| >= MaxIdLength && OverAlphabet(entropy)
      modifies this`orderIncrement, this`orderInProgress
      ensures Valid()
      ensures orderIncrement == old(orderIncrement) + 1
      ensures orderInProgress == old(orderInProgress) + {orderId}
      ensures var prefix := IdPrefix(orderIncrement, symbol, now);
        && |prefix| <= |orderId| && orderId[..|prefix|] == prefix
        && OverAlphabet(orderId[|prefix|..])
        && (|prefix| <= MaxIdLength ==> |orderId| == MaxIdLength)
    {
      orderId := CreateOrder(symbol, price, qty, Side.Sell, now, entropy);
    }

    /**
     * Decides whether an adjustment may be sent; when it may, the order's id is
     * marked in progress, otherwise nothing changes.
     */
    method IsAdjustingOrderAllowed(order: Order, price: real, qty: real) returns (allowed: bool)
      requires Valid()
      modifies this`orderInProgress
      ensures Valid()
      ensures allowed == AdjustAllowed(old(orderInProgress), order, price, qty)
      ensures orderInProgress == if allowed then old(orderInProgress) + {order.clientOrderId}
                                 else old(orderInProgress)
    {
      if order.clientOrderId in orderInProgress {
        return false;
      }
      if order.price == price && order.quantity == qty {
        return false;
      }
      SetOrderInProgress(order.clientOrderId);
      return true;
    }

    /**
     * The cached order book of the pair; otherwise a new book with the
     * precision of the pair's tick size, stored for later calls; an error when
     * the pair has no configuration, in which case nothing is stored.
     */
    method GetOrderbook(pair: string) returns (r: Result<Orderbook, Error>)
      requires Valid()
      modifies this`orderbooks
      ensures Valid()
      ensures pair in old(orderbooks) ==> r == Success(old(orderbooks)[pair]) && orderbooks == old(orderbooks)
      ensures pair !in old(orderbooks) && FindPair(currencies, pair).None? ==>
                r == Failure(NoConfigurationForPair(pair)) && orderbooks == old(orderbooks)
      ensures pair !in old(orderbooks) && FindPair(currencies, pair).Some? ==>
                && r.Success? && fresh(r.value)
                && r.value.pair == pair
                && r.value.precision == DecimalPlaces(FindPair(currencies, pair).value.tickSize)
                && orderbooks == old(orderbooks)[pair := r.value]
    {
      if pair in orderbooks {
        return Success(orderbooks[pair]);
      }
      var config := FindPair(currencies, pair);
      if config.None? {
        return Failure(NoConfigurationForPair(pair));
      }
      var precision := DecimalPlaces(config.value.tickSize);
      var book := new Orderbook(pair, precision);
      orderbooks := orderbooks[pair := book];
      r := Success(book);
    }

    /**
     * The cached candle collection of the pair and interval; otherwise a new
     * collection with `updateHandler` as its only listener, stored for later
     * calls. A cached collection is returned untouched: a later caller's
     * handler is not registered.
     */
    method GetCandleCollection(pair: string, interval: CandleInterval, updateHandler: UpdateHandler)
      returns (r: CandleCollection)
      requires Valid()
      modifies this`candles
      ensures Valid()
      ensures var key := CandleKey(pair, interval);
        && key in candles && r == candles[key]
        && (key in old(candles) ==> candles == old(candles) && unchanged(r))
        && (key !in old(candles) ==>
              fresh(r) && r.interval == interval && r.updateHandlers == [updateHandler]
              && candles == old(candles)[key := r])
    {
      var key := CandleKey(pair, interval);
      if key in candles {
        return candles[key];
      }
      var collection := new CandleCollection(interval);
      collection.On(updateHandler);
      candles := candles[key := collection];
      r := collection;
    }
  }

  /**
   * A session that learns of its reference data and of its authentication in
   * either order, and checks readiness again after both, emits "ready" once.
   */
  method ReadyOnceScenario(authenticateFirst: bool) returns (readyEvents: nat)
    ensures readyEvents == 1
  {
    var exchange := new BaseExchange();
    if authenticateFirst {
      exchange.isAuthenticated := true;
      var r := exchange.IsReady();
      assert !r && exchange.events == [];
      exchange.OnCurrenciesLoaded([]);
      assert exchange.events == [Ready];
    } else {
      exchange.OnCurrenciesLoaded([]);
      assert !exchange.ready && exchange.events == [];
      exchange.isAuthenticated := true;
    }
    var r := exchange.IsReady();
    assert r && exchange.events == [Ready];
    exchange.OnCurrenciesLoaded([]);
    r := exchange.IsReady();
    assert exchange.events == [Ready];
    readyEvents := ReadyCount(exchange.events);
  }
}
