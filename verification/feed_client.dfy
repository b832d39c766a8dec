/** The adapter's side of the feed as the source writes it: the gateway that owns the service
    connection and the data client that keeps what the user wants. Every method is tied to the
    effects of the protocol and to the specification of the handler. */
module FeedClient {
  import opened Prelude
  import opened Wire
  import opened SubscriptionTracking
  import opened FeedHandler
  import opened FeedProtocol
  import opened BarDedup

  // ---------- commands as protocol operations ----------

  function QuoteOp(c: Command): seq<Op<string>> {
    match c
    case Subscribe(symbols) => [SubOp(Elements(symbols))]
    case Unsubscribe(symbols) => [UnsubOp(Elements(symbols))]
    case _ => []
  }

  function BarOp(c: Command): seq<Op<BarKey>> {
    match c
    case SubscribeBars(symbols, timeframe) => [SubOp(SymbolKeys(symbols, timeframe))]
    case UnsubscribeBars(symbols, timeframe) => [UnsubOp(SymbolKeys(symbols, timeframe))]
    case _ => []
  }

  /** The keys a bar command names; a command without a timeframe names none. */
  function NamedKeys(symbols: seq<string>, timeframe: string): set<BarKey> {
    if timeframe == [] then {} else SymbolKeys(symbols, timeframe)
  }

  lemma NamesSome(symbols: seq<string>, timeframe: string)
    requires symbols != []
    ensures SymbolKeys(symbols, timeframe) != {}
  {
    assert (symbols[0], Upper(timeframe)) in SymbolKeys(symbols, timeframe);
  }

  lemma ElementsSome(symbols: seq<string>)
    requires symbols != []
    ensures Elements(symbols) != {}
  {
    assert symbols[0] in Elements(symbols);
  }

  /** One half of what the adapter shows to the service: the pending sets, the operations handed to the
      current connection so far, and whether that connection is open. */
  datatype Side<K> = Side(pending: Pending<K>, ops: seq<Op<K>>, connected: bool)

  /** Operations reach the current connection, if it is open. */
  function Handed<K>(s: Side<K>, ops: seq<Op<K>>): Side<K> {
    if s.connected && ops != [] then s.(ops := s.ops + ops) else s
  }

  function Performed<K>(s: Side<K>, e: Effect<K>): Side<K> {
    Handed(s.(pending := e.pending), e.ops)
  }

  /** The bookkeeping and the sends of one command. */
  function Issued<K>(s: Side<K>, op: Op<K>): Side<K> {
    Performed(s, Issue({}, s.pending, op))
  }

  // ---------- the gateway ----------

  /** A service connection: whether it is open, and the operations the service was sent on it, in order. */
  class Connection {
    var open: bool
    var quotes: seq<Op<string>>
    var bars: seq<Op<BarKey>>

    constructor ()
      ensures open && quotes == [] && bars == []
    {
      open, quotes, bars := true, [], [];
    }
  }

  class InboundFeedGateway {
    const handler: InboundFeedHandler
    var serviceWs: Connection?
    var lastHello: Option<Inbound>

    ghost predicate IsConnected()
      reads this, serviceWs
    {
      serviceWs != null && serviceWs.open
    }

    ghost function Socket(): set<object>
      reads this
    {
      if serviceWs == null then {} else {serviceWs}
    }

    ghost function Feed(): set<object>
      reads this
    {
      Socket() + {handler.subscriptionState}
    }

    ghost function Quotes(): Side<string>
      reads this, Feed()
    {
      Side(handler.subscriptionState.Symbols(), if serviceWs == null then [] else serviceWs.quotes, IsConnected())
    }

    ghost function Bars(): Side<BarKey>
      reads this, Feed()
    {
      Side(handler.subscriptionState.Bars(), if serviceWs == null then [] else serviceWs.bars, IsConnected())
    }

    constructor (handler: InboundFeedHandler)
      ensures this.handler == handler && serviceWs == null && lastHello == None
    {
      this.handler := handler;
      serviceWs, lastHello := null, None;
    }

    method Send(command: Command)
      modifies Socket()
      ensures Quotes() == Handed(old(Quotes()), QuoteOp(command))
      ensures Bars() == Handed(old(Bars()), BarOp(command))
      ensures handler.Passed() == old(handler.Passed())
    {
      if serviceWs != null && serviceWs.open {
        serviceWs.quotes := serviceWs.quotes + QuoteOp(command);
        serviceWs.bars := serviceWs.bars + BarOp(command);
      }
    }

    method SubscribeSymbols(symbols: seq<string>)
      modifies Feed()
      ensures Quotes() == Issued(old(Quotes()), SubOp(Elements(symbols))) && Bars() == old(Bars())
      ensures handler.Passed() == old(handler.Passed())
    {
      if symbols == [] {
        return;
      }
      ElementsSome(symbols);
      handler.subscriptionState.MarkSubscribe(symbols);
      Send(Subscribe(symbols));
    }

    method UnsubscribeSymbols(symbols: seq<string>)
      modifies Feed()
      ensures Quotes() == Issued(old(Quotes()), UnsubOp(Elements(symbols))) && Bars() == old(Bars())
      ensures handler.Passed() == old(handler.Passed())
    {
      if symbols == [] {
        return;
      }
      ElementsSome(symbols);
      handler.subscriptionState.MarkUnsubscribe(symbols);
      Send(Unsubscribe(symbols));
    }

    method SubscribeBarKeys(symbols: seq<string>, timeframe: string)
      modifies Feed()
      ensures Bars() == Issued(old(Bars()), SubOp(NamedKeys(symbols, timeframe))) && Quotes() == old(Quotes())
      ensures handler.Passed() == old(handler.Passed())
    {
      if symbols == [] || timeframe == [] {
        return;
      }
      NamesSome(symbols, timeframe);
      handler.subscriptionState.MarkSubscribeBars(symbols, timeframe);
      Send(SubscribeBars(symbols, timeframe));
    }

    method UnsubscribeBarKeys(symbols: seq<string>, timeframe: string)
      modifies Feed()
      ensures Bars() == Issued(old(Bars()), UnsubOp(NamedKeys(symbols, timeframe))) && Quotes() == old(Quotes())
      ensures handler.Passed() == old(handler.Passed())
    {
      if symbols == [] || timeframe == [] {
        return;
      }
      NamesSome(symbols, timeframe);
      handler.subscriptionState.MarkUnsubscribeBars(symbols, timeframe);
      Send(UnsubscribeBars(symbols, timeframe));
    }

    /** One parsed message: the handler decides, and a hello is remembered. */
    method HandleRaw(message: Inbound) returns (event: Option<Inbound>)
      requires handler.Valid()
      modifies `lastHello, handler.Repr()
      ensures handler.Valid() && fresh(handler.Repr() - old(handler.Repr()))
      ensures (handler.Abs(), event) == Handle(old(handler.Abs()), message)
      ensures lastHello == if message.Hello? then Some(message) else old(lastHello)
    {
      event := handler.HandleMessage(message);
      if event.Some? && event.value.Hello? {
        lastHello := event;
      }
    }

    /** A new service connection replaces the current one, closing it if it is open. */
    method Accept(websocket: Connection)
      modifies `serviceWs, if serviceWs == null then {} else {serviceWs}
      ensures serviceWs == websocket
      ensures old(serviceWs) != null && old(serviceWs) != websocket ==> !old(serviceWs).open
      ensures websocket != old(serviceWs) ==> websocket.open == old(websocket.open)
      ensures old(serviceWs) != null ==>
                old(serviceWs).quotes == old(serviceWs.quotes) && old(serviceWs).bars == old(serviceWs.bars)
    {
      if serviceWs != null && serviceWs.open {
        serviceWs.open := false;
      }
      serviceWs := websocket;
    }

    /** The end of one connection's receive loop clears the slot only if the slot is still its own. */
    method Teardown(websocket: Connection)
      modifies `serviceWs
      ensures serviceWs == if old(serviceWs) == websocket then null else old(serviceWs)
    {
      if serviceWs == websocket {
        serviceWs := null;
      }
    }

    method Stop()
      modifies this, if serviceWs == null then {} else {serviceWs}
      ensures serviceWs == null && lastHello == None && handler.Passed() == old(handler.Passed())
      ensures old(serviceWs) != null ==> !old(serviceWs).open
    {
      if serviceWs != null {
        serviceWs.open := false;
        serviceWs := null;
      }
      lastHello := None;
    }
  }

  // ---------- bar types, instruments and what is published ----------

  datatype Aggregation = Second | Minute | Hour | Day | OtherAggregation

  datatype BarType = BarType(instrumentId: string, aggregation: Aggregation, step: int, priceType: string)

  /** The timeframe token of a bar specification, where the service supports it. */
  function WireTimeframe(b: BarType): Option<string> {
    match b.aggregation
    case Minute =>
      if b.step == 1 then Some("M1") else if b.step == 5 then Some("M5")
      else if b.step == 15 then Some("M15") else if b.step == 30 then Some("M30") else None
    case Hour => if b.step == 1 then Some("H1") else if b.step == 4 then Some("H4") else None
    case Day => if b.step == 1 then Some("D1") else None
    case _ => None
  }

  /** The key under which a bar type is fed, when its instrument is known and its step supported. */
  function FeedKey(cache: map<string, string>, barType: BarType): Option<BarKey> {
    if barType.instrumentId in cache && WireTimeframe(barType).Some?
    then Some((cache[barType.instrumentId], WireTimeframe(barType).value)) else None
  }

  /** The service's reading of a timeframe, trimmed: the minutes of a bar. */
  function ServicePeriod(timeframe: string): Option<nat> {
    var tf := Upper(timeframe);
    if tf == "M1" then Some(1) else if tf == "M5" then Some(5) else if tf == "M15" then Some(15)
    else if tf == "M30" then Some(30) else if tf == "H1" then Some(60) else if tf == "H4" then Some(240)
    else if tf == "D1" then Some(1440) else None
  }

  /** The minutes of a bar of the bar type, where these are whole. */
  function Minutes(b: BarType): Option<int> {
    match b.aggregation
    case Minute => Some(b.step) case Hour => Some(60 * b.step) case Day => Some(1440 * b.step) case _ => None
  }

  /** Adapter and service agree: the timeframe the adapter sends is read by the service as exactly the bar
      type's own period; and of the bar types in minutes, hours and days it sends one for these alone. */
  lemma TimeframesAgree(b: BarType)
    ensures WireTimeframe(b).Some? ==> Minutes(b).Some? && ServicePeriod(WireTimeframe(b).value) == Minutes(b)
    ensures WireTimeframe(b).Some? <==>
            || (b.aggregation == Minute && b.step in {1, 5, 15, 30})
            || (b.aggregation == Hour && b.step in {1, 4})
            || (b.aggregation == Day && b.step == 1)
  {
    assert forall tf | tf in ["M1", "M5", "M15", "M30", "H1", "H4", "D1"] :: Upper(tf) == tf;
  }

  /** So two bar types have one feed key exactly when their instruments have one symbol and their bars one
      period. */
  lemma FeedKeysDiffer(cache: map<string, string>, a: BarType, b: BarType)
    requires FeedKey(cache, a).Some? && FeedKey(cache, b).Some?
    ensures FeedKey(cache, a) == FeedKey(cache, b) <==>
            cache[a.instrumentId] == cache[b.instrumentId] && a.aggregation == b.aggregation && a.step == b.step
  {
    TimeframesAgree(a);
    TimeframesAgree(b);
  }

  datatype Published = Quote(tick: QuoteTick) | ClosedBar(bar: Bar<BarType>)

  const VENUE := "METATRADER_5"

  function InstrumentIdOf(symbol: string): string {
    symbol + "." + VENUE
  }

  function QuotesOf(instrument: string, ticks: seq<WireTick>, now: int): seq<Published> {
    if ticks == [] then []
    else
      var q := ToQuoteTick(instrument, ticks[|ticks| - 1], now);
      QuotesOf(instrument, ticks[..|ticks| - 1], now) + if q.Some? then [Quote(q.value)] else []
  }

  /** What one event publishes, given the cached instruments and the bar types wanted. */
  function Publishes(e: Inbound, cache: map<string, string>, barTypes: map<BarKey, BarType>, now: int)
    : seq<Published>
  {
    match e
    case TickBatch(symbol, _, ticks) =>
      var id := InstrumentIdOf(symbol);
      if id in cache then QuotesOf(id, ticks, now) else []
    case BarMessage(bar) =>
      var key := KeyOfBar(bar);
      if key in barTypes && barTypes[key].instrumentId in cache && ToBar(barTypes[key], bar, now).Some?
      then [ClosedBar(ToBar(barTypes[key], bar, now).value)] else []
    case _ => []
  }

  /** Just the one bar, under the bar type asked for, with the wire bar's own prices, volume and time. */
  ghost predicate PublishesBar(out: seq<Published>, barType: BarType, bar: WireBar, now: int) {
    |out| == 1 && out[0].ClosedBar? && ShowsBar(out[0].bar, barType, bar, now)
  }

  predicate IsUpper(timeframe: string) {
    timeframe != [] && Upper(timeframe) == timeframe
  }

  predicate UpperKeys(keys: set<BarKey>) {
    forall k | k in keys :: IsUpper(k.1)
  }

  lemma HelloStaysHello(st: HandlerState, m: Inbound)
    ensures Handle(st, m).1.Some? ==> Handle(st, m).1.value.Hello? == m.Hello?
  {
  }

  // ---------- the data client ----------

  class FeedDataClient {
    /** Cached instruments: instrument id to MT5 symbol. */
    const cache: map<string, string>
    var feedGateway: InboundFeedGateway?
    var feedHandler: InboundFeedHandler?
    var pendingSymbols: set<string>
    var pendingBars: set<BarKey>
    var barTypes: map<BarKey, BarType>
    var published: seq<Published>

    ghost function HandlerParts(): set<object>
      reads this, feedHandler
    {
      if feedHandler == null then {} else feedHandler.Repr()
    }

    ghost function Socket(): set<object>
      reads this, feedGateway
    {
      if feedGateway == null then {} else feedGateway.Socket()
    }

    /** The connection and the subscription state behind the current gateway, or the state it left. */
    ghost function Feed(): set<object>
      reads this, feedGateway, feedHandler
    {
      if feedGateway != null then feedGateway.Feed()
      else if feedHandler != null then {feedHandler.subscriptionState} else {}
    }

    ghost function Quotes(): Side<string>
      reads this, feedGateway, feedHandler, Feed()
    {
      if feedGateway != null then feedGateway.Quotes()
      else Side(if feedHandler == null then Pending({}, {}) else feedHandler.subscriptionState.Symbols(), [], false)
    }

    ghost function Bars(): Side<BarKey>
      reads this, feedGateway, feedHandler, Feed()
    {
      if feedGateway != null then feedGateway.Bars()
      else Side(if feedHandler == null then Pending({}, {}) else feedHandler.subscriptionState.Bars(), [], false)
    }

    /** What the handler has already let through. */
    ghost function Dedup(): (map<string, SymbolState>, map<BarKey, int>)
      requires feedHandler != null
      reads this, feedHandler, HandlerParts()
    {
      feedHandler.Passed()
    }

    /** A bar type is kept for exactly the bar keys wanted, under that key's own timeframe; the
        handler in use survives its gateway. */
    ghost predicate Valid()
      reads this, feedGateway, feedHandler, Feed()
    {
      && barTypes.Keys == pendingBars
      && (forall k | k in barTypes :: WireTimeframe(barTypes[k]) == Some(k.1))
      && (feedGateway != null ==> feedHandler == feedGateway.handler)
      && (feedHandler != null ==> feedHandler.Valid())
      && UpperKeys(Bars().pending.subscribe)
    }

    constructor (cache: map<string, string>)
      ensures Valid() && this.cache == cache && feedGateway == null && feedHandler == null
      ensures pendingSymbols == {} && pendingBars == {} && published == []
    {
      this.cache := cache;
      feedGateway, feedHandler := null, null;
      pendingSymbols, pendingBars, barTypes, published := {}, {}, map[], [];
    }

    method SubscribeQuoteTicks(instrumentId: string)
      requires Valid()
      modifies `pendingSymbols, Feed()
      ensures feedHandler != null ==> Dedup() == old(Dedup())
      ensures Valid() && Bars() == old(Bars())
      ensures instrumentId !in cache ==> pendingSymbols == old(pendingSymbols) && Quotes() == old(Quotes())
      ensures instrumentId in cache ==>
                var symbol := cache[instrumentId];
                var e := SubscribeEffect(old(pendingSymbols), old(Quotes()).pending, feedGateway != null, symbol);
                pendingSymbols == e.desired && Quotes() == Performed(old(Quotes()), e)
    {
      if instrumentId !in cache {
        return;
      }
      var symbol := cache[instrumentId];
      pendingSymbols := pendingSymbols + {symbol};
      if feedGateway != null {
        assert Elements([symbol]) == {symbol};
        feedGateway.SubscribeSymbols([symbol]);
      }
    }

    method UnsubscribeQuoteTicks(instrumentId: string)
      requires Valid()
      modifies `pendingSymbols, Feed()
      ensures feedHandler != null ==> Dedup() == old(Dedup())
      ensures Valid() && Bars() == old(Bars())
      ensures instrumentId !in cache ==> pendingSymbols == old(pendingSymbols) && Quotes() == old(Quotes())
      ensures instrumentId in cache ==>
                var symbol := cache[instrumentId];
                var e := UnsubscribeEffect(old(pendingSymbols), old(Quotes()).pending, feedGateway != null, symbol);
                pendingSymbols == e.desired && Quotes() == Performed(old(Quotes()), e)
    {
      if instrumentId !in cache {
        return;
      }
      var symbol := cache[instrumentId];
      pendingSymbols := pendingSymbols - {symbol};
      if feedGateway != null {
        assert Elements([symbol]) == {symbol};
        feedGateway.UnsubscribeSymbols([symbol]);
      }
    }

    method SubscribeBarType(barType: BarType)
      requires Valid()
      modifies `pendingBars, `barTypes, Feed()
      ensures feedHandler != null ==> Dedup() == old(Dedup())
      ensures Valid() && Quotes() == old(Quotes())
      ensures FeedKey(cache, barType) == None ==> barTypes == old(barTypes) && Bars() == old(Bars())
      ensures FeedKey(cache, barType).Some? ==>
                var key := FeedKey(cache, barType).value;
                var e := SubscribeEffect(old(pendingBars), old(Bars()).pending, feedGateway != null, key);
                && barTypes == old(barTypes)[key := barType]
                && pendingBars == e.desired && Bars() == Performed(old(Bars()), e)
    {
      if barType.instrumentId !in cache {
        return;
      }
      var symbol := cache[barType.instrumentId];
      match WireTimeframe(barType) {
        case None =>
        case Some(timeframe) =>
          var key := (symbol, timeframe);
          WireTimeframeIsUpper(barType);
          pendingBars := pendingBars + {key};
          barTypes := barTypes[key := barType];
          if feedGateway != null {
            OneKey(symbol, timeframe);
            feedGateway.SubscribeBarKeys([symbol], timeframe);
          }
      }
    }

    method UnsubscribeBarType(barType: BarType)
      requires Valid()
      modifies `pendingBars, `barTypes, Feed()
      ensures feedHandler != null ==> Dedup() == old(Dedup())
      ensures Valid() && Quotes() == old(Quotes())
      ensures FeedKey(cache, barType) == None ==> barTypes == old(barTypes) && Bars() == old(Bars())
      ensures FeedKey(cache, barType).Some? ==>
                var key := FeedKey(cache, barType).value;
                var e := UnsubscribeEffect(old(pendingBars), old(Bars()).pending, feedGateway != null, key);
                && barTypes == old(barTypes) - {key}
                && pendingBars == e.desired && Bars() == Performed(old(Bars()), e)
    {
      if barType.instrumentId !in cache {
        return;
      }
      var symbol := cache[barType.instrumentId];
      match WireTimeframe(barType) {
        case None =>
        case Some(timeframe) =>
          var key := (symbol, timeframe);
          WireTimeframeIsUpper(barType);
          pendingBars := pendingBars - {key};
          barTypes := barTypes - {key};
          if feedGateway != null {
            OneKey(symbol, timeframe);
            feedGateway.UnsubscribeBarKeys([symbol], timeframe);
          }
      }
    }

    // ---------- replay ----------

    /** Sends everything desired or pending in one command; nothing when there is nothing. */
    method ReplayPendingQuotes()
      requires Valid()
      modifies Feed()
      ensures Valid() && Bars() == old(Bars())
      ensures feedHandler != null ==> Dedup() == old(Dedup())
      ensures Quotes() == if feedGateway == null then old(Quotes())
                          else Issued(old(Quotes()), SubOp(ReplaySet(pendingSymbols, old(Quotes()).pending)))
    {
      if feedGateway == null {
        return;
      }
      var pending := pendingSymbols + feedGateway.handler.subscriptionState.pendingSubscribe;
      if pending != {} {
        var symbols := Listed(pending);
        feedGateway.SubscribeSymbols(symbols);
      }
    }

    /** Sends every desired or pending bar key, one command per timeframe. The groups are the keys of
        the commands: together all of them, each key once, none empty. */
    method ReplayPendingBars() returns (ghost groups: seq<set<BarKey>>)
      requires Valid()
      modifies Feed()
      ensures Valid() && Quotes() == old(Quotes())
      ensures feedHandler != null ==> Dedup() == old(Dedup())
      ensures feedGateway == null ==> Bars() == old(Bars())
      ensures feedGateway != null ==>
                && Union(groups) == ReplaySet(pendingBars, old(Bars()).pending)
                && {} !in groups && Disjoint(groups)
                && Bars() == AllIssued(old(Bars()), groups)
    {
      groups := [];
      if feedGateway == null {
        return;
      }
      var pending := pendingBars + feedGateway.handler.subscriptionState.pendingBarSubscribe;
      WantedKeysAreUpper();
      var byTimeframe, timeframes := PlanReplay(pending);
      groups := KeyGroups(byTimeframe, timeframes);
      AllIssuedPending(Bars(), groups);
      SendGroups(feedGateway, byTimeframe, timeframes);
    }

    lemma WantedKeysAreUpper()
      requires Valid()
      ensures UpperKeys(pendingBars)
    {
      forall k | k in pendingBars ensures IsUpper(k.1) {
        WireTimeframeIsUpper(barTypes[k]);
      }
    }

    /** The loop over the timeframes. */
    static method SendGroups(gateway: InboundFeedGateway, byTimeframe: map<string, seq<string>>,
                             timeframes: seq<string>)
      requires forall tf | tf in timeframes :: tf in byTimeframe && IsUpper(tf)
      modifies gateway.Feed()
      ensures gateway.Quotes() == old(gateway.Quotes()) && gateway.handler.Passed() == old(gateway.handler.Passed())
      ensures gateway.Bars() == AllIssued(old(gateway.Bars()), KeyGroups(byTimeframe, timeframes))
    {
      ghost var start, groups := gateway.Bars(), KeyGroups(byTimeframe, timeframes);
      for i := 0 to |timeframes|
        invariant gateway.Quotes() == old(gateway.Quotes()) && gateway.handler.Passed() == old(gateway.handler.Passed())
        invariant gateway.Bars() == AllIssued(start, groups[..i])
      {
        assert groups[..i + 1] == groups[..i] + [groups[i]];
        SendGroup(gateway, byTimeframe[timeframes[i]], timeframes[i], start, groups[..i]);
      }
      assert groups[..|groups|] == groups;
    }

    /** One command of a replay that has sent `groups` since `start`. */
    static method SendGroup(gateway: InboundFeedGateway, symbols: seq<string>, timeframe: string,
                            ghost start: Side<BarKey>, ghost groups: seq<set<BarKey>>)
      requires IsUpper(timeframe) && gateway.Bars() == AllIssued(start, groups)
      modifies gateway.Feed()
      ensures gateway.Quotes() == old(gateway.Quotes()) && gateway.handler.Passed() == old(gateway.handler.Passed())
      ensures gateway.Bars() == AllIssued(start, groups + [SymbolKeys(symbols, timeframe)])
    {
      AllIssuedSnoc(start, groups, SymbolKeys(symbols, timeframe));
      gateway.SubscribeBarKeys(symbols, timeframe);
    }

    // ---------- the life of the gateway ----------

    ghost function HandlerAbs(): HandlerState
      requires feedHandler != null
      reads this, feedHandler, HandlerParts()
    {
      feedHandler.Abs()
    }

    /** A new gateway takes over the handler of the one before it, so its cursors, its last ticks and its
        pending sets go on; only the first start of all makes a new one. */
    method OpenFeedGateway()
      requires Valid() && feedGateway == null
      modifies `feedGateway, `feedHandler
      ensures Valid() && fresh(feedGateway) && feedGateway.serviceWs == null
      ensures old(feedHandler) != null ==> feedHandler == old(feedHandler) && Dedup() == old(Dedup())
      ensures old(feedHandler) == null ==> fresh(HandlerParts()) && HandlerAbs() == NO_STATE
      ensures Quotes() == Side(old(Quotes()).pending, [], false) && Bars() == Side(old(Bars()).pending, [], false)
    {
      var handler := feedHandler;
      if handler == null {
        handler := new InboundFeedHandler();
      }
      feedGateway := new InboundFeedGateway(handler);
      feedHandler := feedGateway.handler;
    }

    /** Stopping closes the connection and keeps the handler. */
    method CloseFeedGateway()
      requires Valid()
      modifies `feedGateway, `feedHandler, feedGateway, Socket()
      ensures Valid() && feedGateway == null && feedHandler == old(feedHandler)
      ensures feedHandler != null ==> Dedup() == old(Dedup())
      ensures Quotes() == Side(old(Quotes()).pending, [], false) && Bars() == Side(old(Bars()).pending, [], false)
      ensures old(feedGateway) != null ==> old(feedGateway).serviceWs == null
    {
      if feedGateway != null {
        feedHandler := feedGateway.handler;
        feedGateway.Stop();
        feedGateway := null;
      }
    }

    /** A restart keeps the handler, so nothing already delivered is delivered again. */
    method RestartFeedGateway()
      requires Valid()
      modifies `feedGateway, `feedHandler, feedGateway, Socket()
      ensures Valid() && fresh(feedGateway) && feedGateway.serviceWs == null
      ensures old(feedHandler) != null ==> feedHandler == old(feedHandler) && Dedup() == old(Dedup())
      ensures Quotes() == Side(old(Quotes()).pending, [], false) && Bars() == Side(old(Bars()).pending, [], false)
    {
      CloseFeedGateway();
      OpenFeedGateway();
    }

    // ---------- events ----------

    method HandleFeedTicks(symbol: string, ticks: seq<WireTick>, now: int)
      modifies `published
      ensures published == old(published) + Publishes(TickBatch(symbol, 0, ticks), cache, barTypes, now)
    {
      var id := InstrumentIdOf(symbol);
      if id !in cache {
        return;
      }
      for i := 0 to |ticks|
        invariant published == old(published) + QuotesOf(id, ticks[..i], now)
      {
        assert ticks[..i + 1][..i] == ticks[..i];
        match ToQuoteTick(id, ticks[i], now) {
          case None =>
          case Some(quote) => published := published + [Quote(quote)];
        }
      }
      assert ticks[..|ticks|] == ticks;
    }

    method HandleFeedBar(wire: WireBar, now: int)
      modifies `published
      ensures published == old(published) + Publishes(BarMessage(wire), cache, barTypes, now)
      ensures var key := (wire.symbol, Upper(wire.timeframe));
              if key in barTypes && barTypes[key].instrumentId in cache && wire.time > 0 && wire.close > 0.0
              then PublishesBar(published[|old(published)|..], barTypes[key], wire, now)
              else published == old(published)
    {
      var key := (wire.symbol, Upper(wire.timeframe));
      if key !in barTypes {
        return;
      }
      var barType := barTypes[key];
      if barType.instrumentId !in cache {
        return;
      }
      match ToBar(barType, wire, now) {
        case None =>
        case Some(bar) => published := published + [ClosedBar(bar)];
      }
    }

    /** A hello starts both replays; ticks and bars are published; the rest is only logged. */
    method HandleFeedEvent(event: Inbound, now: int) returns (ghost groups: seq<set<BarKey>>)
      requires Valid() && feedGateway != null
      modifies `published, if event.Hello? then Feed() else {}
      ensures Valid() && Dedup() == old(Dedup())
      ensures published == old(published) + Publishes(event, cache, barTypes, now)
      ensures event.Hello? ==>
                && Quotes() == Issued(old(Quotes()), SubOp(ReplaySet(pendingSymbols, old(Quotes()).pending)))
                && Union(groups) == ReplaySet(pendingBars, old(Bars()).pending)
                && {} !in groups && Disjoint(groups)
                && Bars() == AllIssued(old(Bars()), groups)
    {
      groups := [];
      match event {
        case Hello(_, _, _) =>
          ReplayPendingQuotes();
          groups := ReplayPendingBars();
        case TickBatch(symbol, _, ticks) => HandleFeedTicks(symbol, ticks, now);
        case BarMessage(bar) => HandleFeedBar(bar, now);
        case _ =>
      }
    }

    method Admit(message: Inbound) returns (event: Option<Inbound>)
      requires Valid() && feedGateway != null
      modifies feedGateway`lastHello, HandlerParts()
      ensures Valid() && (HandlerAbs(), event) == Handle(old(HandlerAbs()), message)
      ensures fresh(HandlerParts() - old(HandlerParts()))
    {
      event := feedGateway.HandleRaw(message);
    }

    /** One message from the service, through the handler and out. */
    method Receive(message: Inbound, now: int)
      requires Valid() && feedGateway != null
      modifies `published, feedGateway`lastHello, HandlerParts(), Feed()
      ensures Valid() && feedHandler == old(feedHandler) && fresh(HandlerParts() - old(HandlerParts()))
      ensures var (st, event) := Handle(old(HandlerAbs()), message);
              && Dedup() == (st.ticks, st.bars) && (!message.Hello? ==> HandlerAbs() == st)
              && published == old(published) +
                              if event.Some? then Publishes(event.value, cache, barTypes, now) else []
    {
      var event := Admit(message);
      HelloStaysHello(old(HandlerAbs()), message);
      Dispatch(event, now);
    }

    method Dispatch(event: Option<Inbound>, now: int)
      requires Valid() && feedGateway != null
      modifies `published, if event.Some? && event.value.Hello? then Feed() else {}
      ensures Valid() && Dedup() == old(Dedup()) && HandlerParts() == old(HandlerParts())
      ensures !(event.Some? && event.value.Hello?) ==> HandlerAbs() == old(HandlerAbs())
      ensures published == old(published) + if event.Some? then Publishes(event.value, cache, barTypes, now) else []
    {
      if event.Some? {
        ghost var groups := HandleFeedEvent(event.value, now);
      }
    }
  }

  // ---------- grouping ----------

  ghost predicate Disjoint<K>(groups: seq<set<K>>) {
    forall i, j | 0 <= i < j < |groups| :: groups[i] !! groups[j]
  }

  /** The commands of a replay, one after the other. */
  function AllIssued<K>(s: Side<K>, groups: seq<set<K>>): Side<K> {
    if groups == [] then s
    else Issued(AllIssued(s, groups[..|groups| - 1]), SubOp(groups[|groups| - 1]))
  }

  lemma AllIssuedSnoc<K>(s: Side<K>, groups: seq<set<K>>, group: set<K>)
    ensures AllIssued(s, groups + [group]) == Issued(AllIssued(s, groups), SubOp(group))
  {
    assert (groups + [group])[..|groups|] == groups;
  }

  /** A replay adds its keys to what is pending. */
  lemma {:induction false} AllIssuedPending<K>(s: Side<K>, groups: seq<set<K>>)
    ensures AllIssued(s, groups).pending.subscribe == s.pending.subscribe + Union(groups)
    decreases |groups|
  {
    if groups != [] {
      var n := |groups| - 1;
      AllIssuedPending(s, groups[..n]);
      assert groups == groups[..n] + [groups[n]];
      UnionSnoc(groups[..n], groups[n]);
    }
  }

  lemma {:induction false} UnionSnoc<K>(groups: seq<set<K>>, group: set<K>)
    ensures Union(groups + [group]) == Union(groups) + group
  {
    if groups == [] {
      assert [group][1..] == [];
    } else {
      assert (groups + [group])[1..] == groups[1..] + [group];
      UnionSnoc(groups[1..], group);
    }
  }

  lemma {:induction false} UnionBound<K>(groups: seq<set<K>>)
    ensures forall g | g in groups :: g <= Union(groups)
  {
    if groups != [] {
      UnionBound(groups[1..]);
      assert forall g | g in groups :: g == groups[0] || g in groups[1..];
    }
  }

  lemma DisjointSnoc<K>(groups: seq<set<K>>, group: set<K>)
    requires Disjoint(groups) && Union(groups) !! group
    ensures Disjoint(groups + [group])
  {
    UnionBound(groups);
    forall i | 0 <= i < |groups| ensures groups[i] !! group {
      assert groups[i] in groups;
    }
  }

  function KeysWithin(keys: set<BarKey>, timeframes: set<string>): set<BarKey> {
    set k | k in keys && k.1 in timeframes
  }

  /** `index` lists, under each timeframe, the symbols of the keys with that timeframe, each once. */
  ghost predicate Groups(keys: set<BarKey>, index: map<string, seq<string>>) {
    && (forall k | k in keys :: k.1 in index && k.0 in index[k.1])
    && (forall tf, s | tf in index && s in index[tf] :: (s, tf) in keys)
    && (forall tf | tf in index :: index[tf] != [])
    && forall tf, i, j | tf in index && 0 <= i < j < |index[tf]| :: index[tf][i] != index[tf][j]
  }

  method GroupByTimeframe(pending: set<BarKey>) returns (index: map<string, seq<string>>)
    ensures Groups(pending, index)
  {
    var keys := Listed(pending);
    index := map[];
    for i := 0 to |keys|
      invariant Groups(Elements(keys[..i]), index)
    {
      var (symbol, timeframe) := keys[i];
      assert Elements(keys[..i + 1]) == Elements(keys[..i]) + {keys[i]};
      NoRepeat(keys, i);
      var listed := if timeframe in index then index[timeframe] else [];
      index := index[timeframe := listed + [symbol]];
    }
    assert keys[..|keys|] == keys;
  }

  /** The commands of a replay of `pending`: the symbols of each timeframe, and the timeframes in order. */
  method PlanReplay(pending: set<BarKey>) returns (byTimeframe: map<string, seq<string>>, timeframes: seq<string>)
    requires UpperKeys(pending)
    ensures forall tf | tf in timeframes :: tf in byTimeframe && IsUpper(tf)
    ensures var groups := KeyGroups(byTimeframe, timeframes);
            Union(groups) == pending && {} !in groups && Disjoint(groups)
  {
    byTimeframe := GroupByTimeframe(pending);
    timeframes := Listed(byTimeframe.Keys);
    TimeframesAreUpper(pending, byTimeframe);
    KeyGroupsCover(byTimeframe, timeframes, pending);
    assert KeysWithin(pending, byTimeframe.Keys) == pending;
  }

  lemma GroupIsSlice(pending: set<BarKey>, index: map<string, seq<string>>, timeframe: string)
    requires Groups(pending, index) && timeframe in index && UpperKeys(pending)
    ensures SymbolKeys(index[timeframe], timeframe) == KeysWithin(pending, {timeframe})
    ensures IsUpper(timeframe)
  {
    assert index[timeframe][0] in index[timeframe];
    assert (index[timeframe][0], timeframe) in pending;
  }

  /** `groups` are non-empty, disjoint, and make up the keys with the timeframes `done`. */
  ghost predicate Covering(groups: seq<set<BarKey>>, pending: set<BarKey>, done: set<string>) {
    Union(groups) == KeysWithin(pending, done) && {} !in groups && Disjoint(groups)
  }

  /** The keys of each timeframe's command, in the order of `timeframes`. */
  function KeyGroups(index: map<string, seq<string>>, timeframes: seq<string>): seq<set<BarKey>>
    requires forall tf | tf in timeframes :: tf in index
  {
    seq(|timeframes|, i requires 0 <= i < |timeframes| => SymbolKeys(index[timeframes[i]], timeframes[i]))
  }

  lemma CoveringStep(groups: seq<set<BarKey>>, pending: set<BarKey>, index: map<string, seq<string>>,
                     done: set<string>, timeframe: string)
    requires Groups(pending, index) && UpperKeys(pending) && timeframe in index
    requires timeframe !in done && Covering(groups, pending, done)
    ensures Covering(groups + [SymbolKeys(index[timeframe], timeframe)], pending, done + {timeframe})
  {
    var group := SymbolKeys(index[timeframe], timeframe);
    GroupIsSlice(pending, index, timeframe);
    NamesSome(index[timeframe], timeframe);
    UnionSnoc(groups, group);
    DisjointSnoc(groups, group);
  }

  /** The commands of a replay name every key with their timeframes, each exactly once. */
  lemma {:induction false} KeyGroupsCover(index: map<string, seq<string>>, timeframes: seq<string>,
                                          pending: set<BarKey>)
    requires Groups(pending, index) && UpperKeys(pending)
    requires |Elements(timeframes)| == |timeframes| && forall tf | tf in timeframes :: tf in index
    ensures Covering(KeyGroups(index, timeframes), pending, Elements(timeframes))
    decreases |timeframes|
  {
    if timeframes != [] {
      var n := |timeframes| - 1;
      var front, last := timeframes[..n], timeframes[n];
      assert timeframes == front + [last];
      NoRepeat(timeframes, n);
      assert Elements(timeframes) == Elements(front) + {last};
      assert KeyGroups(index, timeframes) == KeyGroups(index, front) + [SymbolKeys(index[last], last)];
      KeyGroupsCover(index, front, pending);
      CoveringStep(KeyGroups(index, front), pending, index, Elements(front), last);
    }
  }

  lemma TimeframesAreUpper(pending: set<BarKey>, index: map<string, seq<string>>)
    requires Groups(pending, index) && UpperKeys(pending)
    ensures forall tf | tf in index :: IsUpper(tf)
  {
    forall tf | tf in index ensures IsUpper(tf) {
      GroupIsSlice(pending, index, tf);
    }
  }

  lemma WireTimeframeIsUpper(b: BarType)
    ensures WireTimeframe(b).Some? ==> IsUpper(WireTimeframe(b).value)
  {
  }

  lemma OneKey(symbol: string, timeframe: string)
    requires IsUpper(timeframe)
    ensures NamedKeys([symbol], timeframe) == {(symbol, timeframe)}
  {
  }

  lemma NoRepeat<T>(s: seq<T>, i: nat)
    requires i < |s| && |Elements(s)| == |s|
    ensures s[i] !in s[..i]
  {
    if s[i] in s[..i] {
      assert Elements(s) == Elements(s[..i] + s[i + 1..]);
      ElementsBound(s[..i] + s[i + 1..]);
    }
  }

  lemma {:induction false} ElementsBound<T>(s: seq<T>)
    ensures |Elements(s)| <= |s|
  {
    if s != [] {
      assert Elements(s) == {s[0]} + Elements(s[1..]);
      ElementsBound(s[1..]);
    }
  }
}
