/** From the wire to the strategy: over any run of user commands, service messages and gateway restarts,
    which bars are published and under which bar type, and which quotes. */
module FeedRouting {
  import opened Prelude
  import opened Wire
  import opened FeedHandler
  import opened ExactlyOnce
  import opened BarDedup
  import opened FeedClient

  datatype ClientEvent =
    | Want(barType: BarType)
    | Unwant(barType: BarType)
    | WantQuotes(instrumentId: string)
    | UnwantQuotes(instrumentId: string)
    | Connect
    | Arrive(message: Inbound, now: int)
    | Restart

  datatype Router = Router(handler: HandlerState, barTypes: map<BarKey, BarType>)

  /** One event at the data client. Quote subscriptions and connections do not matter to what is published;
      nor does a restart, which keeps the handler. */
  function Route(cache: map<string, string>, r: Router, e: ClientEvent): (Router, seq<Published>) {
    match e
    case Want(bt) =>
      var key := FeedKey(cache, bt);
      (if key.Some? then r.(barTypes := r.barTypes[key.value := bt]) else r, [])
    case Unwant(bt) =>
      var key := FeedKey(cache, bt);
      (if key.Some? then r.(barTypes := r.barTypes - {key.value}) else r, [])
    case Arrive(m, now) =>
      var (st, out) := Handle(r.handler, m);
      (r.(handler := st), if out.Some? then Publishes(out.value, cache, r.barTypes, now) else [])
    case _ => (r, [])
  }

  function RouteAll(cache: map<string, string>, es: seq<ClientEvent>): (Router, seq<Published>) {
    if es == [] then (Router(NO_STATE, map[]), [])
    else
      var n := |es| - 1;
      var (r, before) := RouteAll(cache, es[..n]);
      var (r', out) := Route(cache, r, es[n]);
      (r', before + out)
  }

  // ---------- the rule ----------

  function Messages(es: seq<ClientEvent>): seq<Inbound> {
    if es == [] then []
    else
      var n := |es| - 1;
      Messages(es[..n]) + if es[n].Arrive? then [es[n].message] else []
  }

  predicate Commands(e: ClientEvent) {
    e.Want? || e.Unwant?
  }

  /** Event `i` is the latest command about `key`. */
  ghost predicate LatestAbout(cache: map<string, string>, es: seq<ClientEvent>, key: BarKey, i: int) {
    && 0 <= i < |es| && Commands(es[i]) && FeedKey(cache, es[i].barType) == Some(key)
    && forall j | i < j < |es| && Commands(es[j]) :: FeedKey(cache, es[j].barType) != Some(key)
  }

  /** The latest command about `key` asks for it, as `bt`. */
  ghost predicate WantedAs(cache: map<string, string>, es: seq<ClientEvent>, key: BarKey, bt: BarType) {
    exists i :: LatestAbout(cache, es, key, i) && es[i] == Want(bt)
  }

  /** The bar is valid and later than every valid bar of its key among the messages before it. */
  ghost predicate News(es: seq<ClientEvent>, bar: WireBar) {
    ShouldEmit(Messages(es) + [BarMessage(bar)], |Messages(es)|)
  }

  // ---------- the theorem ----------

  lemma WantedStep(cache: map<string, string>, es: seq<ClientEvent>, e: ClientEvent, key: BarKey, bt: BarType)
    ensures WantedAs(cache, es + [e], key, bt) <==>
            if Commands(e) && FeedKey(cache, e.barType) == Some(key) then e == Want(bt)
            else WantedAs(cache, es, key, bt)
  {
    var all, n := es + [e], |es|;
    assert all[n] == e;
    if Commands(e) && FeedKey(cache, e.barType) == Some(key) {
      assert LatestAbout(cache, all, key, n);
      assert forall i :: LatestAbout(cache, all, key, i) ==> i == n;
    } else {
      assert forall i :: LatestAbout(cache, es, key, i) ==> LatestAbout(cache, all, key, i) && all[i] == es[i];
      assert forall i :: LatestAbout(cache, all, key, i) ==> LatestAbout(cache, es, key, i) && all[i] == es[i];
    }
  }

  /** What the client holds: the handler's state after the messages so far, and for each key the bar
      type of the latest command about it, if that command asks for the key. */
  lemma {:induction false} HandlerTracks(cache: map<string, string>, es: seq<ClientEvent>)
    ensures RouteAll(cache, es).0.handler == HandleAll(NO_STATE, Messages(es)).0
  {
    if es != [] {
      var n := |es| - 1;
      HandlerTracks(cache, es[..n]);
      if es[n].Arrive? {
        var st := HandleAll(NO_STATE, Messages(es[..n])).0;
        HandleAllConcat(NO_STATE, Messages(es[..n]), [es[n].message]);
        assert HandleAll(st, [es[n].message]).0 == Handle(st, es[n].message).0;
      } else {
        assert Messages(es) == Messages(es[..n]);
      }
    }
  }

  lemma {:induction false} BarTypesTrack(cache: map<string, string>, es: seq<ClientEvent>, key: BarKey, bt: BarType)
    ensures var held := RouteAll(cache, es).0.barTypes;
            && (WantedAs(cache, es, key, bt) <==> key in held && held[key] == bt)
            && (key in held ==> FeedKey(cache, held[key]) == Some(key))
  {
    if es != [] {
      var n := |es| - 1;
      var front, e := es[..n], es[n];
      assert es == front + [e];
      BarTypesTrack(cache, front, key, bt);
      WantedStep(cache, front, e, key, bt);
    }
  }

  lemma HandleOneBar(es: seq<ClientEvent>, bar: WireBar)
    ensures var (_, out) := Handle(HandleAll(NO_STATE, Messages(es)).0, BarMessage(bar));
            out == if News(es, bar) then Some(BarMessage(bar)) else None
    ensures News(es, bar) ==> ValidBar(bar)
  {
    var st := HandleAll(NO_STATE, Messages(es)).0;
    EmitsAsItShould(Messages(es), BarMessage(bar));
    HandleEmitsBar(st, BarMessage(bar));
  }

  /** Bar routing, end to end: after any run of commands and messages, an arriving bar is published
      exactly when it is news and the latest command about its key asks for it; then it is published
      once, under the bar type last asked for. */
  lemma BarRouting(cache: map<string, string>, es: seq<ClientEvent>, bar: WireBar, now: int)
    ensures var out := Route(cache, RouteAll(cache, es).0, Arrive(BarMessage(bar), now)).1;
            && (forall bt | WantedAs(cache, es, KeyOfBar(bar), bt) && News(es, bar) :: PublishesBar(out, bt, bar, now))
            && (!News(es, bar) || !(exists bt :: WantedAs(cache, es, KeyOfBar(bar), bt)) ==> out == [])
  {
    var r, key := RouteAll(cache, es).0, KeyOfBar(bar);
    HandlerTracks(cache, es);
    HandleOneBar(es, bar);
    forall bt
      ensures WantedAs(cache, es, key, bt) <==> key in r.barTypes && r.barTypes[key] == bt
      ensures key in r.barTypes ==> FeedKey(cache, r.barTypes[key]) == Some(key)
    {
      BarTypesTrack(cache, es, key, bt);
    }
    if key in r.barTypes {
      assert WantedAs(cache, es, key, r.barTypes[key]);
    }
  }

  // ---------- quotes ----------

  /** What identifies a quote: its prices and the time of the tick. */
  function Views(ticks: seq<WireTick>): seq<(real, real, int)> {
    seq(|ticks|, i requires 0 <= i < |ticks| => (ticks[i].bid, ticks[i].ask, ticks[i].timeMsc * 1_000_000))
  }

  function QuotesFor(out: seq<Published>, id: string): seq<(real, real, int)> {
    if out == [] then []
    else
      var p := out[|out| - 1];
      QuotesFor(out[..|out| - 1], id) +
      if p.Quote? && p.tick.instrument == id then [(p.tick.bid, p.tick.ask, p.tick.tsEvent)] else []
  }

  lemma {:induction false} QuotesForConcat(a: seq<Published>, b: seq<Published>, id: string)
    ensures QuotesFor(a + b, id) == QuotesFor(a, id) + QuotesFor(b, id)
    decreases |b|
  {
    if b == [] {
      assert a + b == a;
    } else {
      var n := |b| - 1;
      assert (a + b)[..|a + b| - 1] == a + b[..n];
      QuotesForConcat(a, b[..n], id);
    }
  }

  lemma ViewsSnoc(ticks: seq<WireTick>, t: WireTick)
    ensures Views(ticks + [t]) == Views(ticks) + [(t.bid, t.ask, t.timeMsc * 1_000_000)]
  {
  }

  lemma QuoteSnoc(out: seq<Published>, tick: QuoteTick, id: string)
    ensures QuotesFor(out + [Quote(tick)], id) ==
            if tick.instrument == id then QuotesFor(out, id) + [(tick.bid, tick.ask, tick.tsEvent)]
            else QuotesFor(out, id)
  {
    assert (out + [Quote(tick)])[..|out|] == out;
    assert QuotesFor(out, id) + [] == QuotesFor(out, id);
  }

  lemma QuotesOfSnoc(instrument: string, ticks: seq<WireTick>, t: WireTick, now: int)
    requires Priced(t)
    ensures QuotesOf(instrument, ticks + [t], now) ==
            QuotesOf(instrument, ticks, now) + [Quote(ToQuoteTick(instrument, t, now).value)]
  {
    assert (ticks + [t])[..|ticks|] == ticks;
  }

  lemma {:induction false} QuotesOfViews(instrument: string, ticks: seq<WireTick>, now: int, id: string)
    requires forall t | t in ticks :: Priced(t)
    ensures QuotesFor(QuotesOf(instrument, ticks, now), id) == if instrument == id then Views(ticks) else []
    decreases |ticks|
  {
    if ticks != [] {
      var front, t := ticks[..|ticks| - 1], ticks[|ticks| - 1];
      assert ticks == front + [t] && Priced(t);
      QuotesOfViews(instrument, front, now, id);
      QuotesOfSnoc(instrument, front, t, now);
      QuoteSnoc(QuotesOf(instrument, front, now), ToQuoteTick(instrument, t, now).value, id);
      ViewsSnoc(front, t);
    }
  }

  lemma {:induction false} QuotesOfShow(instrument: string, ticks: seq<WireTick>, now: int)
    requires forall t | t in ticks :: t.bid > 0.0 && t.ask > 0.0
    ensures var out := QuotesOf(instrument, ticks, now);
            |out| == |ticks|
            && forall i | 0 <= i < |ticks| :: out[i].Quote? && ShowsTick(out[i].tick, instrument, ticks[i], now)
  {
    if ticks != [] {
      QuotesOfShow(instrument, ticks[..|ticks| - 1], now);
    }
  }

  lemma InstrumentIdSpelled(symbol: string)
    ensures InstrumentIdOf(symbol) == symbol + ".METATRADER_5"
  {
    assert "." + VENUE == ".METATRADER_5";
    assert symbol + "." + VENUE == symbol + ("." + VENUE);
  }

  /** What is published for one batch the handler let through. */
  ghost predicate QuotesEach(out: seq<Published>, cache: map<string, string>, batch: Inbound, now: int)
    requires batch.TickBatch?
  {
    var id := batch.symbol + ".METATRADER_5";
    if id !in cache then out == []
    else
      && |out| == |batch.ticks|
      && forall i | 0 <= i < |out| :: out[i].Quote? && ShowsTick(out[i].tick, id, batch.ticks[i], now)
  }

  lemma BatchPublishes(cache: map<string, string>, barTypes: map<BarKey, BarType>, batch: Inbound, now: int)
    requires batch.TickBatch? && forall t | t in batch.ticks :: t.bid > 0.0 && t.ask > 0.0
    ensures QuotesEach(Publishes(batch, cache, barTypes, now), cache, batch, now)
  {
    InstrumentIdSpelled(batch.symbol);
    QuotesOfShow(batch.symbol + ".METATRADER_5", batch.ticks, now);
  }

  /** Each tick an arriving message lets through is published as a quote of its own symbol's
      instrument, with its own prices and time, in order. */
  lemma QuotesShown(cache: map<string, string>, r: Router, m: Inbound, now: int)
    ensures var e, out := Handle(r.handler, m).1, Route(cache, r, Arrive(m, now)).1;
            e.Some? && e.value.TickBatch? ==> QuotesEach(out, cache, e.value, now)
  {
    var e := Handle(r.handler, m).1;
    if e.Some? && e.value.TickBatch? {
      assert forall t | t in e.value.ticks :: Priced(t);
      BatchPublishes(cache, r.barTypes, e.value, now);
    }
  }

  lemma InstrumentIdsDiffer(a: string, b: string)
    ensures InstrumentIdOf(a) == InstrumentIdOf(b) <==> a == b
  {
    var tail := "." + VENUE;
    assert InstrumentIdOf(a) == a + tail && InstrumentIdOf(b) == b + tail;
    if a + tail == b + tail {
      assert (a + tail)[..|a|] == a && (b + tail)[..|b|] == b;
    }
  }

  lemma {:induction false} EmittedConcat(a: seq<Inbound>, b: seq<Inbound>)
    ensures EmittedTicks(a + b) == EmittedTicks(a) + EmittedTicks(b)
  {
    if a == [] {
      assert a + b == b;
    } else {
      assert (a + b)[1..] == a[1..] + b;
      EmittedConcat(a[1..], b);
    }
  }

  function OnTicks(symbol: string): Inbound -> bool {
    (m: Inbound) => ChannelOf(m) == TickChannel(symbol)
  }

  /** The ticks of one symbol the handler has let through. */
  function TicksOut(es: seq<ClientEvent>, symbol: string): seq<WireTick> {
    EmittedTicks(Filter(OnTicks(symbol), HandleAll(NO_STATE, Messages(es)).1))
  }

  lemma TicksOutStep(es: seq<ClientEvent>, m: Inbound, now: int, symbol: string)
    ensures var e := Handle(HandleAll(NO_STATE, Messages(es)).0, m).1;
            TicksOut(es + [Arrive(m, now)], symbol) ==
            if e.Some? && ChannelOf(e.value) == TickChannel(symbol) then TicksOut(es, symbol) + TicksOf(e.value)
            else TicksOut(es, symbol)
  {
    var (st, before) := HandleAll(NO_STATE, Messages(es));
    var e := Handle(st, m).1;
    assert (es + [Arrive(m, now)])[..|es|] == es;
    HandleAllConcat(NO_STATE, Messages(es), [m]);
    assert HandleAll(st, [m]).1 == OptionSeq(e);
    FilterConcat(OnTicks(symbol), before, OptionSeq(e));
    EmittedConcat(Filter(OnTicks(symbol), before), Filter(OnTicks(symbol), OptionSeq(e)));
    if e.Some? && ChannelOf(e.value) == TickChannel(symbol) {
      assert Filter(OnTicks(symbol), [e.value]) == [e.value];
      assert EmittedTicks([e.value]) == TicksOf(e.value);
    }
  }

  /** What an emitted event publishes for one symbol: its ticks, all of them. */
  lemma PublishesTicks(cache: map<string, string>, r: Router, m: Inbound, now: int, symbol: string)
    requires InstrumentIdOf(symbol) in cache
    ensures var e := Handle(r.handler, m).1;
            e.Some? ==>
              QuotesFor(Publishes(e.value, cache, r.barTypes, now), InstrumentIdOf(symbol)) ==
              if ChannelOf(e.value) == TickChannel(symbol) then Views(TicksOf(e.value)) else []
  {
    var e := Handle(r.handler, m).1;
    if e.Some? && e.value.TickBatch? {
      assert forall t | t in e.value.ticks :: Priced(t);
      QuotesOfViews(InstrumentIdOf(e.value.symbol), e.value.ticks, now, InstrumentIdOf(symbol));
      InstrumentIdsDiffer(e.value.symbol, symbol);
    } else if e.Some? && e.value.BarMessage? {
      var id := InstrumentIdOf(symbol);
      assert forall b: Published | b.ClosedBar? :: QuotesFor([b], id) == QuotesFor([b][..0], id);
    }
  }

  /** Every tick the handler lets through is published as a quote, in order, and nothing else is. */
  lemma {:induction false} QuoteRouting(cache: map<string, string>, es: seq<ClientEvent>, symbol: string)
    requires InstrumentIdOf(symbol) in cache
    ensures QuotesFor(RouteAll(cache, es).1, InstrumentIdOf(symbol)) == Views(TicksOut(es, symbol))
  {
    if es != [] {
      var n := |es| - 1;
      var front, e := es[..n], es[n];
      assert es == front + [e];
      QuoteRouting(cache, front, symbol);
      QuoteStep(cache, front, e, symbol);
    }
  }

  lemma QuoteStep(cache: map<string, string>, es: seq<ClientEvent>, e: ClientEvent, symbol: string)
    requires InstrumentIdOf(symbol) in cache
    requires QuotesFor(RouteAll(cache, es).1, InstrumentIdOf(symbol)) == Views(TicksOut(es, symbol))
    ensures QuotesFor(RouteAll(cache, es + [e]).1, InstrumentIdOf(symbol)) == Views(TicksOut(es + [e], symbol))
  {
    var (r, before) := RouteAll(cache, es);
    RouteSnoc(cache, es, e);
    if e.Arrive? {
      HandlerTracks(cache, es);
      TicksOutStep(es, e.message, e.now, symbol);
      PublishesTicks(cache, r, e.message, e.now, symbol);
      QuotesForConcat(before, Route(cache, r, e).1, InstrumentIdOf(symbol));
      var emitted := Handle(r.handler, e.message).1;
      if emitted.Some? {
        ViewsConcat(TicksOut(es, symbol), TicksOf(emitted.value));
      }
    } else {
      assert Messages(es + [e]) == Messages(es);
      assert before + [] == before;
    }
  }

  lemma ViewsConcat(a: seq<WireTick>, b: seq<WireTick>)
    ensures Views(a + b) == Views(a) + Views(b)
  {
  }

  lemma RouteSnoc(cache: map<string, string>, es: seq<ClientEvent>, e: ClientEvent)
    ensures var (r, out) := RouteAll(cache, es);
            RouteAll(cache, es + [e]) == (Route(cache, r, e).0, out + Route(cache, r, e).1)
    ensures Messages(es + [e]) == Messages(es) + if e.Arrive? then [e.message] else []
  {
    assert (es + [e])[..|es|] == es;
  }

  /** Exactly once, end to end: when a symbol's batches are slices of the source's log with no gap, its
      quotes are the log's priced ticks up to the furthest slice, each once and in order, whatever else
      happens in between, restarts of the gateway included. */
  lemma QuotesExactlyOnce(cache: map<string, string>, es: seq<ClientEvent>, symbol: string, log: Log,
                          slices: seq<Slice>)
    requires InstrumentIdOf(symbol) in cache
    requires SourceLog(log) && DistinctPricedTimes(log) && AllWithin(log, slices) && Gapless(0, slices)
    requires Filter(OnTicks(symbol), Messages(es)) == Batches(symbol, log, slices)
    ensures Furthest(0, slices) <= |log|
    ensures QuotesFor(RouteAll(cache, es).1, InstrumentIdOf(symbol)) == Views(PricedTicks(log[..Furthest(0, slices)]))
  {
    var on := (m: Inbound) => ChannelOf(m) == TickChannel(symbol);
    QuoteRouting(cache, es, symbol);
    FilterAgree(OnTicks(symbol), on, Messages(es));
    FilterAgree(OnTicks(symbol), on, HandleAll(NO_STATE, Messages(es)).1);
    ExactlyOnceInterleaved(Messages(es), NO_STATE, symbol, log, slices);
  }

  // ---------- the client does all this ----------

  /** What the handler emits, and what it has let through, does not depend on its subscription sets. */
  lemma HandlePasses(s: HandlerState, t: HandlerState, m: Inbound)
    requires s.ticks == t.ticks && s.bars == t.bars
    ensures Handle(s, m).1 == Handle(t, m).1
    ensures Handle(s, m).0.ticks == Handle(t, m).0.ticks && Handle(s, m).0.bars == Handle(t, m).0.bars
  {
  }

  /** The client holds what the specification holds and has published `out`. */
  ghost predicate Simulates(client: FeedDataClient, r: Router, out: seq<Published>)
    reads client, client.feedGateway, client.feedHandler, client.Feed(), client.HandlerParts()
  {
    && client.Valid() && client.feedGateway != null
    && client.Dedup() == (r.handler.ticks, r.handler.bars)
    && client.barTypes == r.barTypes && client.published == out
  }

  /** All the objects behind the client. */
  ghost function Footprint(client: FeedDataClient): set<object>
    reads client, client.feedGateway, client.feedHandler
  {
    {client} + (if client.feedGateway == null then {} else {client.feedGateway}) + client.Feed() + client.HandlerParts()
  }

  /** One event, by the client's own methods. */
  method Perform(client: FeedDataClient, e: ClientEvent, ghost r: Router)
    requires Simulates(client, r, client.published)
    modifies Footprint(client)
    ensures fresh(Footprint(client) - old(Footprint(client)))
    ensures var (next, out) := Route(client.cache, r, e);
            Simulates(client, next, old(client.published) + out)
  {
    match e {
      case Arrive(message, now) => PerformArrive(client, message, now, r);
      case Connect => PerformConnect(client, r);
      case Restart => PerformRestart(client, r);
      case WantQuotes(instrumentId) => PerformQuotes(client, instrumentId, true, r);
      case UnwantQuotes(instrumentId) => PerformQuotes(client, instrumentId, false, r);
      case _ => PerformCommand(client, e, r);
    }
  }

  method PerformCommand(client: FeedDataClient, e: ClientEvent, ghost r: Router)
    requires Simulates(client, r, client.published) && Commands(e)
    modifies client`pendingBars, client`barTypes, client.Feed()
    ensures Footprint(client) == old(Footprint(client))
    ensures Simulates(client, Route(client.cache, r, e).0, old(client.published))
  {
    match e {
      case Want(barType) => client.SubscribeBarType(barType);
      case Unwant(barType) => client.UnsubscribeBarType(barType);
    }
  }

  method PerformQuotes(client: FeedDataClient, instrumentId: string, want: bool, ghost r: Router)
    requires Simulates(client, r, client.published)
    modifies client`pendingSymbols, client.Feed()
    ensures Footprint(client) == old(Footprint(client))
    ensures Simulates(client, r, old(client.published))
  {
    if want {
      client.SubscribeQuoteTicks(instrumentId);
    } else {
      client.UnsubscribeQuoteTicks(instrumentId);
    }
  }

  method PerformConnect(client: FeedDataClient, ghost r: Router)
    requires Simulates(client, r, client.published)
    modifies client.feedGateway, client.Feed()
    ensures fresh(Footprint(client) - old(Footprint(client)))
    ensures Simulates(client, r, old(client.published))
  {
    var ws := new Connection();
    client.feedGateway.Accept(ws);
  }

  method PerformArrive(client: FeedDataClient, message: Inbound, now: int, ghost r: Router)
    requires Simulates(client, r, client.published)
    modifies client`published, client.feedGateway`lastHello, client.HandlerParts(), client.Feed()
    ensures fresh(Footprint(client) - old(Footprint(client)))
    ensures var (next, out) := Route(client.cache, r, Arrive(message, now));
            Simulates(client, next, old(client.published) + out)
  {
    ReceiveAs(client, message, now, r.handler);
  }

  /** A message at a client that has let through what `h` has. */
  method ReceiveAs(client: FeedDataClient, message: Inbound, now: int, ghost h: HandlerState)
    requires client.Valid() && client.feedGateway != null && client.Dedup() == (h.ticks, h.bars)
    modifies client`published, client.feedGateway`lastHello, client.HandlerParts(), client.Feed()
    ensures client.Valid() && fresh(Footprint(client) - old(Footprint(client)))
    ensures var (st, event) := Handle(h, message);
            && client.Dedup() == (st.ticks, st.bars)
            && client.published ==
               old(client.published) +
               if event.Some? then Publishes(event.value, client.cache, client.barTypes, now) else []
  {
    HandlePasses(client.HandlerAbs(), h, message);
    client.Receive(message, now);
    assert client.Feed() == old(client.Feed());
  }

  method PerformRestart(client: FeedDataClient, ghost r: Router)
    requires Simulates(client, r, client.published)
    modifies client`feedGateway, client`feedHandler, client.feedGateway, client.Feed()
    ensures fresh(Footprint(client) - old(Footprint(client)))
    ensures Simulates(client, r, old(client.published))
  {
    client.RestartFeedGateway();
  }

  /** A data client with the events it has been through. Its invariant says that what it holds, and all it has
      published, is what the specification says of those events; so the results above are about it. */
  class Session {
    const client: FeedDataClient
    ghost var history: seq<ClientEvent>
    ghost var repr: set<object>

    ghost predicate Valid()
      reads this, repr
    {
      && client in repr && this !in repr
      && (client.feedGateway != null ==> client.feedGateway in repr)
      && (client.feedHandler != null ==> client.feedHandler in repr)
      && Footprint(client) <= repr
      && Simulates(client, RouteAll(client.cache, history).0, RouteAll(client.cache, history).1)
    }

    /** From a client that has just been started. */
    constructor (client: FeedDataClient)
      requires Simulates(client, Router(NO_STATE, map[]), [])
      ensures Valid() && history == [] && this.client == client && repr == Footprint(client)
    {
      this.client, history, repr := client, [], Footprint(client);
    }

    method Put(e: ClientEvent)
      requires Valid()
      modifies this, repr
      ensures Valid() && fresh(repr - old(repr)) && history == old(history) + [e]
      ensures client.published == RouteAll(client.cache, history).1
    {
      ghost var r := RouteAll(client.cache, history).0;
      RouteSnoc(client.cache, history, e);
      Perform(client, e, r);
      history := history + [e];
      repr := repr + Footprint(client);
    }
  }

  method Start(cache: map<string, string>) returns (client: FeedDataClient)
    ensures fresh(Footprint(client)) && client.cache == cache
    ensures Simulates(client, Router(NO_STATE, map[]), [])
  {
    client := new FeedDataClient(cache);
    client.OpenFeedGateway();
  }
}
