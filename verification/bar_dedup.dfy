/** Closed-bar deduplication against a stateless rule, and the conversion of what the handler emits. */
module BarDedup {
  import opened Prelude
  import opened Wire
  import opened SubscriptionTracking
  import opened FeedHandler

  const NO_STATE := HandlerState(map[], map[], SubsView(Pending({}, {}), Pending({}, {}), {}, {}, None))

  /** Message `j` is a valid bar of `key`. */
  predicate ValidBarAt(ms: seq<Inbound>, key: BarKey, j: int) {
    && 0 <= j < |ms| && ms[j].BarMessage? && KeyOfBar(ms[j].bar) == key
    && ms[j].bar.time > 0 && ms[j].bar.close > 0.0
  }

  /** The rule: a bar goes out when it is valid and later than every valid bar of its key before it. */
  ghost predicate ShouldEmit(ms: seq<Inbound>, i: int) {
    && 0 <= i < |ms| && ms[i].BarMessage?
    && var key := KeyOfBar(ms[i].bar);
       && ValidBarAt(ms, key, i)
       && forall j | 0 <= j < i && ValidBarAt(ms, key, j) :: ms[j].bar.time < ms[i].bar.time
  }

  ghost function ShouldEmitAll(ms: seq<Inbound>): seq<Inbound> {
    if ms == [] then []
    else
      var n := |ms| - 1;
      ShouldEmitAll(ms[..n]) + if ShouldEmit(ms, n) then [ms[n]] else []
  }

  function BarsIn(events: seq<Inbound>): seq<Inbound> {
    Filter((m: Inbound) => m.BarMessage?, events)
  }

  /** `t` is the time of the latest valid bar of `key`, or 0 when there has been none. */
  ghost predicate LatestTime(ms: seq<Inbound>, key: BarKey, t: int) {
    && t >= 0
    && (forall j | ValidBarAt(ms, key, j) :: ms[j].bar.time <= t)
    && (t > 0 ==> exists j :: ValidBarAt(ms, key, j) && ms[j].bar.time == t)
  }

  lemma LatestTimeStep(ms: seq<Inbound>, m: Inbound, st: HandlerState, key: BarKey)
    requires LatestTime(ms, key, LastClosed(st.bars, key))
    ensures LatestTime(ms + [m], key, LastClosed(Handle(st, m).0.bars, key))
  {
    var all, n, t := ms + [m], |ms|, LastClosed(st.bars, key);
    var t' := LastClosed(Handle(st, m).0.bars, key);
    assert all[n] == m;
    assert forall j | 0 <= j < n :: all[j] == ms[j];
    assert forall j | 0 <= j < n && ValidBarAt(all, key, j) :: ValidBarAt(ms, key, j);
    if t' != t {
      assert ValidBarAt(all, key, n);
    } else if t > 0 {
      var j :| ValidBarAt(ms, key, j) && ms[j].bar.time == t;
      assert ValidBarAt(all, key, j);
    }
  }

  lemma {:induction false} LastClosedIsLatest(ms: seq<Inbound>, key: BarKey)
    ensures LatestTime(ms, key, LastClosed(HandleAll(NO_STATE, ms).0.bars, key))
  {
    if ms != [] {
      var front, m := ms[..|ms| - 1], ms[|ms| - 1];
      assert ms == front + [m];
      LastClosedIsLatest(front, key);
      HandleAllConcat(NO_STATE, front, [m]);
      LatestTimeStep(front, m, HandleAll(NO_STATE, front).0, key);
    }
  }

  lemma ShouldEmitNext(front: seq<Inbound>, m: Inbound, t: int)
    requires m.BarMessage? && LatestTime(front, KeyOfBar(m.bar), t)
    ensures ShouldEmit(front + [m], |front|) <==> ValidBar(m.bar) && t < m.bar.time
  {
    var key, all, n := KeyOfBar(m.bar), front + [m], |front|;
    assert all[n] == m;
    assert forall j | 0 <= j < n :: all[j] == front[j];
    assert forall j | 0 <= j < n :: ValidBarAt(all, key, j) <==> ValidBarAt(front, key, j);
    if t > 0 {
      var j :| ValidBarAt(front, key, j) && front[j].bar.time == t;
      assert ValidBarAt(all, key, j);
    }
  }

  lemma HandleEmitsBar(st: HandlerState, m: Inbound)
    ensures BarsIn(OptionSeq(Handle(st, m).1)) ==
            if m.BarMessage? && ValidBar(m.bar) && LastClosed(st.bars, KeyOfBar(m.bar)) < m.bar.time then [m] else []
  {
  }

  lemma EmitsAsItShould(front: seq<Inbound>, m: Inbound)
    ensures BarsIn(OptionSeq(Handle(HandleAll(NO_STATE, front).0, m).1)) ==
            if ShouldEmit(front + [m], |front|) then [m] else []
  {
    var st := HandleAll(NO_STATE, front).0;
    HandleEmitsBar(st, m);
    if m.BarMessage? {
      LastClosedIsLatest(front, KeyOfBar(m.bar));
      ShouldEmitNext(front, m, LastClosed(st.bars, KeyOfBar(m.bar)));
    } else {
      assert (front + [m])[|front|] == m;
    }
  }

  /** Over any run of messages, the bars emitted are exactly those the stateless rule selects, in order. */
  lemma {:induction false} BarDedupRefinesRule(ms: seq<Inbound>)
    ensures BarsIn(HandleAll(NO_STATE, ms).1) == ShouldEmitAll(ms)
  {
    if ms != [] {
      var n := |ms| - 1;
      var front, m := ms[..n], ms[n];
      assert ms == front + [m];
      BarDedupRefinesRule(front);
      EmitsAsItShould(front, m);
      HandleAllConcat(NO_STATE, front, [m]);
      var (st, before) := HandleAll(NO_STATE, front);
      var e := OptionSeq(Handle(st, m).1);
      assert HandleAll(st, [m]).1 == e;
      FilterConcat((x: Inbound) => x.BarMessage?, before, e);
    }
  }

  /** Selected bars of one key have strictly increasing times. */
  lemma SelectedTimesIncrease(ms: seq<Inbound>, i: int, j: int)
    requires i < j && ShouldEmit(ms, i) && ShouldEmit(ms, j) && KeyOfBar(ms[i].bar) == KeyOfBar(ms[j].bar)
    ensures ms[i].bar.time < ms[j].bar.time
  {
    assert ValidBarAt(ms, KeyOfBar(ms[j].bar), i);
  }

  // ---------- conversion ----------

  datatype QuoteTick = QuoteTick(instrument: string, bid: real, ask: real, tsEvent: int, tsInit: int)

  datatype Bar<T> = Bar(barType: T, open: real, high: real, low: real, close: real,
                     volume: int, tsEvent: int, tsInit: int, isRevision: bool)

  function ToQuoteTick(instrument: string, tick: WireTick, tsInit: int): Option<QuoteTick> {
    if tick.bid <= 0.0 || tick.ask <= 0.0 then None
    else
      var tsEvent := tick.timeMsc * 1_000_000;
      Some(QuoteTick(instrument, tick.bid, tick.ask, tsEvent, MaxInt(tsInit, tsEvent)))
  }

  function ToBar<T>(barType: T, bar: WireBar, tsInit: int): Option<Bar<T>> {
    if bar.close <= 0.0 || bar.time <= 0 then None
    else
      var tsEvent := bar.time * 1_000_000_000;
      var volume := if bar.tickVolume > 0 then bar.tickVolume else bar.realVolume;
      Some(Bar(barType, bar.open, bar.high, bar.low, bar.close, volume, tsEvent, MaxInt(tsInit, tsEvent), false))
  }

  /** When it happened, and when it was received: by the clock, but never before it happened. */
  predicate Stamped(tsEvent: int, tsInit: int, at: int, now: int) {
    tsEvent == at && tsInit == if now < at then at else now
  }

  /** The quote has the tick's own prices; times are in nanoseconds. */
  predicate ShowsTick(q: QuoteTick, instrument: string, tick: WireTick, now: int) {
    && q.instrument == instrument && q.bid == tick.bid && q.ask == tick.ask
    && Stamped(q.tsEvent, q.tsInit, tick.timeMsc * 1_000_000, now)
  }

  /** The bar has the wire bar's own prices, and its tick volume or, without one, its real volume. */
  predicate ShowsBar<T(==)>(b: Bar<T>, barType: T, bar: WireBar, now: int) {
    && b.barType == barType && !b.isRevision
    && b.open == bar.open && b.high == bar.high && b.low == bar.low && b.close == bar.close
    && b.volume == (if bar.tickVolume > 0 then bar.tickVolume else bar.realVolume)
    && Stamped(b.tsEvent, b.tsInit, bar.time * 1_000_000_000, now)
  }

  /** What one emitted event publishes: the converters drop nothing, and show what was sent. */
  ghost predicate Convertible(e: Inbound) {
    match e
    case TickBatch(symbol, _, ticks) =>
      && ticks != []
      && forall t, now: int | t in ticks ::
           ToQuoteTick(symbol, t, now).Some? && ShowsTick(ToQuoteTick(symbol, t, now).value, symbol, t, now)
    case BarMessage(bar) =>
      forall barType: string, now: int ::
        ToBar(barType, bar, now).Some? && ShowsBar(ToBar(barType, bar, now).value, barType, bar, now)
    case _ => true
  }

  /** From any state and over any run, every emitted tick and bar converts to one with its own prices and
      volume, never stamped as received before it happened. */
  lemma {:induction false} EmittedConverts(st: HandlerState, ms: seq<Inbound>)
    ensures forall e | e in HandleAll(st, ms).1 :: Convertible(e)
    decreases |ms|
  {
    if ms != [] {
      var (s1, e) := Handle(st, ms[0]);
      EmittedConverts(s1, ms[1..]);
      if e.Some? && e.value.TickBatch? {
        forall t, now: int | t in e.value.ticks
          ensures var q := ToQuoteTick(e.value.symbol, t, now);
                  q.Some? && ShowsTick(q.value, e.value.symbol, t, now)
        {
          assert Priced(t);
        }
      }
    }
  }
}
