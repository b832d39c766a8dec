/** The inbound feed handler: deduplication of ticks and bars, dispatch of messages, and the
    theorem that no message on one channel can affect what another channel emits. */
module FeedHandler {
  import opened Prelude
  import opened Wire
  import opened SubscriptionTracking

  // ---------- specification ----------

  datatype SymbolState = SymbolState(lastCursor: int, lastTick: Option<WireTick>)

  const FRESH_SYMBOL := SymbolState(0, None)

  datatype SubsView = SubsView(symbols: Pending<string>, bars: Pending<BarKey>,
                               serviceSymbols: set<string>, serviceBars: set<BarKey>, session: Option<string>)

  datatype HandlerState = HandlerState(ticks: map<string, SymbolState>, bars: map<BarKey, int>, subs: SubsView)

  function TickKey(t: WireTick): (int, real, real, int, int) {
    (t.timeMsc, t.bid, t.ask, t.volume, t.flags)
  }

  predicate Priced(t: WireTick) {
    t.bid > 0.0 && t.ask > 0.0
  }

  /** A tick is kept when it is not before the cursor, not the last tick again, and priced. */
  predicate Keeps(st: SymbolState, t: WireTick) {
    && st.lastCursor <= t.timeMsc
    && (st.lastTick.Some? ==> TickKey(t) != TickKey(st.lastTick.value))
    && Priced(t)
  }

  function KeptTicks(st: SymbolState, ticks: seq<WireTick>): seq<WireTick> {
    Filter(t => Keeps(st, t), ticks)
  }

  function DedupTicks(st: SymbolState, cursor: int, ticks: seq<WireTick>): (SymbolState, seq<WireTick>) {
    if cursor < st.lastCursor then (st, [])
    else
      var out := KeptTicks(st, ticks);
      (if out == [] then st else SymbolState(cursor, Some(out[|out| - 1])), out)
  }

  function DedupBatch(all: map<string, SymbolState>, symbol: string, cursor: int, ticks: seq<WireTick>)
    : (map<string, SymbolState>, seq<WireTick>)
  {
    var (s, out) := DedupTicks(TicksFor(all, symbol), cursor, ticks);
    (all[symbol := s], out)
  }

  /** Entering the symbol's state first, fresh if it is new, makes no difference to a batch. */
  lemma DedupBatchOnEntry(all: map<string, SymbolState>, symbol: string, cursor: int, ticks: seq<WireTick>)
    ensures DedupBatch(all[symbol := TicksFor(all, symbol)], symbol, cursor, ticks) ==
            DedupBatch(all, symbol, cursor, ticks)
  {
    var s := DedupTicks(TicksFor(all, symbol), cursor, ticks).0;
    assert all[symbol := TicksFor(all, symbol)][symbol := s] == all[symbol := s];
  }

  function KeyOfBar(bar: WireBar): BarKey {
    (bar.symbol, Upper(bar.timeframe))
  }

  predicate ValidBar(bar: WireBar) {
    bar.time > 0 && bar.close > 0.0
  }

  function TicksFor(ticks: map<string, SymbolState>, symbol: string): SymbolState {
    if symbol in ticks then ticks[symbol] else FRESH_SYMBOL
  }

  function LastClosed(bars: map<BarKey, int>, key: BarKey): int {
    if key in bars then bars[key] else 0
  }

  /** The bar times after one bar, and whether it is emitted: valid and later than the last one. */
  function DedupBar(bars: map<BarKey, int>, bar: WireBar): (map<BarKey, int>, bool) {
    var key := KeyOfBar(bar);
    if !ValidBar(bar) then (bars, false)
    else if bar.time <= LastClosed(bars, key) then (bars[key := LastClosed(bars, key)], false)
    else (bars[key := bar.time], true)
  }

  function ApplyHelloView(v: SubsView, hello: Inbound): SubsView
    requires hello.Hello?
  {
    var symbols, bars := Elements(hello.symbols), HelloBars(hello.bars);
    SubsView(Apply(v.symbols, HelloOf(symbols)), Apply(v.bars, HelloOf(bars)), symbols, bars, Some(hello.session))
  }

  /** One message: the new state and the event it emits, if any. */
  function Handle(st: HandlerState, m: Inbound): (HandlerState, Option<Inbound>) {
    match m
    case Hello(_, _, _) => (st.(subs := ApplyHelloView(st.subs, m)), Some(m))
    case TickBatch(symbol, cursor, ticks) =>
      var (all, out) := DedupBatch(st.ticks, symbol, cursor, ticks);
      (st.(ticks := all), if out == [] then None else Some(TickBatch(symbol, cursor, out)))
    case BarMessage(bar) =>
      var (bars, emit) := DedupBar(st.bars, bar);
      (st.(bars := bars), if emit then Some(m) else None)
    case _ => (st, Some(m))
  }

  /** A run of messages: the final state and everything emitted, in order. */
  function HandleAll(st: HandlerState, ms: seq<Inbound>): (HandlerState, seq<Inbound>)
    decreases |ms|
  {
    if ms == [] then (st, [])
    else
      var (s1, e) := Handle(st, ms[0]);
      var (s2, es) := HandleAll(s1, ms[1..]);
      (s2, OptionSeq(e) + es)
  }

  lemma {:induction false} HandleAllConcat(st: HandlerState, a: seq<Inbound>, b: seq<Inbound>)
    ensures HandleAll(st, a + b).0 == HandleAll(HandleAll(st, a).0, b).0
    ensures HandleAll(st, a + b).1 == HandleAll(st, a).1 + HandleAll(HandleAll(st, a).0, b).1
    decreases |a|
  {
    if a == [] {
      assert a + b == b;
    } else {
      var (s1, e) := Handle(st, a[0]);
      assert (a + b)[1..] == a[1..] + b && (a + b)[0] == a[0];
      HandleAllConcat(s1, a[1..], b);
      var (s2, es) := HandleAll(s1, a[1..]);
      assert HandleAll(st, a) == (s2, OptionSeq(e) + es);
      assert OptionSeq(e) + es + HandleAll(s2, b).1 == OptionSeq(e) + (es + HandleAll(s2, b).1);
    }
  }

  /** An event comes from a message: it is the message itself or, of a batch, some of its ticks under the same
      symbol and cursor. */
  predicate ComesFrom(e: Inbound, m: Inbound) {
    if m.TickBatch?
    then
      && e.TickBatch? && e.symbol == m.symbol && e.cursor == m.cursor
      && e.ticks != [] && Elements(e.ticks) <= Elements(m.ticks)
    else e == m
  }

  lemma HandleComesFrom(st: HandlerState, m: Inbound)
    ensures Handle(st, m).1.Some? ==> ComesFrom(Handle(st, m).1.value, m)
    ensures !m.TickBatch? && !m.BarMessage? ==> Handle(st, m).1 == Some(m)
  {
  }

  /** Nothing is made up: over any run each event comes from a message received, and every message that is
      neither ticks nor a bar goes out as it came. */
  lemma {:induction false} EventsComeFrom(st: HandlerState, ms: seq<Inbound>)
    ensures forall e | e in HandleAll(st, ms).1 :: exists m :: m in ms && ComesFrom(e, m)
    ensures forall m | m in ms && !m.TickBatch? && !m.BarMessage? :: m in HandleAll(st, ms).1
    decreases |ms|
  {
    if ms != [] {
      HandleComesFrom(st, ms[0]);
      EventsComeFrom(Handle(st, ms[0]).0, ms[1..]);
      assert ms[0] in ms;
    }
  }

  // ---------- non-interference ----------

  datatype Channel = TickChannel(symbol: string) | BarChannel(key: BarKey) | Control

  function ChannelOf(m: Inbound): Channel {
    match m
    case TickBatch(symbol, _, _) => TickChannel(symbol)
    case BarMessage(bar) => BarChannel(KeyOfBar(bar))
    case _ => Control
  }

  datatype Local = TickLocal(s: SymbolState) | BarLocal(lastClosed: int) | ControlLocal(subs: SubsView)

  /** The part of the handler's state that one channel uses. */
  function LocalState(st: HandlerState, c: Channel): Local {
    match c
    case TickChannel(symbol) => TickLocal(TicksFor(st.ticks, symbol))
    case BarChannel(key) => BarLocal(LastClosed(st.bars, key))
    case Control => ControlLocal(st.subs)
  }

  /** A message reads and writes only its own channel's state, and emits only on that channel. */
  lemma HandleIsLocal(s: HandlerState, t: HandlerState, m: Inbound, c: Channel)
    requires LocalState(s, c) == LocalState(t, c)
    ensures ChannelOf(m) == c ==>
              && Handle(s, m).1 == Handle(t, m).1
              && LocalState(Handle(s, m).0, c) == LocalState(Handle(t, m).0, c)
    ensures ChannelOf(m) != c ==> LocalState(Handle(s, m).0, c) == LocalState(s, c)
    ensures Handle(s, m).1.Some? ==> ChannelOf(Handle(s, m).1.value) == ChannelOf(m)
  {
  }

  lemma {:induction false} AgreeingRuns(s: HandlerState, t: HandlerState, ms: seq<Inbound>, c: Channel)
    requires LocalState(s, c) == LocalState(t, c)
    ensures var on := (m: Inbound) => ChannelOf(m) == c;
            && Filter(on, HandleAll(s, ms).1) == HandleAll(t, Filter(on, ms)).1
            && LocalState(HandleAll(s, ms).0, c) == LocalState(HandleAll(t, Filter(on, ms)).0, c)
    decreases |ms|
  {
    var on := (m: Inbound) => ChannelOf(m) == c;
    if ms != [] {
      var m, rest := ms[0], ms[1..];
      HandleIsLocal(s, t, m, c);
      var (s1, e) := Handle(s, m);
      FilterConcat(on, OptionSeq(e), HandleAll(s1, rest).1);
      if on(m) {
        AgreeingRuns(s1, Handle(t, m).0, rest, c);
        assert Filter(on, ms) == [m] + Filter(on, rest);
        assert Filter(on, OptionSeq(e)) == OptionSeq(e);
      } else {
        AgreeingRuns(s1, t, rest, c);
        assert Filter(on, ms) == Filter(on, rest);
        assert Filter(on, OptionSeq(e)) == [];
      }
    }
  }

  /** For any interleaved run, what one channel emits is what the handler would emit had it been
      fed only that channel's messages: one symbol's ticks, one (symbol, timeframe)'s bars, or control. */
  lemma NonInterference(st: HandlerState, ms: seq<Inbound>, c: Channel)
    ensures var on := (m: Inbound) => ChannelOf(m) == c;
            && Filter(on, HandleAll(st, ms).1) == HandleAll(st, Filter(on, ms)).1
            && LocalState(HandleAll(st, ms).0, c) == LocalState(HandleAll(st, Filter(on, ms)).0, c)
  {
    AgreeingRuns(st, st, ms, c);
  }

  // ---------- the classes ----------

  class SymbolFeedState {
    var lastCursor: int
    var lastTick: Option<WireTick>

    ghost function Abs(): SymbolState
      reads this
    {
      SymbolState(lastCursor, lastTick)
    }

    constructor ()
      ensures Abs() == FRESH_SYMBOL
    {
      lastCursor, lastTick := 0, None;
    }

    /** The loop over one batch: keeps a tick unless one of the three guards skips it. */
    method SelectTicks(ticks: seq<WireTick>) returns (out: seq<WireTick>)
      ensures out == KeptTicks(Abs(), ticks)
    {
      ghost var st := Abs();
      out := [];
      for i := 0 to |ticks|
        invariant out == KeptTicks(st, ticks[..i])
      {
        var tick := ticks[i];
        assert ticks[..i + 1] == ticks[..i] + [tick];
        FilterSnoc(t => Keeps(st, t), ticks[..i], tick);
        if tick.timeMsc < lastCursor {
          continue;
        }
        if lastTick.Some? && TickKey(tick) == TickKey(lastTick.value) {
          continue;
        }
        if tick.bid <= 0.0 || tick.ask <= 0.0 {
          continue;
        }
        out := out + [tick];
      }
      assert ticks[..|ticks|] == ticks;
    }

    method Dedup(cursor: int, ticks: seq<WireTick>) returns (out: seq<WireTick>)
      modifies this
      ensures (Abs(), out) == DedupTicks(old(Abs()), cursor, ticks)
    {
      if cursor < lastCursor {
        return [];
      }
      out := SelectTicks(ticks);
      if out != [] {
        lastCursor := cursor;
        lastTick := Some(out[|out| - 1]);
      }
    }
  }

  class BarFeedState {
    var lastClosedTime: int

    constructor ()
      ensures lastClosedTime == 0
    {
      lastClosedTime := 0;
    }
  }

  class InboundFeedHandler {
    const subscriptionState: SubscriptionState
    var symbolState: map<string, SymbolFeedState>
    var barState: map<BarKey, BarFeedState>

    ghost function Repr(): set<object>
      reads this
    {
      {this, subscriptionState} + symbolState.Values + barState.Values
    }

    /** Distinct keys own distinct state objects. */
    ghost predicate Valid()
      reads this
    {
      && (forall a, b | a in symbolState && b in symbolState && a != b :: symbolState[a] != symbolState[b])
      && (forall a, b | a in barState && b in barState && a != b :: barState[a] != barState[b])
    }

    ghost function Subs(): SubsView
      reads subscriptionState
    {
      SubsView(subscriptionState.Symbols(), subscriptionState.Bars(), subscriptionState.serviceSymbols,
               subscriptionState.serviceBars, subscriptionState.session)
    }

    ghost function TickView(): map<string, SymbolState>
      reads this, symbolState.Values
    {
      map k | k in symbolState :: symbolState[k].Abs()
    }

    ghost function BarView(): map<BarKey, int>
      reads this, barState.Values
    {
      map k | k in barState :: barState[k].lastClosedTime
    }

    /** What has been let through so far, per symbol and per bar key. */
    ghost function Passed(): (map<string, SymbolState>, map<BarKey, int>)
      reads this, symbolState.Values, barState.Values
    {
      (TickView(), BarView())
    }

    ghost function Abs(): HandlerState
      reads this, symbolState.Values, barState.Values, subscriptionState
    {
      HandlerState(TickView(), BarView(), Subs())
    }

    constructor ()
      ensures Valid() && fresh(Repr())
      ensures Abs() == HandlerState(map[], map[], SubsView(Pending({}, {}), Pending({}, {}), {}, {}, None))
    {
      subscriptionState := new SubscriptionState();
      symbolState, barState := map[], map[];
    }

    method StateFor(symbol: string) returns (state: SymbolFeedState)
      requires Valid()
      modifies `symbolState
      ensures Valid() && fresh(Repr() - old(Repr()))
      ensures symbol in symbolState && symbolState[symbol] == state
      ensures state.Abs() == TicksFor(old(TickView()), symbol)
      ensures TickView() == old(TickView())[symbol := state.Abs()]
      ensures BarView() == old(BarView()) && Subs() == old(Subs())
    {
      if symbol in symbolState {
        state := symbolState[symbol];
        assert TickView()[symbol := state.Abs()] == TickView();
      } else {
        state := new SymbolFeedState();
        symbolState := symbolState[symbol := state];
        assert TickView() == old(TickView())[symbol := state.Abs()];
      }
    }

    method BarStateFor(symbol: string, timeframe: string) returns (state: BarFeedState)
      requires Valid()
      modifies `barState
      ensures Valid() && fresh(Repr() - old(Repr()))
      ensures var key := (symbol, Upper(timeframe));
              && key in barState && barState[key] == state
              && state.lastClosedTime == LastClosed(old(BarView()), key)
              && BarView() == old(BarView())[key := state.lastClosedTime]
      ensures TickView() == old(TickView()) && Subs() == old(Subs())
    {
      var key := (symbol, Upper(timeframe));
      if key in barState {
        state := barState[key];
        assert BarView()[key := state.lastClosedTime] == BarView();
      } else {
        state := new BarFeedState();
        barState := barState[key := state];
        assert BarView() == old(BarView())[key := state.lastClosedTime];
      }
    }

    /** One batch against an existing symbol state: every other entry keeps its own object. */
    method DedupAt(symbol: string, cursor: int, ticks: seq<WireTick>) returns (out: seq<WireTick>)
      requires Valid() && symbol in symbolState
      modifies symbolState[symbol]
      ensures (TickView(), out) == DedupBatch(old(TickView()), symbol, cursor, ticks)
      ensures BarView() == old(BarView()) && Subs() == old(Subs())
    {
      out := symbolState[symbol].Dedup(cursor, ticks);
      ghost var (expected, _) := DedupBatch(old(TickView()), symbol, cursor, ticks);
      forall k | k in symbolState ensures TickView()[k] == expected[k] {
      }
      assert TickView() == expected;
    }

    method StoreBarTime(key: BarKey, time: int)
      requires Valid() && key in barState
      modifies barState[key]
      ensures BarView() == old(BarView())[key := time]
      ensures TickView() == old(TickView()) && Subs() == old(Subs())
    {
      var state := barState[key];
      state.lastClosedTime := time;
      assert BarView().Keys == old(BarView()).Keys;
    }

    method DedupTickBatch(symbol: string, cursor: int, ticks: seq<WireTick>) returns (out: seq<WireTick>)
      requires Valid()
      modifies Repr()
      ensures Valid() && fresh(Repr() - old(Repr()))
      ensures (TickView(), out) == DedupBatch(old(TickView()), symbol, cursor, ticks)
      ensures BarView() == old(BarView()) && Subs() == old(Subs())
    {
      DedupBatchOnEntry(TickView(), symbol, cursor, ticks);
      var state := StateFor(symbol);
      out := DedupAt(symbol, cursor, ticks);
    }

    method DedupBarMessage(bar: WireBar) returns (emit: bool)
      requires Valid()
      modifies Repr()
      ensures Valid() && fresh(Repr() - old(Repr()))
      ensures (BarView(), emit) == DedupBar(old(BarView()), bar)
      ensures TickView() == old(TickView()) && Subs() == old(Subs())
    {
      if bar.time <= 0 || bar.close <= 0.0 {
        return false;
      }
      var state := BarStateFor(bar.symbol, bar.timeframe);
      if bar.time <= state.lastClosedTime {
        return false;
      }
      ghost var key, before := KeyOfBar(bar), old(BarView());
      assert before[key := LastClosed(before, key)][key := bar.time] == before[key := bar.time];
      StoreBarTime(KeyOfBar(bar), bar.time);
      return true;
    }

    method HandleMessage(message: Inbound) returns (event: Option<Inbound>)
      requires Valid()
      modifies Repr()
      ensures Valid() && fresh(Repr() - old(Repr()))
      ensures (Abs(), event) == Handle(old(Abs()), message)
    {
      match message {
        case Hello(_, _, _) =>
          subscriptionState.ApplyHello(message);
          event := Some(message);
        case TickBatch(symbol, cursor, ticks) =>
          var deduped := DedupTickBatch(symbol, cursor, ticks);
          event := if deduped == [] then None else Some(TickBatch(symbol, cursor, deduped));
        case BarMessage(bar) =>
          var emit := DedupBarMessage(bar);
          event := if emit then Some(message) else None;
        case _ =>
          event := Some(message);
      }
    }
  }
}
