/** The adapter's subscription bookkeeping: a specification over any key type, the theorem that
    the two pending sets record the latest command, and the class that updates them in place. */
module SubscriptionTracking {
  import opened Prelude
  import opened Wire

  datatype Pending<K> = Pending(subscribe: set<K>, unsubscribe: set<K>)

  datatype Event<K> =
    | Sub(keys: set<K>)
    | Unsub(keys: set<K>)
    | HelloOf(keys: set<K>)

  function Apply<K>(p: Pending<K>, e: Event<K>): Pending<K> {
    match e
    case Sub(ks) => Pending(p.subscribe + ks, p.unsubscribe - ks)
    case Unsub(ks) => Pending(p.subscribe - ks, p.unsubscribe + ks)
    case HelloOf(ks) => Pending(p.subscribe - ks, p.unsubscribe)
  }

  function Run<K>(events: seq<Event<K>>): Pending<K> {
    if events == [] then Pending({}, {})
    else Apply(Run(events[..|events| - 1]), events[|events| - 1])
  }

  /** Event `i` is the latest command (not hello) that names `k`. */
  ghost predicate LatestCommand<K>(events: seq<Event<K>>, k: K, i: int) {
    && 0 <= i < |events| && !events[i].HelloOf? && k in events[i].keys
    && forall j :: i < j < |events| && !events[j].HelloOf? ==> k !in events[j].keys
  }

  /** After event `i`, no hello names `k`. */
  ghost predicate NoHelloAfter<K>(events: seq<Event<K>>, k: K, i: int) {
    forall j :: 0 <= j < |events| && i < j && events[j].HelloOf? ==> k !in events[j].keys
  }

  /** Some event is the latest command naming `k`, and it unsubscribes. */
  ghost predicate LatestIsUnsub<K>(events: seq<Event<K>>, k: K) {
    exists i :: LatestCommand(events, k, i) && events[i].Unsub?
  }

  /** Some event is the latest command naming `k`, it subscribes, and no later hello names `k`. */
  ghost predicate LatestIsUnansweredSub<K>(events: seq<Event<K>>, k: K) {
    exists i :: LatestCommand(events, k, i) && events[i].Sub? && NoHelloAfter(events, k, i)
  }

  lemma LatestUnsubStep<K>(events: seq<Event<K>>, e: Event<K>, k: K)
    ensures LatestIsUnsub(events + [e], k) <==>
            (if !e.HelloOf? && k in e.keys then e.Unsub? else LatestIsUnsub(events, k))
  {
    var all, n := events + [e], |events|;
    if !e.HelloOf? && k in e.keys {
      assert LatestCommand(all, k, n);
      assert forall i :: LatestCommand(all, k, i) ==> i == n;
    } else {
      assert forall i :: LatestCommand(events, k, i) ==> LatestCommand(all, k, i) && all[i] == events[i];
      assert forall i :: LatestCommand(all, k, i) ==> LatestCommand(events, k, i) && all[i] == events[i];
    }
  }

  lemma LatestSubStep<K>(events: seq<Event<K>>, e: Event<K>, k: K)
    ensures LatestIsUnansweredSub(events + [e], k) <==>
            (if k in e.keys then e.Sub? else LatestIsUnansweredSub(events, k))
  {
    var all, n := events + [e], |events|;
    assert all[n] == e;
    if k in e.keys {
      if e.Sub? {
        assert LatestCommand(all, k, n) && NoHelloAfter(all, k, n);
      } else {
        assert forall i :: LatestCommand(all, k, i) ==> i == n || (e.HelloOf? && !NoHelloAfter(all, k, i));
      }
    } else {
      assert forall i :: LatestCommand(events, k, i) ==> LatestCommand(all, k, i) && all[i] == events[i];
      assert forall i :: LatestCommand(all, k, i) ==> LatestCommand(events, k, i) && all[i] == events[i];
      forall i | LatestCommand(all, k, i)
        ensures NoHelloAfter(all, k, i) <==> NoHelloAfter(events, k, i)
      {
        assert forall j :: 0 <= j < n ==> all[j] == events[j];
      }
    }
  }

  /** After any run, `unsubscribe` is exactly the keys whose latest command is an unsubscribe, and
      `subscribe` exactly those whose latest command is a subscribe no later hello has answered. */
  lemma {:induction false} LastCommandSemantics<K>(events: seq<Event<K>>, k: K)
    ensures k in Run(events).unsubscribe <==> LatestIsUnsub(events, k)
    ensures k in Run(events).subscribe <==> LatestIsUnansweredSub(events, k)
    ensures !(k in Run(events).subscribe && k in Run(events).unsubscribe)
  {
    if events != [] {
      var front, e := events[..|events| - 1], events[|events| - 1];
      assert events == front + [e];
      LastCommandSemantics(front, k);
      LatestUnsubStep(front, e, k);
      LatestSubStep(front, e, k);
    }
  }

  function SymbolKeys(symbols: seq<string>, timeframe: string): set<BarKey> {
    set s | s in symbols :: (s, Upper(timeframe))
  }

  /** A timeframe names the same keys however its letters are cased, and other timeframes name others. */
  lemma KeysIgnoreCase(symbols: seq<string>, a: string, b: string)
    requires symbols != []
    ensures SymbolKeys(symbols, a) == SymbolKeys(symbols, b) <==> SameLetters(a, b)
    ensures forall k :: k in SymbolKeys(symbols, a) <==>
                        k.0 in symbols && SameLetters(a, k.1) && forall c | c in k.1 :: !('a' <= c <= 'z')
  {
    UpperExactly(a, Upper(b));
    UpperExactly(b, Upper(b));
    assert SameLetters(a, b) <==> SameLetters(a, Upper(b));
    assert (symbols[0], Upper(a)) in SymbolKeys(symbols, a);
    forall k: BarKey ensures k in SymbolKeys(symbols, a) <==>
                     k.0 in symbols && SameLetters(a, k.1) && forall c | c in k.1 :: !('a' <= c <= 'z') {
      UpperExactly(a, k.1);
    }
  }

  /** Tracks adapter-side subscriptions and the symbols and bars the service last reported. */
  class SubscriptionState {
    var pendingSubscribe: set<string>
    var pendingUnsubscribe: set<string>
    var serviceSymbols: set<string>
    var pendingBarSubscribe: set<BarKey>
    var pendingBarUnsubscribe: set<BarKey>
    var serviceBars: set<BarKey>
    var session: Option<string>

    ghost function Symbols(): Pending<string>
      reads this
    {
      Pending(pendingSubscribe, pendingUnsubscribe)
    }

    ghost function Bars(): Pending<BarKey>
      reads this
    {
      Pending(pendingBarSubscribe, pendingBarUnsubscribe)
    }

    constructor ()
      ensures Symbols() == Pending({}, {}) && Bars() == Pending({}, {})
      ensures serviceSymbols == {} && serviceBars == {} && session == None
    {
      pendingSubscribe, pendingUnsubscribe, serviceSymbols := {}, {}, {};
      pendingBarSubscribe, pendingBarUnsubscribe, serviceBars := {}, {}, {};
      session := None;
    }

    method MarkSubscribe(symbols: seq<string>)
      modifies `pendingSubscribe, `pendingUnsubscribe
      ensures Symbols() == Apply(old(Symbols()), Sub(Elements(symbols)))
    {
      for i := 0 to |symbols|
        invariant Symbols() == Apply(old(Symbols()), Sub(Elements(symbols[..i])))
      {
        assert Elements(symbols[..i + 1]) == Elements(symbols[..i]) + {symbols[i]};
        pendingSubscribe := pendingSubscribe + {symbols[i]};
        pendingUnsubscribe := pendingUnsubscribe - {symbols[i]};
      }
      assert symbols[..|symbols|] == symbols;
    }

    method MarkUnsubscribe(symbols: seq<string>)
      modifies `pendingSubscribe, `pendingUnsubscribe
      ensures Symbols() == Apply(old(Symbols()), Unsub(Elements(symbols)))
    {
      for i := 0 to |symbols|
        invariant Symbols() == Apply(old(Symbols()), Unsub(Elements(symbols[..i])))
      {
        assert Elements(symbols[..i + 1]) == Elements(symbols[..i]) + {symbols[i]};
        pendingUnsubscribe := pendingUnsubscribe + {symbols[i]};
        pendingSubscribe := pendingSubscribe - {symbols[i]};
      }
      assert symbols[..|symbols|] == symbols;
    }

    method MarkSubscribeBars(symbols: seq<string>, timeframe: string)
      modifies `pendingBarSubscribe, `pendingBarUnsubscribe
      ensures Bars() == Apply(old(Bars()), Sub(SymbolKeys(symbols, timeframe)))
    {
      var tf := Upper(timeframe);
      for i := 0 to |symbols|
        invariant Bars() == Apply(old(Bars()), Sub(SymbolKeys(symbols[..i], timeframe)))
      {
        assert SymbolKeys(symbols[..i + 1], timeframe) == SymbolKeys(symbols[..i], timeframe) + {(symbols[i], tf)};
        pendingBarSubscribe := pendingBarSubscribe + {(symbols[i], tf)};
        pendingBarUnsubscribe := pendingBarUnsubscribe - {(symbols[i], tf)};
      }
      assert symbols[..|symbols|] == symbols;
    }

    method MarkUnsubscribeBars(symbols: seq<string>, timeframe: string)
      modifies `pendingBarSubscribe, `pendingBarUnsubscribe
      ensures Bars() == Apply(old(Bars()), Unsub(SymbolKeys(symbols, timeframe)))
    {
      var tf := Upper(timeframe);
      for i := 0 to |symbols|
        invariant Bars() == Apply(old(Bars()), Unsub(SymbolKeys(symbols[..i], timeframe)))
      {
        assert SymbolKeys(symbols[..i + 1], timeframe) == SymbolKeys(symbols[..i], timeframe) + {(symbols[i], tf)};
        pendingBarUnsubscribe := pendingBarUnsubscribe + {(symbols[i], tf)};
        pendingBarSubscribe := pendingBarSubscribe - {(symbols[i], tf)};
      }
      assert symbols[..|symbols|] == symbols;
    }

    method ApplyHello(hello: Inbound)
      requires hello.Hello?
      modifies this
      ensures session == Some(hello.session)
      ensures serviceSymbols == Elements(hello.symbols)
      ensures serviceBars == HelloBars(hello.bars)
      ensures Symbols() == Apply(old(Symbols()), HelloOf(serviceSymbols))
      ensures Bars() == Apply(old(Bars()), HelloOf(serviceBars))
    {
      session := Some(hello.session);
      serviceSymbols := Elements(hello.symbols);
      pendingSubscribe := pendingSubscribe - serviceSymbols;

      var bars: set<BarKey> := {};
      for i := 0 to |hello.bars|
        modifies {}
        invariant bars == HelloBars(hello.bars[..i])
      {
        assert hello.bars[..i + 1] == hello.bars[..i] + [hello.bars[i]];
        HelloBarsSnoc(hello.bars[..i], hello.bars[i]);
        match ParseBarSpec(hello.bars[i]) {
          case None =>
          case Some(parsed) => bars := bars + {(parsed.0, Upper(parsed.1))};
        }
      }
      assert hello.bars[..|hello.bars|] == hello.bars;
      serviceBars := bars;
      pendingBarSubscribe := pendingBarSubscribe - serviceBars;
    }
  }

  /** Reading one more spec adds its key, if it has one. */
  lemma HelloBarsSnoc(specs: seq<string>, spec: string)
    ensures HelloBars(specs + [spec]) ==
            HelloBars(specs) + if KeyOfSpec(spec).Some? then {KeyOfSpec(spec).value} else {}
  {
    var all := specs + [spec];
    assert forall i | 0 <= i < |specs| :: all[i] == specs[i];
    assert all[|specs|] == spec;
    forall k | k in HelloBars(specs) ensures k in HelloBars(all) {
      var i :| 0 <= i < |specs| && KeyOfSpec(specs[i]) == Some(k);
      assert all[i] == specs[i];
    }
  }
}
