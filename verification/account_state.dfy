/** Account state from a stream of summary values: per currency, once every tag needed has been seen. */
module AccountSummaries {
  import opened Prelude

  datatype Event = Event(tag: string, value: real, currency: string)

  datatype AccountState = AccountState(currency: string, total: real, free: real, locked: real,
                                       initialMargin: real, maintenanceMargin: real)

  const NET_LIQUIDATION := "NetLiquidation"
  const AVAILABLE_FUNDS := "FullAvailableFunds"
  const INIT_MARGIN := "FullInitMarginReq"
  const MAINT_MARGIN := "FullMaintMarginReq"
  const TAGS := {NET_LIQUIDATION, AVAILABLE_FUNDS, INIT_MARGIN, MAINT_MARGIN}

  type Values = map<string, real>

  predicate Complete(values: Values) {
    TAGS <= values.Keys
  }

  /** The balance of one currency: maintenance margin is locked, up to the total. */
  function StateOf(currency: string, values: Values): (st: AccountState)
    requires Complete(values)
  {
    var total, margin := values[NET_LIQUIDATION], values[MAINT_MARGIN];
    var locked := if margin > total then total else margin;
    AccountState(currency, total, total - locked, locked, values[INIT_MARGIN], margin)
  }

  /** The balance always adds up, never owes, and is all locked exactly when the margin reaches the total. */
  lemma BalanceAddsUp(currency: string, values: Values)
    requires Complete(values)
    ensures var st := StateOf(currency, values);
            && st.free + st.locked == st.total && st.free >= 0.0
            && st.locked <= st.maintenanceMargin && st.locked <= st.total
            && (st.free == 0.0 <==> st.maintenanceMargin >= st.total)
            && (st.locked == st.maintenanceMargin <==> st.maintenanceMargin <= st.total)
  {
  }

  // ---------- the run ----------

  /** The values received, and the currencies in the order they were first seen. */
  datatype Summary = Summary(values: map<string, Values>, order: seq<string>)

  function Update(s: Summary, e: Event): Summary {
    var known := if e.currency in s.values then s.values[e.currency] else map[];
    Summary(s.values[e.currency := known[e.tag := e.value]],
            if e.currency in s.values then s.order else s.order + [e.currency])
  }

  function Run(es: seq<Event>): Summary {
    if es == [] then Summary(map[], []) else Update(Run(es[..|es| - 1]), es[|es| - 1])
  }

  /** What one event reports: every currency that has a name and all its tags, in order. */
  function Report(s: Summary, order: seq<string>): seq<AccountState>
    requires forall c | c in order :: c in s.values
  {
    if order == [] then []
    else
      var n := |order| - 1;
      Report(s, order[..n]) +
      if order[n] != "" && Complete(s.values[order[n]]) then [StateOf(order[n], s.values[order[n]])] else []
  }

  // ---------- the rule ----------

  function Latest(es: seq<Event>, currency: string, tag: string): Option<real> {
    if es == [] then None
    else
      var e := es[|es| - 1];
      if e.currency == currency && e.tag == tag then Some(e.value) else Latest(es[..|es| - 1], currency, tag)
  }

  /** The currency has a name, and all four of its tags have been seen. */
  predicate Reportable(es: seq<Event>, currency: string) {
    currency != "" && forall tag | tag in TAGS :: Latest(es, currency, tag).Some?
  }

  function LatestState(es: seq<Event>, currency: string): AccountState
    requires Reportable(es, currency)
  {
    StateOf(currency, map tag | tag in TAGS :: Latest(es, currency, tag).value)
  }

  ghost predicate Distinct(s: seq<string>) {
    forall i, j | 0 <= i < j < |s| :: s[i] != s[j]
  }

  /** The dictionary holds the latest value of each tag, and lists each currency once. */
  ghost predicate Tracks(s: Summary, es: seq<Event>) {
    && Distinct(s.order)
    && (forall c :: c in s.order <==> c in s.values)
    && forall c, t ::
         && (c in s.values && t in s.values[c] <==> Latest(es, c, t).Some?)
         && (Latest(es, c, t).Some? ==> s.values[c][t] == Latest(es, c, t).value)
  }

  lemma TracksStep(s: Summary, es: seq<Event>, e: Event)
    requires Tracks(s, es)
    ensures Tracks(Update(s, e), es + [e])
  {
    var all := es + [e];
    assert all[..|es|] == es;
    var u := Update(s, e);
    forall c, t
      ensures (c in u.values && t in u.values[c] <==> Latest(all, c, t).Some?)
      ensures Latest(all, c, t).Some? ==> u.values[c][t] == Latest(all, c, t).value
    {
      assert c in s.values && t in s.values[c] <==> Latest(es, c, t).Some?;
    }
  }

  lemma {:induction false} RunTracks(es: seq<Event>)
    ensures Tracks(Run(es), es)
  {
    if es != [] {
      var n := |es| - 1;
      assert es == es[..n] + [es[n]];
      RunTracks(es[..n]);
      TracksStep(Run(es[..n]), es[..n], es[n]);
    }
  }

  lemma CompleteIsReportable(s: Summary, es: seq<Event>, c: string)
    requires Tracks(s, es) && c in s.values
    ensures c != "" && Complete(s.values[c]) <==> Reportable(es, c)
    ensures Reportable(es, c) ==> StateOf(c, s.values[c]) == LatestState(es, c)
  {
    forall t | t in TAGS ensures t in s.values[c] <==> Latest(es, c, t).Some? {
    }
  }

  lemma {:induction false} ReportedExactly(s: Summary, es: seq<Event>, order: seq<string>)
    requires Tracks(s, es) && Distinct(order) && forall c | c in order :: c in s.values
    ensures var r := Report(s, order);
            && (forall i, j | 0 <= i < j < |r| :: r[i].currency != r[j].currency)
            && (forall st | st in r ::
                  st.currency in order && Reportable(es, st.currency) && st == LatestState(es, st.currency))
            && (forall c | c in order && Reportable(es, c) :: LatestState(es, c) in r)
  {
    if order != [] {
      var n := |order| - 1;
      ReportedExactly(s, es, order[..n]);
      assert order[n] in order;
      CompleteIsReportable(s, es, order[n]);
      assert order == order[..n] + [order[n]];
    }
  }

  lemma SeenWhenReportable(es: seq<Event>, c: string)
    requires Reportable(es, c)
    ensures c in Run(es).values
  {
    RunTracks(es);
    assert Latest(es, c, NET_LIQUIDATION).Some?;
  }

  /** The state is that of the latest values of its currency: total is the net liquidation value, what is
      locked the maintenance margin up to the total, what is free the rest; all four tags have been seen. */
  predicate Reflects(es: seq<Event>, st: AccountState) {
    && st.currency != "" && Latest(es, st.currency, "FullAvailableFunds").Some?
    && Latest(es, st.currency, "NetLiquidation") == Some(st.total)
    && Latest(es, st.currency, "FullInitMarginReq") == Some(st.initialMargin)
    && Latest(es, st.currency, "FullMaintMarginReq") == Some(st.maintenanceMargin)
    && st.locked == (if st.maintenanceMargin > st.total then st.total else st.maintenanceMargin)
    && st.free == st.total - st.locked
  }

  lemma ReflectsLatest(es: seq<Event>, st: AccountState)
    ensures Reflects(es, st) <==> Reportable(es, st.currency) && st == LatestState(es, st.currency)
  {
    var c := st.currency;
    assert Reportable(es, c) <==>
           && c != "" && Latest(es, c, "NetLiquidation").Some? && Latest(es, c, "FullAvailableFunds").Some?
           && Latest(es, c, "FullInitMarginReq").Some? && Latest(es, c, "FullMaintMarginReq").Some?;
  }

  /** On every event, exactly the states that reflect the latest values are reported, for every currency that
      has a name and all four tags, each once. */
  lemma ReportsExactly(es: seq<Event>)
    ensures Tracks(Run(es), es)
    ensures var r := Report(Run(es), Run(es).order);
            && (forall i, j | 0 <= i < j < |r| :: r[i].currency != r[j].currency)
            && forall st: AccountState :: st in r <==> Reflects(es, st)
  {
    RunTracks(es);
    var s := Run(es);
    ReportedExactly(s, es, s.order);
    forall st: AccountState ensures st in Report(s, s.order) <==> Reflects(es, st) {
      ReflectsLatest(es, st);
      if Reflects(es, st) {
        SeenWhenReportable(es, st.currency);
      }
    }
  }

  /** Arrival order is irrelevant: runs that agree on the latest value of every tag report the same states. */
  lemma OrderIrrelevant(es: seq<Event>, fs: seq<Event>)
    requires forall c, t :: Latest(es, c, t) == Latest(fs, c, t)
    ensures forall st: AccountState :: st in Report(Run(es), Tracked(es)) <==> st in Report(Run(fs), Tracked(fs))
  {
    ReportsExactly(es);
    ReportsExactly(fs);
    forall st: AccountState ensures st in Report(Run(es), Tracked(es)) <==> st in Report(Run(fs), Tracked(fs)) {
      assert forall t :: Latest(es, st.currency, t) == Latest(fs, st.currency, t);
      assert Reflects(es, st) <==> Reflects(fs, st);
    }
  }

  /** The currencies seen, in order. */
  ghost function Tracked(es: seq<Event>): (order: seq<string>)
    ensures order == Run(es).order && forall c | c in order :: c in Run(es).values
  {
    RunTracks(es);
    Run(es).order
  }

  /** In particular two neighbouring values of different tags, or of different currencies, can be swapped. */
  lemma {:induction false} SwapNeighbours(es: seq<Event>, a: Event, b: Event, rest: seq<Event>, c: string, t: string)
    requires (a.currency, a.tag) != (b.currency, b.tag)
    ensures Latest(es + [a, b] + rest, c, t) == Latest(es + [b, a] + rest, c, t)
    decreases |rest|
  {
    var x, y := es + [a, b] + rest, es + [b, a] + rest;
    if rest == [] {
      assert x[..|x| - 1] == es + [a] && y[..|y| - 1] == es + [b];
      assert (es + [a])[..|es|] == es && (es + [b])[..|es|] == es;
    } else {
      var front := rest[..|rest| - 1];
      assert x[..|x| - 1] == es + [a, b] + front && y[..|y| - 1] == es + [b, a] + front;
      SwapNeighbours(es, a, b, front, c, t);
    }
  }

  // ---------- the execution client ----------

  class ExecutionClient {
    var accountSummary: map<string, Values>
    /** The dictionary's own order: that of first insertion. */
    var order: seq<string>

    ghost predicate Valid()
      reads this
    {
      forall c | c in order :: c in accountSummary
    }

    ghost function Abs(): Summary
      reads this
    {
      Summary(accountSummary, order)
    }

    constructor ()
      ensures Valid() && Abs() == Summary(map[], [])
    {
      accountSummary, order := map[], [];
    }

    method OnAccountSummary(tag: string, value: real, currency: string) returns (states: seq<AccountState>)
      requires Valid()
      modifies this
      ensures Valid()
      ensures Abs() == Update(old(Abs()), Event(tag, value, currency))
      ensures states == Report(Abs(), order)
    {
      if currency !in accountSummary {
        order := order + [currency];
        accountSummary := accountSummary[currency := map[]];
      }
      accountSummary := accountSummary[currency := accountSummary[currency][tag := value]];

      states := ReportStates();
    }

    /** Every currency in turn, whichever the event was about. */
    method ReportStates() returns (states: seq<AccountState>)
      requires Valid()
      ensures states == Report(Abs(), order)
    {
      states := [];
      for i := 0 to |order|
        invariant states == Report(Abs(), order[..i])
      {
        var c := order[i];
        assert order[..i + 1][..i] == order[..i];
        if c == "" {
          continue;
        }
        var values := accountSummary[c];
        if TAGS <= values.Keys {
          var locked, total := values[MAINT_MARGIN], values[NET_LIQUIDATION];
          if locked > total {
            locked := total;
          }
          var free := total - locked;
          states := states + [AccountState(c, total, free, locked, values[INIT_MARGIN], values[MAINT_MARGIN])];
        }
      }
      assert order[..|order|] == order;
    }
  }
}
