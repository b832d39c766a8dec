/** Ticks sent one to a batch, as they come in live. Which of them go out is said here on their own fields:
    the priced ones that are not the priced tick before once more. */
module TickByTick {
  import opened Prelude
  import opened Wire
  import opened FeedHandler
  import opened ExactlyOnce

  /** One tick in one millisecond: after tick `a` a priced tick goes out exactly when it differs from `a`. */
  lemma SingleTick(cursor: int, a: WireTick, t: WireTick)
    requires cursor <= t.timeMsc == a.timeMsc && t.bid > 0.0 && t.ask > 0.0
    ensures var (st, out) := DedupTicks(SymbolState(cursor, Some(a)), t.timeMsc, [t]);
            if Differs(a, t) then out == [t] && st == SymbolState(t.timeMsc, Some(t))
            else out == [] && st == SymbolState(cursor, Some(a))
  {
    assert [t][1..] == [];
  }

  /** Position `j` holds the last priced tick before position `i`. */
  ghost predicate PricedBefore(log: Log, j: int, i: int) {
    && 0 <= j < i <= |log| && log[j].bid > 0.0 && log[j].ask > 0.0
    && forall m | j < m < i :: log[m].bid <= 0.0 || log[m].ask <= 0.0
  }

  /** The tick is priced, and not the priced tick before it once more. */
  ghost predicate GoesOut(log: Log, i: int) {
    && 0 <= i < |log| && log[i].bid > 0.0 && log[i].ask > 0.0
    && forall j | PricedBefore(log, j, i) :: log[j].timeMsc != log[i].timeMsc || Differs(log[j], log[i])
  }

  ghost function Outgoing(log: Log, n: nat): seq<WireTick>
    requires n <= |log|
    decreases |log| - n
  {
    if n == |log| then [] else (if GoesOut(log, n) then [log[n]] else []) + Outgoing(log, n + 1)
  }

  /** The batches from position `n` on, one tick each. */
  function Singles(log: Log, n: nat): (slices: seq<Slice>)
    requires n <= |log|
    ensures AllWithin(log, slices)
    decreases |log| - n
  {
    if n == |log| then [] else [Slice(n, n + 1)] + Singles(log, n + 1)
  }

  /** Before position `n` the state is fresh, or repeats the last priced tick in everything compared. */
  ghost predicate Repeats(log: Log, n: nat, st: SymbolState) {
    if st.lastTick == None then
      st.lastCursor == 0 && forall j :: !PricedBefore(log, j, n)
    else
      var a := st.lastTick.value;
      exists j :: PricedBefore(log, j, n) && a.timeMsc == st.lastCursor == log[j].timeMsc && !Differs(a, log[j])
  }

  lemma PricedBeforeNext(log: Log, n: nat, j: int)
    requires n < |log|
    ensures PricedBefore(log, j, n + 1) <==>
            if log[n].bid > 0.0 && log[n].ask > 0.0 then j == n else PricedBefore(log, j, n)
  {
  }

  lemma FirstPriced(log: Log, n: nat, st: SymbolState)
    requires SourceLog(log) && n < |log| && Repeats(log, n, st) && st.lastTick == None
    ensures var (next, out) := DedupTicks(st, log[n].timeMsc, [log[n]]);
            Repeats(log, n + 1, next) && out == if GoesOut(log, n) then [log[n]] else []
  {
    assert [log[n]][1..] == [];
    if log[n].bid > 0.0 && log[n].ask > 0.0 {
      PricedBeforeNext(log, n, n);
      assert PricedBefore(log, n, n + 1) && !Differs(log[n], log[n]);
    } else {
      var after := n + 1;
      forall j ensures !PricedBefore(log, j, after) {
        PricedBeforeNext(log, n, j);
      }
    }
  }

  lemma NextPriced(log: Log, n: nat, st: SymbolState)
    requires SourceLog(log) && n < |log| && Repeats(log, n, st) && st.lastTick.Some?
    ensures var (next, out) := DedupTicks(st, log[n].timeMsc, [log[n]]);
            Repeats(log, n + 1, next) && out == if GoesOut(log, n) then [log[n]] else []
  {
    var j :| PricedBefore(log, j, n) && st.lastCursor == log[j].timeMsc && !Differs(st.lastTick.value, log[j]);
    assert forall i :: PricedBefore(log, i, n) ==> i == j;
    assert [log[n]][1..] == [];
    PricedBeforeNext(log, n, j);
    PricedBeforeNext(log, n, n);
  }

  lemma RepeatsStep(log: Log, n: nat, st: SymbolState)
    requires SourceLog(log) && n < |log| && Repeats(log, n, st)
    ensures var (next, out) := Deliver(st, log, Slice(n, n + 1));
            Repeats(log, n + 1, next) && out == if GoesOut(log, n) then [log[n]] else []
  {
    assert log[n..n + 1] == [log[n]];
    if st.lastTick == None {
      FirstPriced(log, n, st);
    } else {
      NextPriced(log, n, st);
    }
  }

  lemma DeliverFirst(log: Log, st: SymbolState, s: Slice, rest: seq<Slice>)
    requires Within(log, s) && AllWithin(log, rest)
    ensures AllWithin(log, [s] + rest)
    ensures var (next, out) := Deliver(st, log, s);
            DeliverAll(st, log, [s] + rest).1 == out + DeliverAll(next, log, rest).1
  {
    assert ([s] + rest)[1..] == rest;
  }

  lemma OutgoingFirst(log: Log, n: nat)
    requires n < |log|
    ensures Outgoing(log, n) == (if GoesOut(log, n) then [log[n]] else []) + Outgoing(log, n + 1)
    ensures Singles(log, n) == [Slice(n, n + 1)] + Singles(log, n + 1)
  {
  }

  lemma {:induction false} SinglesFrom(log: Log, n: nat, st: SymbolState)
    requires SourceLog(log) && n <= |log| && Repeats(log, n, st)
    ensures DeliverAll(st, log, Singles(log, n)).1 == Outgoing(log, n)
    decreases |log| - n
  {
    if n < |log| {
      var next := Deliver(st, log, Slice(n, n + 1)).0;
      RepeatsStep(log, n, st);
      SinglesFrom(log, n + 1, next);
      DeliverFirst(log, st, Slice(n, n + 1), Singles(log, n + 1));
      OutgoingFirst(log, n);
    }
  }

  /** A whole log sent tick by tick: exactly the priced ticks go out that differ from the priced tick before
      them in time, bid, ask, volume or flags, however many of them share a millisecond. */
  lemma TickByTickDelivery(log: Log)
    requires SourceLog(log)
    ensures Delivered(log, Singles(log, 0)) == Outgoing(log, 0)
  {
    SinglesFrom(log, 0, FRESH_SYMBOL);
  }
}
