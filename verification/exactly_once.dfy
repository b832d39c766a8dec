/** Exactly-once delivery of ticks. The service reads a log of ticks ordered by time and sends
    slices of it, each with the time of its last tick as cursor; after a reconnect it may replay,
    overlap or send stale slices. The theorems say what the deduplicating handler lets through. */
module ExactlyOnce {
  import opened Prelude
  import opened Wire
  import opened FeedHandler

  type Log = seq<WireTick>

  /** The source: times never decrease and are not negative. */
  ghost predicate SourceLog(log: Log) {
    && (forall i | 0 <= i < |log| :: log[i].timeMsc >= 0)
    && forall i, j | 0 <= i <= j < |log| :: log[i].timeMsc <= log[j].timeMsc
  }

  /** No two priced ticks share a millisecond. */
  ghost predicate DistinctPricedTimes(log: Log) {
    forall i, j | 0 <= i < j < |log| && Priced(log[i]) && Priced(log[j]) :: log[i].timeMsc < log[j].timeMsc
  }

  /** The ticks differ in what the source compares besides the time. */
  predicate Differs(a: WireTick, b: WireTick) {
    a.bid != b.bid || a.ask != b.ask || a.volume != b.volume || a.flags != b.flags
  }

  function PricedTicks(ticks: seq<WireTick>): seq<WireTick> {
    Filter((t: WireTick) => Priced(t), ticks)
  }

  /** The batch carrying log positions `lo` up to, not including, `hi`. */
  datatype Slice = Slice(lo: nat, hi: nat)

  predicate Within(log: Log, s: Slice) {
    s.lo < s.hi <= |log|
  }

  predicate AllWithin(log: Log, slices: seq<Slice>) {
    forall s | s in slices :: Within(log, s)
  }

  function Deliver(st: SymbolState, log: Log, s: Slice): (SymbolState, seq<WireTick>)
    requires Within(log, s)
  {
    DedupTicks(st, log[s.hi - 1].timeMsc, log[s.lo..s.hi])
  }

  function DeliverAll(st: SymbolState, log: Log, slices: seq<Slice>): (SymbolState, seq<WireTick>)
    requires AllWithin(log, slices)
    decreases |slices|
  {
    if slices == [] then (st, [])
    else
      assert slices[0] in slices;
      var (s1, out) := Deliver(st, log, slices[0]);
      var (s2, rest) := DeliverAll(s1, log, slices[1..]);
      (s2, out + rest)
  }

  // ---------- the simple form the handler refines ----------

  /** What a slice adds to a frontier `n`: its priced ticks at positions `n` and later. */
  function NewPart(log: Log, n: nat, s: Slice): seq<WireTick>
    requires Within(log, s)
  {
    if s.hi <= n then [] else PricedTicks(log[MaxInt(s.lo, n)..s.hi])
  }

  /** The frontier moves to the end of a slice that added something. */
  function NextFrontier(log: Log, n: nat, s: Slice): nat
    requires Within(log, s)
  {
    if NewPart(log, n, s) == [] then n else s.hi
  }

  function NewParts(log: Log, n: nat, slices: seq<Slice>): seq<WireTick>
    requires AllWithin(log, slices)
    decreases |slices|
  {
    if slices == [] then []
    else
      assert slices[0] in slices;
      NewPart(log, n, slices[0]) + NewParts(log, NextFrontier(log, n, slices[0]), slices[1..])
  }

  ghost predicate LastPriced(log: Log, n: nat, p: int) {
    && 0 <= p < n <= |log| && Priced(log[p])
    && forall k | p < k < n :: !Priced(log[k])
  }

  /** The handler's state is that of a frontier `n`. */
  ghost predicate At(log: Log, n: nat, st: SymbolState) {
    if n == 0 then st == FRESH_SYMBOL
    else
      && n <= |log| && st.lastCursor == log[n - 1].timeMsc
      && exists p :: LastPriced(log, n, p) && st.lastTick == Some(log[p])
  }

  lemma PricedSnoc(ticks: seq<WireTick>, t: WireTick)
    ensures PricedTicks(ticks + [t]) == if Priced(t) then PricedTicks(ticks) + [t] else PricedTicks(ticks)
  {
    FilterSnoc((t: WireTick) => Priced(t), ticks, t);
    assert PricedTicks(ticks) + [] == PricedTicks(ticks);
  }

  lemma {:induction false} LastOfPriced(log: Log, a: nat, b: nat) returns (p: nat)
    requires a <= b <= |log| && PricedTicks(log[a..b]) != []
    ensures a <= p && LastPriced(log, b, p)
    ensures var out := PricedTicks(log[a..b]); out[|out| - 1] == log[p]
    decreases b
  {
    PricedSnoc(log[a..b - 1], log[b - 1]);
    assert log[a..b] == log[a..b - 1] + [log[b - 1]];
    if Priced(log[b - 1]) {
      p := b - 1;
    } else {
      p := LastOfPriced(log, a, b - 1);
    }
  }

  /** Positions before the frontier are all recognised as delivered, later ones all kept if priced. */
  lemma KeptIsNew(log: Log, n: nat, st: SymbolState, a: nat, b: nat)
    requires SourceLog(log) && DistinctPricedTimes(log) && At(log, n, st) && a <= b <= |log|
    ensures b <= n ==> KeptTicks(st, log[a..b]) == []
    ensures n <= a ==> KeptTicks(st, log[a..b]) == PricedTicks(log[a..b])
  {
    if b <= n {
      forall t | t in log[a..b] ensures !Keeps(st, t) {
        var k :| a <= k < b && t == log[k];
        var p :| LastPriced(log, n, p) && st.lastTick == Some(log[p]);
        assert k < p && Priced(t) ==> t.timeMsc < log[p].timeMsc <= log[n - 1].timeMsc;
      }
      FilterNone(t => Keeps(st, t), log[a..b]);
    }
    if n <= a {
      forall t | t in log[a..b] ensures Keeps(st, t) == Priced(t) {
        var k :| a <= k < b && t == log[k];
        if n > 0 {
          var p :| LastPriced(log, n, p) && st.lastTick == Some(log[p]);
          assert log[n - 1].timeMsc <= t.timeMsc;
          assert Priced(t) ==> log[p].timeMsc < t.timeMsc;
        }
      }
      FilterAgree(t => Keeps(st, t), (t: WireTick) => Priced(t), log[a..b]);
    }
  }

  lemma KeptConcat(st: SymbolState, a: seq<WireTick>, b: seq<WireTick>)
    ensures KeptTicks(st, a + b) == KeptTicks(st, a) + KeptTicks(st, b)
  {
    FilterConcat(t => Keeps(st, t), a, b);
  }

  lemma KeptIsNewPart(log: Log, n: nat, st: SymbolState, s: Slice)
    requires SourceLog(log) && DistinctPricedTimes(log) && At(log, n, st) && Within(log, s)
    ensures KeptTicks(st, log[s.lo..s.hi]) == NewPart(log, n, s)
  {
    var m := if n < s.lo then s.lo else if s.hi < n then s.hi else n;
    assert log[s.lo..s.hi] == log[s.lo..m] + log[m..s.hi];
    KeptConcat(st, log[s.lo..m], log[m..s.hi]);
    KeptIsNew(log, n, st, s.lo, m);
    KeptIsNew(log, n, st, m, s.hi);
    assert m == s.hi ==> log[m..s.hi] == [];
    assert s.lo == m ==> log[s.lo..m] == [];
  }

  /** One batch: the handler emits exactly what lies past its frontier, and moves as the frontier does. */
  lemma DeliverRefines(log: Log, n: nat, st: SymbolState, s: Slice)
    requires SourceLog(log) && DistinctPricedTimes(log) && At(log, n, st) && Within(log, s)
    ensures Deliver(st, log, s).1 == NewPart(log, n, s)
    ensures At(log, NextFrontier(log, n, s), Deliver(st, log, s).0)
  {
    var out := NewPart(log, n, s);
    KeptIsNewPart(log, n, st, s);
    if log[s.hi - 1].timeMsc < st.lastCursor {
      assert s.hi <= n;
    } else if out != [] {
      var p := LastOfPriced(log, MaxInt(s.lo, n), s.hi);
      assert Deliver(st, log, s).0 == SymbolState(log[s.hi - 1].timeMsc, Some(log[p]));
      assert LastPriced(log, s.hi, p);
    }
  }

  /** Every run of slices, replays and gaps included: the handler refines the frontier machine. */
  lemma {:induction false} DeliverAllRefines(log: Log, n: nat, st: SymbolState, slices: seq<Slice>)
    requires SourceLog(log) && DistinctPricedTimes(log) && At(log, n, st) && AllWithin(log, slices)
    ensures DeliverAll(st, log, slices).1 == NewParts(log, n, slices)
    decreases |slices|
  {
    if slices != [] {
      assert slices[0] in slices;
      DeliverRefines(log, n, st, slices[0]);
      DeliverAllRefines(log, NextFrontier(log, n, slices[0]), Deliver(st, log, slices[0]).0, slices[1..]);
    }
  }

  // ---------- no gap: exactly once ----------

  function Furthest(f: nat, slices: seq<Slice>): nat
    decreases |slices|
  {
    if slices == [] then f else Furthest(MaxInt(f, slices[0].hi), slices[1..])
  }

  /** No slice starts past the furthest position sent so far. */
  predicate Gapless(f: nat, slices: seq<Slice>)
    decreases |slices|
  {
    slices == [] || (slices[0].lo <= f && Gapless(MaxInt(f, slices[0].hi), slices[1..]))
  }

  lemma {:induction false} FurthestBounds(log: Log, f: nat, slices: seq<Slice>)
    requires f <= |log| && AllWithin(log, slices)
    ensures f <= Furthest(f, slices) <= |log|
    decreases |slices|
  {
    if slices != [] {
      assert slices[0] in slices;
      FurthestBounds(log, MaxInt(f, slices[0].hi), slices[1..]);
    }
  }

  lemma PricedSplit(log: Log, a: nat, b: nat, c: nat)
    requires a <= b <= c <= |log|
    ensures PricedTicks(log[a..c]) == PricedTicks(log[a..b]) + PricedTicks(log[b..c])
  {
    assert log[a..c] == log[a..b] + log[b..c];
    FilterConcat((t: WireTick) => Priced(t), log[a..b], log[b..c]);
  }

  lemma NewPartInside(log: Log, n: nat, f: nat, s: Slice)
    requires n <= f <= |log| && Within(log, s) && s.lo <= f && PricedTicks(log[n..f]) == []
    ensures var g := MaxInt(f, s.hi);
            PricedTicks(log[n..g]) == NewPart(log, n, s)
            && (NewPart(log, n, s) != [] ==> g == s.hi)
  {
    var m := MaxInt(s.lo, n);
    if s.hi <= f {
      if n < s.hi {
        PricedSplit(log, n, m, f);
        PricedSplit(log, m, s.hi, f);
      }
    } else {
      PricedSplit(log, n, m, f);
      PricedSplit(log, n, m, s.hi);
    }
  }

  lemma {:induction false} GaplessDelivery(log: Log, n: nat, f: nat, slices: seq<Slice>)
    requires n <= f <= |log| && AllWithin(log, slices) && Gapless(f, slices)
    requires PricedTicks(log[n..f]) == []
    ensures f <= Furthest(f, slices) <= |log|
    ensures NewParts(log, n, slices) == PricedTicks(log[n..Furthest(f, slices)])
    decreases |slices|
  {
    FurthestBounds(log, f, slices);
    if slices != [] {
      var s, rest := slices[0], slices[1..];
      assert s in slices;
      var g := MaxInt(f, s.hi);
      NewPartInside(log, n, f, s);
      FurthestBounds(log, g, rest);
      if NewPart(log, n, s) == [] {
        GaplessDelivery(log, n, g, rest);
      } else {
        GaplessDelivery(log, g, g, rest);
        PricedSplit(log, n, g, Furthest(g, rest));
      }
    }
  }

  /** What the handler has delivered, from a fresh state. */
  function Delivered(log: Log, slices: seq<Slice>): seq<WireTick>
    requires AllWithin(log, slices)
  {
    DeliverAll(FRESH_SYMBOL, log, slices).1
  }

  /** The promise: after any gapless run, the delivered ticks are the priced ticks of the log up to
      the furthest position sent, each once and in order. */
  ghost predicate DeliversExactlyOnce(log: Log, slices: seq<Slice>)
    requires AllWithin(log, slices)
  {
    Furthest(0, slices) <= |log| && Delivered(log, slices) == PricedTicks(log[..Furthest(0, slices)])
  }

  lemma ExactlyOnceDelivery(log: Log, slices: seq<Slice>)
    requires SourceLog(log) && DistinctPricedTimes(log)
    requires AllWithin(log, slices) && Gapless(0, slices)
    ensures DeliversExactlyOnce(log, slices)
  {
    DeliverAllRefines(log, 0, FRESH_SYMBOL, slices);
    GaplessDelivery(log, 0, 0, slices);
    assert log[0..Furthest(0, slices)] == log[..Furthest(0, slices)];
  }

  // ---------- the converse: two priced ticks in one millisecond break it ----------

  lemma {:induction false} NextPriced(log: Log, i: nat, j: nat) returns (k: nat)
    requires i < j < |log| && Priced(log[j])
    ensures i < k <= j && Priced(log[k]) && forall m | i < m < k :: !Priced(log[m])
    decreases j - i
  {
    if Priced(log[i + 1]) {
      k := i + 1;
    } else {
      k := NextPriced(log, i + 1, j);
    }
  }

  /** The first slice of a run, starting at the head of the log, is passed through whole. */
  lemma FirstSlice(log: Log, hi: nat)
    requires SourceLog(log) && 0 < hi <= |log| && Priced(log[hi - 1])
    ensures Deliver(FRESH_SYMBOL, log, Slice(0, hi)) ==
            (SymbolState(log[hi - 1].timeMsc, Some(log[hi - 1])), PricedTicks(log[..hi]))
  {
    var ticks := log[0..hi];
    assert ticks == log[..hi] == log[..hi - 1] + [log[hi - 1]];
    forall t | t in ticks ensures Keeps(FRESH_SYMBOL, t) == Priced(t) {
      var k :| 0 <= k < hi && t == log[k];
      assert log[k].timeMsc >= 0;
    }
    FilterAgree(t => Keeps(FRESH_SYMBOL, t), (t: WireTick) => Priced(t), ticks);
    FilterSnoc((t: WireTick) => Priced(t), log[..hi - 1], log[hi - 1]);
  }

  lemma TwoSlices(log: Log, a: Slice, b: Slice)
    requires Within(log, a) && Within(log, b)
    ensures var (st, first) := Deliver(FRESH_SYMBOL, log, a);
            Delivered(log, [a, b]) == first + Deliver(st, log, b).1
    ensures Furthest(0, [a, b]) == MaxInt(a.hi, b.hi)
    ensures Gapless(0, [a, b]) <==> a.lo == 0 && b.lo <= a.hi
  {
    var (st, first) := Deliver(FRESH_SYMBOL, log, a);
    assert [a, b][1..] == [b] && [b][1..] == [];
    assert Furthest(MaxInt(0, a.hi), [b]) == MaxInt(a.hi, b.hi);
    assert Gapless(MaxInt(0, a.hi), [b]) <==> b.lo <= a.hi;
    assert DeliverAll(st, log, [b]).1 == Deliver(st, log, b).1 + [];
  }

  /** Two priced ticks with one time and different contents: a replay delivers the earlier one twice. */
  lemma ReplayDuplicates(log: Log, i: nat, k: nat)
    requires SourceLog(log) && i < k < |log| && Priced(log[i]) && Priced(log[k])
    requires log[i].timeMsc == log[k].timeMsc && Differs(log[i], log[k])
    ensures var run := [Slice(0, k + 1), Slice(i, k + 1)];
            AllWithin(log, run) && Gapless(0, run) && !DeliversExactlyOnce(log, run)
  {
    var a, b := Slice(0, k + 1), Slice(i, k + 1);
    FirstSlice(log, k + 1);
    TwoSlices(log, a, b);
    var st := SymbolState(log[k].timeMsc, Some(log[k]));
    assert log[i..k + 1][0] == log[i] && log[i] in log[i..k + 1] && Keeps(st, log[i]);
    assert log[i] in KeptTicks(st, log[i..k + 1]);
  }

  /** Priced ticks with the contents of the last one are all taken for it. */
  lemma RepeatsAreDropped(log: Log, i: nat, k: nat)
    requires i < k < |log| && log[i].timeMsc == log[k].timeMsc && !Differs(log[i], log[k])
    requires forall m | i < m < k :: !Priced(log[m])
    ensures KeptTicks(SymbolState(log[i].timeMsc, Some(log[i])), log[i + 1..k + 1]) == []
  {
    var st := SymbolState(log[i].timeMsc, Some(log[i]));
    forall t | t in log[i + 1..k + 1] ensures !Keeps(st, t) {
      var m :| i < m <= k && t == log[m];
    }
    FilterNone(t => Keeps(st, t), log[i + 1..k + 1]);
  }

  lemma MorePriced(log: Log, i: nat, k: nat)
    requires i <= k < |log| && Priced(log[k])
    ensures PricedTicks(log[..k + 1]) != PricedTicks(log[..i])
  {
    assert log[..k + 1] == log[..i] + log[i..k] + [log[k]];
    FilterSnoc((t: WireTick) => Priced(t), log[..i] + log[i..k], log[k]);
    FilterConcat((t: WireTick) => Priced(t), log[..i], log[i..k]);
  }

  /** Two priced ticks with one time and equal contents, sent in separate batches: the second is lost. */
  lemma SplitLoses(log: Log, i: nat, k: nat)
    requires SourceLog(log) && i < k < |log| && Priced(log[i]) && Priced(log[k])
    requires forall m | i < m < k :: !Priced(log[m])
    requires log[i].timeMsc == log[k].timeMsc && !Differs(log[i], log[k])
    ensures var run := [Slice(0, i + 1), Slice(i + 1, k + 1)];
            AllWithin(log, run) && Gapless(0, run) && !DeliversExactlyOnce(log, run)
  {
    var a, b := Slice(0, i + 1), Slice(i + 1, k + 1);
    FirstSlice(log, i + 1);
    TwoSlices(log, a, b);
    RepeatsAreDropped(log, i, k);
    assert Delivered(log, [a, b]) == PricedTicks(log[..i + 1]) + [];
    MorePriced(log, i + 1, k);
  }

  /** Exactly-once holds of every gapless run over a source log if and only if no two of its priced
      ticks share a millisecond. */
  lemma ExactlyOnceCharacterised(log: Log)
    requires SourceLog(log)
    ensures DistinctPricedTimes(log) <==>
            forall slices | AllWithin(log, slices) && Gapless(0, slices) :: DeliversExactlyOnce(log, slices)
  {
    if DistinctPricedTimes(log) {
      forall slices | AllWithin(log, slices) && Gapless(0, slices)
        ensures DeliversExactlyOnce(log, slices)
      {
        ExactlyOnceDelivery(log, slices);
      }
    } else {
      var i, j :| 0 <= i < j < |log| && Priced(log[i]) && Priced(log[j]) && log[i].timeMsc >= log[j].timeMsc;
      var k := NextPriced(log, i, j);
      assert log[i].timeMsc <= log[k].timeMsc <= log[j].timeMsc;
      if Differs(log[i], log[k]) {
        ReplayDuplicates(log, i, k);
      } else {
        SplitLoses(log, i, k);
      }
    }
  }

  // ---------- gaps allowed: no duplicate, no reordering ----------

  /** `out` is `log` read at the strictly increasing priced positions `idx`, all in `n..top`. */
  ghost predicate ReadsAt(log: Log, n: nat, top: nat, idx: seq<nat>, out: seq<WireTick>) {
    && |idx| == |out|
    && (forall i | 0 <= i < |idx| :: n <= idx[i] < top <= |log| && out[i] == log[idx[i]] && Priced(out[i]))
    && forall i, j | 0 <= i < j < |idx| :: idx[i] < idx[j]
  }

  lemma ReadsAtConcat(log: Log, a: nat, b: nat, c: nat, i: seq<nat>, j: seq<nat>, x: seq<WireTick>, y: seq<WireTick>)
    requires a <= b <= c <= |log| && ReadsAt(log, a, b, i, x) && ReadsAt(log, b, c, j, y)
    ensures ReadsAt(log, a, c, i + j, x + y)
  {
  }

  lemma {:induction false} PricedPositions(log: Log, a: nat, b: nat) returns (idx: seq<nat>)
    requires a <= b <= |log|
    ensures ReadsAt(log, a, b, idx, PricedTicks(log[a..b]))
    decreases b - a
  {
    if a == b {
      idx := [];
    } else {
      var rest := PricedPositions(log, a + 1, b);
      PricedSplit(log, a, a + 1, b);
      assert log[a..a + 1] == [log[a]];
      if Priced(log[a]) {
        ReadsAtConcat(log, a, a + 1, b, [a], rest, [log[a]], PricedTicks(log[a + 1..b]));
        idx := [a] + rest;
      } else {
        idx := rest;
      }
    }
  }

  lemma {:induction false} NewPartsPositions(log: Log, n: nat, slices: seq<Slice>) returns (idx: seq<nat>)
    requires n <= |log| && AllWithin(log, slices)
    ensures ReadsAt(log, n, |log|, idx, NewParts(log, n, slices))
    decreases |slices|
  {
    if slices == [] {
      idx := [];
    } else {
      var s := slices[0];
      assert s in slices;
      var next := NextFrontier(log, n, s);
      var rest := NewPartsPositions(log, next, slices[1..]);
      if NewPart(log, n, s) == [] {
        idx := rest;
      } else {
        var part := PricedPositions(log, MaxInt(s.lo, n), s.hi);
        ReadsAtConcat(log, n, next, |log|, part, rest, NewPart(log, n, s), NewParts(log, next, slices[1..]));
        idx := part + rest;
      }
    }
  }

  /** Whatever is replayed, reordered or lost, the delivered ticks are a subsequence of the log with
      strictly increasing times: nothing twice and nothing out of order. */
  lemma DeliveredIsSubsequence(log: Log, slices: seq<Slice>) returns (idx: seq<nat>)
    requires SourceLog(log) && DistinctPricedTimes(log) && AllWithin(log, slices)
    ensures ReadsAt(log, 0, |log|, idx, Delivered(log, slices))
    ensures var out := Delivered(log, slices);
            forall i, j | 0 <= i < j < |out| :: out[i].timeMsc < out[j].timeMsc
  {
    DeliverAllRefines(log, 0, FRESH_SYMBOL, slices);
    idx := NewPartsPositions(log, 0, slices);
    var out := Delivered(log, slices);
    forall i, j | 0 <= i < j < |out| ensures out[i].timeMsc < out[j].timeMsc {
      assert out[i] == log[idx[i]] && out[j] == log[idx[j]] && idx[i] < idx[j];
    }
  }

  // ---------- interleaved with other symbols, bars and control messages ----------

  function Batches(symbol: string, log: Log, slices: seq<Slice>): seq<Inbound>
    requires AllWithin(log, slices)
  {
    seq(|slices|, i requires 0 <= i < |slices| =>
      assert slices[i] in slices;
      TickBatch(symbol, log[slices[i].hi - 1].timeMsc, log[slices[i].lo..slices[i].hi]))
  }

  function TicksOf(m: Inbound): seq<WireTick> {
    if m.TickBatch? then m.ticks else []
  }

  function EmittedTicks(events: seq<Inbound>): seq<WireTick> {
    if events == [] then [] else TicksOf(events[0]) + EmittedTicks(events[1..])
  }

  lemma EmittedCons(e: Option<Inbound>, events: seq<Inbound>)
    ensures EmittedTicks(OptionSeq(e) + events) == (if e.Some? then TicksOf(e.value) else []) + EmittedTicks(events)
  {
    if e.Some? {
      assert (OptionSeq(e) + events)[1..] == events;
    } else {
      assert OptionSeq(e) + events == events;
    }
  }

  lemma {:induction false} EmittedByBatches(st: HandlerState, symbol: string, log: Log, slices: seq<Slice>)
    requires AllWithin(log, slices)
    ensures EmittedTicks(HandleAll(st, Batches(symbol, log, slices)).1) ==
            DeliverAll(TicksFor(st.ticks, symbol), log, slices).1
    decreases |slices|
  {
    if slices != [] {
      var s, rest, ms := slices[0], slices[1..], Batches(symbol, log, slices);
      assert s in slices;
      assert ms[1..] == Batches(symbol, log, rest);
      var (st1, e) := Handle(st, ms[0]);
      var (next, out) := Deliver(TicksFor(st.ticks, symbol), log, s);
      assert TicksFor(st1.ticks, symbol) == next;
      assert (if e.Some? then TicksOf(e.value) else []) == out;
      EmittedByBatches(st1, symbol, log, rest);
      EmittedCons(e, HandleAll(st1, ms[1..]).1);
    }
  }

  /** Interleaved: in any run of messages whatever, if one symbol's batches are a gapless run
      of slices of its log, the ticks emitted for that symbol are exactly its priced ticks, once each. */
  lemma ExactlyOnceInterleaved(ms: seq<Inbound>, st: HandlerState, symbol: string, log: Log, slices: seq<Slice>)
    requires symbol !in st.ticks
    requires SourceLog(log) && DistinctPricedTimes(log) && AllWithin(log, slices) && Gapless(0, slices)
    requires Filter((m: Inbound) => ChannelOf(m) == TickChannel(symbol), ms) == Batches(symbol, log, slices)
    ensures Furthest(0, slices) <= |log|
    ensures EmittedTicks(Filter((m: Inbound) => ChannelOf(m) == TickChannel(symbol), HandleAll(st, ms).1)) ==
            PricedTicks(log[..Furthest(0, slices)])
  {
    var on := (m: Inbound) => ChannelOf(m) == TickChannel(symbol);
    NonInterference(st, ms, TickChannel(symbol));
    FilterAgree(on, (m: Inbound) => ChannelOf(m) == TickChannel(symbol), ms);
    FilterAgree(on, (m: Inbound) => ChannelOf(m) == TickChannel(symbol), HandleAll(st, ms).1);
    EmittedByBatches(st, symbol, log, slices);
    ExactlyOnceDelivery(log, slices);
  }
}
