/** Closing bars from a stream of revisions: a bar goes out when the first newer one arrives, in its last
    revision. The processor keeps one bar per bar type. */
module ClosedBars {
  import opened Prelude

  datatype BarData = BarData(time: int, open: real, high: real, low: real, close: real, volume: int)

  /** A published bar; a volume of -1 means none. */
  datatype OutBar = OutBar(bar: BarData, tsInit: int, isRevision: bool)

  function WithoutSentinel(bar: BarData): BarData {
    if bar.volume == -1 then bar.(volume := 0) else bar
  }

  /** One bar received, by a clock reading `now`; `closes` is when its period ends. */
  datatype Received = Received(bar: BarData, closes: int, now: int)

  /** Every revision published, bars published once closed, or those also complete by the clock. */
  datatype Mode = Revised | Live | Historical

  // ---------- one bar type ----------

  function PreviousTime(last: Option<Received>): int {
    if last.Some? then last.value.bar.time else 0
  }

  function Process(last: Option<Received>, r: Received, mode: Mode): (Option<Received>, Option<OutBar>) {
    if r.bar.time < PreviousTime(last) then (last, None)
    else
      var isNew := r.bar.time > PreviousTime(last);
      (Some(r),
       if mode == Revised then Some(OutBar(WithoutSentinel(r.bar), r.now, !isNew))
       else if last == None || !isNew then None
       else if mode == Live then Some(OutBar(WithoutSentinel(last.value.bar), r.now, false))
       else if last.value.closes >= r.now then None
       else Some(OutBar(WithoutSentinel(last.value.bar), last.value.closes, false)))
  }

  /** The bar kept and everything published, in order. */
  function ProcessAll(rs: seq<Received>, mode: Mode): (Option<Received>, seq<OutBar>) {
    if rs == [] then (None, [])
    else
      var n := |rs| - 1;
      var (last, outs) := ProcessAll(rs[..n], mode);
      var (last', out) := Process(last, rs[n], mode);
      (last', outs + OptionSeq(out))
  }

  lemma ProcessSnoc(rs: seq<Received>, r: Received, mode: Mode)
    ensures var (last, outs) := ProcessAll(rs, mode);
            ProcessAll(rs + [r], mode) == (Process(last, r, mode).0, outs + OptionSeq(Process(last, r, mode).1))
    ensures var (last, outs) := ProcessAll(rs, mode);
            Process(last, r, mode) == (last, None) ==> ProcessAll(rs + [r], mode) == (last, outs)
  {
    assert (rs + [r])[..|rs|] == rs;
    assert ProcessAll(rs, mode).1 + [] == ProcessAll(rs, mode).1;
  }

  function Published(rs: seq<Received>, mode: Mode): seq<OutBar> {
    ProcessAll(rs, mode).1
  }

  // ---------- the stream it comes from ----------

  /** A bar is in order when its time is not negative and nothing received before it is newer. */
  ghost predicate InOrder(rs: seq<Received>, i: nat)
    requires i < |rs|
  {
    rs[i].bar.time >= 0 && forall j | 0 <= j < i :: rs[j].bar.time <= rs[i].bar.time
  }

  ghost function Kept(rs: seq<Received>): seq<Received> {
    if rs == [] then []
    else
      var n := |rs| - 1;
      Kept(rs[..n]) + if InOrder(rs, n) then [rs[n]] else []
  }

  /** One bar per time: its last revision. */
  function LastRevisions(kept: seq<Received>): seq<Received> {
    if kept == [] then []
    else
      var n := |kept| - 1;
      var before := LastRevisions(kept[..n]);
      if before != [] && before[|before| - 1].bar.time == kept[n].bar.time
      then before[..|before| - 1] + [kept[n]]
      else before + [kept[n]]
  }

  ghost predicate Sorted(s: seq<Received>) {
    forall i, j | 0 <= i < j < |s| :: s[i].bar.time <= s[j].bar.time
  }

  /** `k` is the last index with the time of `kept[k]`. */
  ghost predicate LastOfTime(kept: seq<Received>, k: int) {
    0 <= k < |kept| && forall j | k < j < |kept| :: kept[j].bar.time != kept[k].bar.time
  }

  /** `r` is the last bar of its time. */
  ghost predicate FinalRevision(kept: seq<Received>, r: Received) {
    exists k :: LastOfTime(kept, k) && kept[k] == r
  }

  lemma FinalRevisionSnoc(kept: seq<Received>, r: Received, x: Received)
    ensures FinalRevision(kept + [r], x) <==> x == r || (FinalRevision(kept, x) && x.bar.time != r.bar.time)
  {
    var all, n := kept + [r], |kept|;
    assert all[n] == r && LastOfTime(all, n);
    assert forall k | 0 <= k < n :: all[k] == kept[k];
    assert forall k | 0 <= k < n :: LastOfTime(all, k) <==> LastOfTime(kept, k) && kept[k].bar.time != r.bar.time;
    if FinalRevision(kept, x) && x.bar.time != r.bar.time {
      var k :| LastOfTime(kept, k) && kept[k] == x;
      assert LastOfTime(all, k);
    }
  }

  ghost predicate Increasing(s: seq<Received>) {
    forall i, j | 0 <= i < j < |s| :: s[i].bar.time < s[j].bar.time
  }

  lemma RevisionsSnoc(kept: seq<Received>, r: Received)
    ensures LastRevisions(kept + [r]) ==
            var before := LastRevisions(kept);
            var same := before != [] && before[|before| - 1].bar.time == r.bar.time;
            (if same then before[..|before| - 1] else before) + [r]
  {
    assert (kept + [r])[..|kept|] == kept;
  }

  /** `g` has strictly increasing times and exactly the last bar of each time; it ends as `kept` does. */
  ghost predicate Grouped(kept: seq<Received>, g: seq<Received>) {
    && Increasing(g)
    && (forall r :: r in g <==> FinalRevision(kept, r))
    && (kept == [] <==> g == [])
    && (kept != [] ==> g[|g| - 1] == kept[|kept| - 1])
  }

  lemma {:induction false} LastRevisionsMeaning(kept: seq<Received>)
    requires Sorted(kept)
    ensures Grouped(kept, LastRevisions(kept))
  {
    if kept != [] {
      var n := |kept| - 1;
      assert kept == kept[..n] + [kept[n]];
      LastRevisionsMeaning(kept[..n]);
      RevisionsSnoc(kept[..n], kept[n]);
      GroupStep(kept[..n], LastRevisions(kept[..n]), kept[n]);
    }
  }

  lemma GroupStep(front: seq<Received>, before: seq<Received>, r: Received)
    requires Grouped(front, before) && Sorted(front + [r])
    ensures var same := before != [] && before[|before| - 1].bar.time == r.bar.time;
            Grouped(front + [r], (if same then before[..|before| - 1] else before) + [r])
  {
    var same := before != [] && before[|before| - 1].bar.time == r.bar.time;
    var rest := if same then before[..|before| - 1] else before;
    assert front != [] ==> (front + [r])[|front| - 1].bar.time <= (front + [r])[|front|].bar.time;
    assert forall i | 0 <= i < |rest| :: rest[i].bar.time < r.bar.time;
    forall x ensures x in rest + [r] <==> FinalRevision(front + [r], x) {
      FinalRevisionSnoc(front, r, x);
      assert x in before <==> FinalRevision(front, x);
      assert same ==> before == rest + [before[|before| - 1]];
    }
  }

  lemma {:induction false} KeptIsSorted(rs: seq<Received>)
    ensures Sorted(Kept(rs))
    ensures forall r | r in Kept(rs) :: r in rs && r.bar.time >= 0
  {
    if rs != [] {
      KeptIsSorted(rs[..|rs| - 1]);
    }
  }

  // ---------- main results for one bar type ----------

  /** The bar kept is the last in order, and no bar received so far is newer. */
  ghost predicate Tracks(rs: seq<Received>, last: Option<Received>) {
    && (last == None <==> Kept(rs) == [])
    && (last.Some? ==> last.value == Kept(rs)[|Kept(rs)| - 1])
    && PreviousTime(last) >= 0
    && (forall j | 0 <= j < |rs| :: rs[j].bar.time <= PreviousTime(last))
    && (last.Some? ==> last.value in rs)
  }

  lemma TracksStep(rs: seq<Received>, r: Received, last: Option<Received>, mode: Mode)
    requires Tracks(rs, last)
    ensures Tracks(rs + [r], Process(last, r, mode).0)
  {
    KeptSnoc(rs, r, last);
    var all := rs + [r];
    assert forall j | 0 <= j < |rs| :: all[j] == rs[j];
    assert all[|rs|] == r && r in all;
  }

  lemma KeptSnoc(rs: seq<Received>, r: Received, last: Option<Received>)
    requires Tracks(rs, last)
    ensures InOrder(rs + [r], |rs|) <==> r.bar.time >= PreviousTime(last)
    ensures Kept(rs + [r]) == if InOrder(rs + [r], |rs|) then Kept(rs) + [r] else Kept(rs)
  {
    var all := rs + [r];
    assert all[..|rs|] == rs && all[|rs|] == r;
    assert forall j | 0 <= j < |rs| :: all[j] == rs[j];
    if last.Some? {
      var j :| 0 <= j < |rs| && rs[j] == last.value;
      assert all[j] == last.value;
    }
  }

  lemma {:induction false} KeepsLatest(rs: seq<Received>, mode: Mode)
    ensures Tracks(rs, ProcessAll(rs, mode).0)
  {
    if rs != [] {
      var front, r := rs[..|rs| - 1], rs[|rs| - 1];
      assert rs == front + [r];
      KeepsLatest(front, mode);
      TracksStep(front, r, ProcessAll(front, mode).0, mode);
    }
  }

  lemma InOrderNext(rs: seq<Received>, r: Received, mode: Mode)
    ensures InOrder(rs + [r], |rs|) <==> r.bar.time >= PreviousTime(ProcessAll(rs, mode).0)
    ensures Kept(rs + [r]) == if InOrder(rs + [r], |rs|) then Kept(rs) + [r] else Kept(rs)
  {
    KeepsLatest(rs, mode);
    KeptSnoc(rs, r, ProcessAll(rs, mode).0);
  }

  /** An older bar changes nothing and publishes nothing, in any mode. */
  lemma OlderBarsIgnored(rs: seq<Received>, r: Received, mode: Mode)
    requires !InOrder(rs + [r], |rs|)
    ensures ProcessAll(rs + [r], mode) == ProcessAll(rs, mode)
  {
    InOrderNext(rs, r, mode);
    ProcessSnoc(rs, r, mode);
  }

  /** The published bar has the received bar's own time, prices and volume; no volume counts as zero. */
  predicate Shows(b: BarData, r: BarData) {
    && b.time == r.time && b.open == r.open && b.high == r.high && b.low == r.low && b.close == r.close
    && b.volume == if r.volume == -1 then 0 else r.volume
  }

  /** One bar per time: its first revision. */
  function FirstRevisions(kept: seq<Received>): seq<Received> {
    if kept == [] then []
    else
      var n := |kept| - 1;
      var before := FirstRevisions(kept[..n]);
      if before != [] && before[|before| - 1].bar.time == kept[n].bar.time then before else before + [kept[n]]
  }

  lemma FirstRevisionsSnoc(kept: seq<Received>, r: Received)
    ensures FirstRevisions(kept + [r]) ==
            var before := FirstRevisions(kept);
            if before != [] && before[|before| - 1].bar.time == r.bar.time then before else before + [r]
  {
    assert (kept + [r])[..|kept|] == kept;
  }

  /** `k` is the first index with the time of `kept[k]`. */
  ghost predicate FirstOfTime(kept: seq<Received>, k: int) {
    0 <= k < |kept| && forall j | 0 <= j < k :: kept[j].bar.time != kept[k].bar.time
  }

  ghost predicate OpensTime(kept: seq<Received>, r: Received) {
    exists k :: FirstOfTime(kept, k) && kept[k] == r
  }

  lemma OpensTimeSnoc(kept: seq<Received>, r: Received, x: Received)
    ensures OpensTime(kept + [r], x) <==>
            OpensTime(kept, x) || (x == r && forall j | 0 <= j < |kept| :: kept[j].bar.time != r.bar.time)
  {
    var all, n := kept + [r], |kept|;
    assert all[n] == r;
    assert forall k | 0 <= k < n :: all[k] == kept[k];
    assert forall k | 0 <= k < n :: FirstOfTime(all, k) <==> FirstOfTime(kept, k);
    assert FirstOfTime(all, n) <==> forall j | 0 <= j < n :: kept[j].bar.time != r.bar.time;
    if OpensTime(kept, x) {
      var k :| FirstOfTime(kept, k) && kept[k] == x;
      assert FirstOfTime(all, k);
    }
  }

  /** `f` has strictly increasing times and exactly the first bar of each time; its last time is that of `kept`. */
  ghost predicate Opening(kept: seq<Received>, f: seq<Received>) {
    && Increasing(f)
    && (forall r :: r in f <==> OpensTime(kept, r))
    && (kept == [] <==> f == [])
    && (kept != [] ==> f[|f| - 1].bar.time == kept[|kept| - 1].bar.time)
  }

  lemma {:induction false} FirstRevisionsMeaning(kept: seq<Received>)
    requires Sorted(kept)
    ensures Opening(kept, FirstRevisions(kept))
  {
    if kept != [] {
      var n := |kept| - 1;
      assert kept == kept[..n] + [kept[n]];
      FirstRevisionsMeaning(kept[..n]);
      FirstRevisionsSnoc(kept[..n], kept[n]);
      OpeningStep(kept[..n], FirstRevisions(kept[..n]), kept[n]);
    }
  }

  lemma OpeningStep(front: seq<Received>, f: seq<Received>, r: Received)
    requires Opening(front, f) && Sorted(front + [r])
    ensures Opening(front + [r], if f != [] && f[|f| - 1].bar.time == r.bar.time then f else f + [r])
  {
    var all := front + [r];
    var same := f != [] && f[|f| - 1].bar.time == r.bar.time;
    assert forall j | 0 <= j < |front| :: all[j] == front[j];
    assert all[|front|] == r;
    assert front != [] ==> all[|front| - 1].bar.time <= all[|front|].bar.time;
    forall j | 0 <= j < |front| ensures front[j].bar.time <= front[|front| - 1].bar.time {
      assert all[j].bar.time <= all[|front| - 1].bar.time;
    }
    assert same ==> front[|front| - 1].bar.time == r.bar.time;
    assert !same ==> forall j | 0 <= j < |front| :: front[j].bar.time < r.bar.time;
    forall x ensures x in (if same then f else f + [r]) <==> OpensTime(all, x) {
      OpensTimeSnoc(front, r, x);
      assert x in f <==> OpensTime(front, x);
    }
  }

  /** What is published of the groups whose last revisions are `g` and first `f`: every group but the last,
      which is still open, in its last revision, at the clock reading of the first bar of the next group. */
  ghost predicate Stream(outs: seq<OutBar>, last: Option<Received>, g: seq<Received>, f: seq<Received>) {
    && |f| == |g| == |outs| + (if last.Some? then 1 else 0)
    && (last == None ==> outs == []) && (last.Some? ==> g[|g| - 1] == last.value)
    && (forall i | 0 <= i < |outs| ::
          Shows(outs[i].bar, g[i].bar) && outs[i].tsInit == f[i + 1].now && !outs[i].isRevision)
    && forall i | 0 <= i < |g| :: f[i].bar.time == g[i].bar.time
  }

  /** The closed-bar stream: the bars published are the in-order stream grouped by time, each group in its last
      revision, published by the first bar of the next; the last group is the bar still open. */
  lemma {:induction false} ClosedBarStream(rs: seq<Received>)
    ensures var (last, outs) := ProcessAll(rs, Live);
            Stream(outs, last, LastRevisions(Kept(rs)), FirstRevisions(Kept(rs)))
  {
    if rs != [] {
      var n := |rs| - 1;
      var front, r := rs[..n], rs[n];
      assert rs == front + [r];
      ClosedBarStream(front);
      ClosedStep(front, r);
    }
  }

  lemma ClosedStep(rs: seq<Received>, r: Received)
    requires var (last, outs) := ProcessAll(rs, Live);
             Stream(outs, last, LastRevisions(Kept(rs)), FirstRevisions(Kept(rs)))
    ensures var (last, outs) := ProcessAll(rs + [r], Live);
            Stream(outs, last, LastRevisions(Kept(rs + [r])), FirstRevisions(Kept(rs + [r])))
  {
    ProcessSnoc(rs, r, Live);
    InOrderNext(rs, r, Live);
    var (last, outs) := ProcessAll(rs, Live);
    if InOrder(rs + [r], |rs|) {
      RevisionsSnoc(Kept(rs), r);
      FirstRevisionsSnoc(Kept(rs), r);
      CloseOne(last, outs, LastRevisions(Kept(rs)), FirstRevisions(Kept(rs)), r);
    } else {
      OlderBarsIgnored(rs, r, Live);
    }
  }

  /** One bar in order against the grouped stream: it replaces the open bar or closes it. */
  lemma CloseOne(last: Option<Received>, outs: seq<OutBar>, g: seq<Received>, f: seq<Received>, r: Received)
    requires Stream(outs, last, g, f) && r.bar.time >= PreviousTime(last)
    ensures var (last', out) := Process(last, r, Live);
            var same := g != [] && g[|g| - 1].bar.time == r.bar.time;
            Stream(outs + OptionSeq(out), last', (if same then g[..|g| - 1] else g) + [r], if same then f else f + [r])
  {
    var out := Process(last, r, Live).1;
    assert outs + [] == outs;
  }

  lemma PublishedTimesIncrease(rs: seq<Received>)
    ensures var outs := Published(rs, Live);
            forall i, j | 0 <= i < j < |outs| :: outs[i].bar.time < outs[j].bar.time
  {
    ClosedBarStream(rs);
    KeptIsSorted(rs);
    LastRevisionsMeaning(Kept(rs));
    var outs, g := Published(rs, Live), LastRevisions(Kept(rs));
    forall i, j | 0 <= i < j < |outs| ensures outs[i].bar.time < outs[j].bar.time {
      assert Shows(outs[i].bar, g[i].bar) && Shows(outs[j].bar, g[j].bar);
    }
  }

  /** Every bar of `kept` published at once, marked a revision exactly when its time is that of the one
      before it; the very first, exactly when its time is zero. */
  ghost predicate PublishedAtOnce(outs: seq<OutBar>, kept: seq<Received>) {
    && |outs| == |kept|
    && forall i | 0 <= i < |kept| ::
         && Shows(outs[i].bar, kept[i].bar) && outs[i].tsInit == kept[i].now
         && (outs[i].isRevision <==> kept[i].bar.time == TimeBefore(kept, i))
  }

  function TimeBefore(kept: seq<Received>, i: nat): int
    requires i <= |kept|
  {
    if i == 0 then 0 else kept[i - 1].bar.time
  }

  lemma {:induction false} RevisedStream(rs: seq<Received>)
    ensures PublishedAtOnce(Published(rs, Revised), Kept(rs))
  {
    if rs != [] {
      var n := |rs| - 1;
      assert rs == rs[..n] + [rs[n]];
      RevisedStream(rs[..n]);
      RevisedStep(rs[..n], rs[n]);
    }
  }

  lemma RevisedStep(rs: seq<Received>, r: Received)
    requires PublishedAtOnce(Published(rs, Revised), Kept(rs))
    ensures PublishedAtOnce(Published(rs + [r], Revised), Kept(rs + [r]))
  {
    KeepsLatest(rs, Revised);
    InOrderNext(rs, r, Revised);
    if InOrder(rs + [r], |rs|) {
      ProcessSnoc(rs, r, Revised);
      var (last, outs) := ProcessAll(rs, Revised);
      PublishedAtOnceSnoc(outs, Kept(rs), Process(last, r, Revised).1.value, r);
    } else {
      OlderBarsIgnored(rs, r, Revised);
    }
  }

  lemma PublishedAtOnceSnoc(outs: seq<OutBar>, kept: seq<Received>, o: OutBar, r: Received)
    requires PublishedAtOnce(outs, kept)
    requires Shows(o.bar, r.bar) && o.tsInit == r.now
    requires o.isRevision <==> r.bar.time == TimeBefore(kept, |kept|)
    ensures PublishedAtOnce(outs + [o], kept + [r])
  {
    forall i | 0 <= i < |kept|
      ensures (kept + [r])[i] == kept[i] && (outs + [o])[i] == outs[i]
      ensures TimeBefore(kept + [r], i) == TimeBefore(kept, i)
    {
    }
    assert TimeBefore(kept + [r], |kept|) == TimeBefore(kept, |kept|);
  }

  /** A historical run keeps the same bar as a live one and, on each bar received, publishes what the live
      run would exactly when that bar's period has ended by the clock, stamped with the end of the period. */
  lemma {:induction false} HistoricalIsCompleteLive(rs: seq<Received>, r: Received)
    ensures ProcessAll(rs, Historical).0 == ProcessAll(rs, Live).0
    ensures var last := ProcessAll(rs, Live).0;
            var h, l := Process(last, r, Historical).1, Process(last, r, Live).1;
            && (l.Some? ==> last.Some?)
            && (h.Some? <==> l.Some? && last.value.closes < r.now)
            && (h.Some? ==> h.value == l.value.(tsInit := last.value.closes))
  {
    if rs != [] {
      HistoricalIsCompleteLive(rs[..|rs| - 1], rs[|rs| - 1]);
    }
  }

  // ---------- all bar types ----------

  datatype Event = Event(barType: string, received: Received, mode: Mode)

  function LastOf(kept: map<string, Received>, barType: string): Option<Received> {
    if barType in kept then Some(kept[barType]) else None
  }

  function ProcessEvent(kept: map<string, Received>, e: Event): (map<string, Received>, Option<OutBar>) {
    var (last, out) := Process(LastOf(kept, e.barType), e.received, e.mode);
    (if last.Some? then kept[e.barType := last.value] else kept, out)
  }

  function Tagged(barType: string, out: Option<OutBar>): seq<(string, OutBar)> {
    match out case None => [] case Some(o) => [(barType, o)]
  }

  function ProcessEvents(es: seq<Event>): (map<string, Received>, seq<(string, OutBar)>) {
    if es == [] then (map[], [])
    else
      var n := |es| - 1;
      var (kept, outs) := ProcessEvents(es[..n]);
      var (kept', out) := ProcessEvent(kept, es[n]);
      (kept', outs + Tagged(es[n].barType, out))
  }

  function ReceivedFor(es: seq<Event>, barType: string): seq<Received> {
    if es == [] then []
    else
      var n := |es| - 1;
      ReceivedFor(es[..n], barType) + if es[n].barType == barType then [es[n].received] else []
  }

  function PublishedFor(outs: seq<(string, OutBar)>, barType: string): seq<OutBar> {
    if outs == [] then []
    else
      var n := |outs| - 1;
      PublishedFor(outs[..n], barType) + if outs[n].0 == barType then [outs[n].1] else []
  }

  /** One bar type's part of a run. */
  ghost predicate Alone(es: seq<Event>, barType: string, mode: Mode) {
    var (kept, outs) := ProcessEvents(es);
    (LastOf(kept, barType), PublishedFor(outs, barType)) == ProcessAll(ReceivedFor(es, barType), mode)
  }

  /** Bar types do not interfere: each is processed as if it were alone. */
  lemma {:induction false} BarTypesIndependent(es: seq<Event>, barType: string, mode: Mode)
    requires forall e | e in es && e.barType == barType :: e.mode == mode
    ensures Alone(es, barType, mode)
  {
    if es != [] {
      var n := |es| - 1;
      assert es == es[..n] + [es[n]];
      BarTypesIndependent(es[..n], barType, mode);
      AloneStep(es[..n], es[n], barType, mode);
    }
  }

  lemma AloneStep(es: seq<Event>, e: Event, barType: string, mode: Mode)
    requires Alone(es, barType, mode) && (e.barType == barType ==> e.mode == mode)
    ensures Alone(es + [e], barType, mode)
  {
    assert (es + [e])[..|es|] == es;
    var (kept, outs) := ProcessEvents(es);
    var mine := ReceivedFor(es, barType);
    PublishedForTagged(outs, e.barType, ProcessEvent(kept, e).1, barType);
    KeptAlone(kept, e, barType);
    if e.barType == barType {
      ProcessSnoc(mine, e.received, mode);
    } else {
      assert ReceivedFor(es + [e], barType) == mine;
    }
  }

  lemma KeptAlone(kept: map<string, Received>, e: Event, barType: string)
    ensures LastOf(ProcessEvent(kept, e).0, barType) ==
            if e.barType == barType then Process(LastOf(kept, barType), e.received, e.mode).0 else LastOf(kept, barType)
  {
  }

  lemma PublishedForTagged(outs: seq<(string, OutBar)>, tag: string, out: Option<OutBar>, barType: string)
    ensures PublishedFor(outs + Tagged(tag, out), barType) ==
            if tag == barType then PublishedFor(outs, barType) + OptionSeq(out) else PublishedFor(outs, barType)
  {
    if out == None {
      assert outs + [] == outs;
    } else {
      assert (outs + [(tag, out.value)])[..|outs|] == outs;
    }
  }

  /** The closed-bar stream of each bar type, whatever else arrives in between. */
  lemma ClosedBarStreams(es: seq<Event>, barType: string)
    requires forall e | e in es && e.barType == barType :: e.mode == Live
    ensures var (kept, outs) := ProcessEvents(es);
            var mine := Kept(ReceivedFor(es, barType));
            Stream(PublishedFor(outs, barType), LastOf(kept, barType), LastRevisions(mine), FirstRevisions(mine))
  {
    BarTypesIndependent(es, barType, Live);
    ClosedBarStream(ReceivedFor(es, barType));
  }

  // ---------- the processor ----------

  class BarProcessor {
    var barTypeToLastBar: map<string, Received>

    constructor ()
      ensures barTypeToLastBar == map[]
    {
      barTypeToLastBar := map[];
    }

    method ProcessBarData(barType: string, received: Received, handleRevisedBars: bool, historical: bool)
      returns (out: Option<OutBar>)
      modifies this
      ensures var mode := if handleRevisedBars then Revised else if historical then Historical else Live;
              (barTypeToLastBar, out) == ProcessEvent(old(barTypeToLastBar), Event(barType, received, mode))
    {
      var previous := LastOf(barTypeToLastBar, barType);
      var previousTs := if previous == None then 0 else previous.value.bar.time;
      var currentTs := received.bar.time;
      var isNewBar;
      if currentTs > previousTs {
        isNewBar := true;
      } else if currentTs == previousTs {
        isNewBar := false;
      } else {
        assert previous.Some? ==> barTypeToLastBar[barType := previous.value] == barTypeToLastBar;
        return None;
      }
      barTypeToLastBar := barTypeToLastBar[barType := received];
      var bar, tsInit := received.bar, received.now;
      if !handleRevisedBars {
        if previous == None || !isNewBar {
          return None;
        }
        bar := previous.value.bar;
        if historical {
          tsInit := previous.value.closes;
          if tsInit >= received.now {
            return None;
          }
        }
      }
      return Some(OutBar(WithoutSentinel(bar), tsInit, !isNewBar));
    }
  }
}
