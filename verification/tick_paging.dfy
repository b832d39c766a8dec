/** Requesting historical ticks page by page, when no start is given. Each page asks up to the least stamp of
    the page before; but a stamp is never before the clock, so the pages do not go back in time. */
module TickPaging {
  import opened Prelude

  /** A row of the venue's answer, with the clock reading at its conversion. */
  datatype Row = Row(timeSec: int, timeMsc: int, bid: real, ask: real, last: real, now: int)

  datatype Kind = Trades | Quotes

  datatype Tick = Tick(kind: Kind, bid: real, ask: real, last: real, tsEvent: int, tsInit: int)

  function Min(a: int, b: int): int {
    if a < b then a else b
  }

  /** A row without a time, or without the prices its kind needs, is skipped. */
  function Convert(kind: Kind, row: Row): Option<Tick> {
    if row.timeMsc == 0 && row.timeSec == 0 then None
    else
      var tsEvent := if row.timeMsc != 0 then row.timeMsc * 1_000_000 else row.timeSec * 1_000_000_000;
      if kind == Trades then
        if row.last <= 0.0 then None
        else Some(Tick(Trades, 0.0, 0.0, row.last, tsEvent, MaxInt(row.now, tsEvent)))
      else if row.bid <= 0.0 || row.ask <= 0.0 then None
      else Some(Tick(Quotes, row.bid, row.ask, 0.0, tsEvent, MaxInt(row.now, tsEvent)))
  }

  function ConvertAll(kind: Kind, rows: seq<Row>): (r: seq<Tick>)
    ensures |r| <= |rows|
    ensures forall t | t in r :: t.kind == kind && t.tsEvent <= t.tsInit
  {
    if rows == [] then []
    else
      var n := |rows| - 1;
      ConvertAll(kind, rows[..n]) + OptionSeq(Convert(kind, rows[n]))
  }

  // ---------- stable sorting ----------

  ghost predicate Sorted(s: seq<Tick>) {
    forall i, j | 0 <= i < j < |s| :: s[i].tsInit <= s[j].tsInit
  }

  function Insert(t: Tick, s: seq<Tick>): seq<Tick> {
    if s == [] || t.tsInit <= s[0].tsInit then [t] + s else [s[0]] + Insert(t, s[1..])
  }

  function SortTicks(s: seq<Tick>): seq<Tick> {
    if s == [] then [] else Insert(s[0], SortTicks(s[1..]))
  }

  function StampedAt(ts: int): Tick -> bool {
    (t: Tick) => t.tsInit == ts
  }

  lemma {:induction false} InsertAdds(t: Tick, s: seq<Tick>)
    ensures multiset(Insert(t, s)) == multiset([t]) + multiset(s)
    ensures forall x | x in Insert(t, s) :: x == t || x in s
  {
    if s != [] && s[0].tsInit < t.tsInit {
      InsertAdds(t, s[1..]);
      assert s == [s[0]] + s[1..];
    }
  }

  lemma SortedCons(x: Tick, s: seq<Tick>)
    requires Sorted(s) && forall y | y in s :: x.tsInit <= y.tsInit
    ensures Sorted([x] + s)
  {
  }

  lemma {:induction false} InsertSorts(t: Tick, s: seq<Tick>)
    requires Sorted(s)
    ensures Sorted(Insert(t, s))
  {
    if s != [] && s[0].tsInit < t.tsInit {
      InsertSorts(t, s[1..]);
      InsertAdds(t, s[1..]);
      SortedCons(s[0], Insert(t, s[1..]));
    } else {
      SortedCons(t, s);
    }
  }

  lemma {:induction false} InsertIsStable(t: Tick, s: seq<Tick>, ts: int)
    ensures Filter(StampedAt(ts), Insert(t, s)) == Filter(StampedAt(ts), [t]) + Filter(StampedAt(ts), s)
  {
    FilterConcat(StampedAt(ts), [t], s);
    if s != [] && s[0].tsInit < t.tsInit {
      InsertIsStable(t, s[1..], ts);
      FilterConcat(StampedAt(ts), [s[0]], Insert(t, s[1..]));
      FilterConcat(StampedAt(ts), [s[0]], s[1..]);
      assert s == [s[0]] + s[1..];
    }
  }

  /** Sorting permutes into order of stamps. */
  lemma {:induction false} SortPermutes(s: seq<Tick>)
    ensures Sorted(SortTicks(s)) && multiset(SortTicks(s)) == multiset(s) && |SortTicks(s)| == |s|
  {
    if s != [] {
      SortPermutes(s[1..]);
      InsertSorts(s[0], SortTicks(s[1..]));
      InsertAdds(s[0], SortTicks(s[1..]));
      assert s == [s[0]] + s[1..];
      assert |SortTicks(s)| == |multiset(SortTicks(s))| == |s|;
    }
  }

  /** Ticks with one stamp keep their order. */
  lemma {:induction false} SortIsStable(s: seq<Tick>, ts: int)
    ensures Filter(StampedAt(ts), SortTicks(s)) == Filter(StampedAt(ts), s)
  {
    if s != [] {
      SortIsStable(s[1..], ts);
      InsertIsStable(s[0], SortTicks(s[1..]), ts);
      assert s == [s[0]] + s[1..];
      FilterConcat(StampedAt(ts), [s[0]], s[1..]);
    }
  }

  // ---------- one page ----------

  /** The venue answers with at most the number of rows asked for. */
  function Answered(rows: seq<Row>, count: nat): seq<Row> {
    if |rows| <= count then rows else rows[..count]
  }

  /** The page of fetch `k`; past the end of the tape the venue has nothing more. */
  function PageOf(kind: Kind, pages: seq<seq<Row>>, k: nat, count: nat): (page: seq<Tick>)
    ensures |page| <= count
  {
    var ticks := if k < |pages| then ConvertAll(kind, Answered(pages[k], count)) else [];
    SortPermutes(ticks);
    SortTicks(ticks)
  }

  // ---------- the loop ----------

  datatype Fetch = Fetch(end: int, count: nat)

  /** The page the last of the fetches brought in. */
  function LastPage(kind: Kind, pages: seq<seq<Row>>, fetches: seq<Fetch>): seq<Tick>
    requires fetches != []
  {
    PageOf(kind, pages, |fetches| - 1, fetches[|fetches| - 1].count)
  }

  /** All that the fetches brought in, before sorting. */
  function Gathered(kind: Kind, pages: seq<seq<Row>>, fetches: seq<Fetch>): seq<Tick> {
    if fetches == [] then [] else Gathered(kind, pages, fetches[..|fetches| - 1]) + LastPage(kind, pages, fetches)
  }

  function Earliest(page: seq<Tick>): int
    requires page != []
  {
    if |page| == 1 then page[0].tsInit else Min(page[0].tsInit, Earliest(page[1..]))
  }

  lemma {:induction false} EarliestIsLeast(page: seq<Tick>)
    requires page != []
    ensures forall t | t in page :: Earliest(page) <= t.tsInit
    ensures exists t :: t in page && t.tsInit == Earliest(page)
  {
    if |page| == 1 {
      assert page[0] in page;
    } else {
      EarliestIsLeast(page[1..]);
      assert page[0] in page;
      var t :| t in page[1..] && t.tsInit == Earliest(page[1..]);
      assert t in page;
    }
  }

  /** Where the next fetch ends: at the requested end, then at the least stamp of the page before. */
  function NextEnd(kind: Kind, pages: seq<seq<Row>>, fetches: seq<Fetch>, end: int): int
    requires fetches != [] ==> LastPage(kind, pages, fetches) != []
  {
    if fetches == [] then end else Earliest(LastPage(kind, pages, fetches))
  }

  /** Each fetch asks for what is still missing, at most 1000, ending at the least stamp of the page
      before; every page but the last brought something. */
  ghost predicate Chained(kind: Kind, pages: seq<seq<Row>>, fetches: seq<Fetch>, limit: int, end: int) {
    fetches == [] ||
    var n := |fetches| - 1;
    var front, before := fetches[..n], |Gathered(kind, pages, fetches[..n])|;
    && Chained(kind, pages, front, limit, end)
    && (front != [] ==> LastPage(kind, pages, front) != [])
    && before < limit && fetches[n].end == NextEnd(kind, pages, front, end)
    && fetches[n].count == if limit - before < 1000 then limit - before else 1000
  }

  /** Without a start, paging makes at most `limit` fetches, or as many as the cache holds ticks when the limit
      is zero, each but the last bringing at least a tick; it returns at most that many ticks, all that was
      fetched, stably sorted; and it returns fewer only after a page with nothing. */
  method HandleTicksRequest(kind: Kind, limit: int, capacity: int, end: int, pages: seq<seq<Row>>)
    returns (ticks: seq<Tick>, fetches: seq<Fetch>)
    ensures Chained(kind, pages, fetches, if limit == 0 then capacity else limit, end)
    ensures Sorted(ticks) && multiset(ticks) == multiset(Gathered(kind, pages, fetches))
    ensures forall ts :: Filter(StampedAt(ts), ticks) == Filter(StampedAt(ts), Gathered(kind, pages, fetches))
    ensures var n := if limit == 0 then capacity else limit;
            && |ticks| <= MaxInt(n, 0) && |fetches| <= MaxInt(n, 0)
            && (|ticks| < n ==> fetches != [] && LastPage(kind, pages, fetches) == [])
  {
    var gathered := FetchPages(kind, if limit == 0 then capacity else limit, end, pages);
    ticks, fetches := SortTicks(gathered.0), gathered.1;
    SortPermutes(gathered.0);
    forall ts ensures Filter(StampedAt(ts), ticks) == Filter(StampedAt(ts), gathered.0) {
      SortIsStable(gathered.0, ts);
    }
  }

  lemma OneMoreFetch(kind: Kind, pages: seq<seq<Row>>, fetches: seq<Fetch>, limit: int, end: int, fetch: Fetch)
    requires Chained(kind, pages, fetches, limit, end) && (fetches != [] ==> LastPage(kind, pages, fetches) != [])
    requires |Gathered(kind, pages, fetches)| < limit && fetch.end == NextEnd(kind, pages, fetches, end)
    requires var missing := limit - |Gathered(kind, pages, fetches)|;
             fetch.count == if missing < 1000 then missing else 1000
    ensures var all, page := fetches + [fetch], PageOf(kind, pages, |fetches|, fetch.count);
            && Chained(kind, pages, all, limit, end) && LastPage(kind, pages, all) == page
            && Gathered(kind, pages, all) == Gathered(kind, pages, fetches) + page
            && (page != [] ==> NextEnd(kind, pages, all, end) == Earliest(page))
  {
    assert (fetches + [fetch])[..|fetches|] == fetches;
  }

  /** The loop itself. */
  method FetchPages(kind: Kind, limit: int, end: int, pages: seq<seq<Row>>) returns (r: (seq<Tick>, seq<Fetch>))
    ensures Chained(kind, pages, r.1, limit, end) && r.0 == Gathered(kind, pages, r.1)
    ensures |r.0| <= MaxInt(limit, 0) && |r.1| <= MaxInt(limit, 0)
    ensures |r.0| < limit ==> r.1 != [] && LastPage(kind, pages, r.1) == []
  {
    var ticks: seq<Tick>, fetches: seq<Fetch>, until := [], [], end;
    while |ticks| < limit
      invariant Chained(kind, pages, fetches, limit, end) && ticks == Gathered(kind, pages, fetches)
      invariant |fetches| <= |ticks| <= MaxInt(limit, 0)
      invariant fetches != [] ==> LastPage(kind, pages, fetches) != []
      invariant until == NextEnd(kind, pages, fetches, end)
      decreases limit - |ticks|
    {
      var fetch := Fetch(until, Min(MaxInt(limit - |ticks|, 1), 1000));
      var page := PageOf(kind, pages, |fetches|, fetch.count);
      OneMoreFetch(kind, pages, fetches, limit, end, fetch);
      fetches := fetches + [fetch];
      if page == [] {
        assert ticks + [] == ticks;
        return (ticks, fetches);
      }
      until := Earliest(page);
      ticks := ticks + page;
    }
    return (ticks, fetches);
  }

  // ---------- the pages do not go back ----------

  predicate ClockFrom(rows: seq<Row>, now: int) {
    forall row | row in rows :: now <= row.now
  }

  /** The tick is the row's own: its time in milliseconds or else in seconds, and the prices its kind needs. */
  predicate Reads(kind: Kind, row: Row, t: Tick) {
    && t.kind == kind && (row.timeMsc != 0 || row.timeSec != 0)
    && t.tsEvent == (if row.timeMsc != 0 then row.timeMsc * 1_000_000 else row.timeSec * 1_000_000_000)
    && t.tsInit == (if row.now < t.tsEvent then t.tsEvent else row.now)
    && match kind
       case Trades => row.last > 0.0 && t.last == row.last && t.bid == 0.0 && t.ask == 0.0
       case Quotes => row.bid > 0.0 && row.ask > 0.0 && t.bid == row.bid && t.ask == row.ask && t.last == 0.0
  }

  lemma ConvertReads(kind: Kind, row: Row)
    ensures forall t :: Convert(kind, row) == Some(t) <==> Reads(kind, row, t)
  {
  }

  lemma {:induction false} ConvertedExactly(kind: Kind, rows: seq<Row>)
    ensures forall t :: t in ConvertAll(kind, rows) <==> exists row :: row in rows && Reads(kind, row, t)
  {
    if rows != [] {
      var n := |rows| - 1;
      ConvertedExactly(kind, rows[..n]);
      ConvertReads(kind, rows[n]);
      assert rows == rows[..n] + [rows[n]];
    }
  }

  /** A page holds exactly the ticks of the rows answered that have a time and the prices of their kind. */
  lemma PageHolds(kind: Kind, pages: seq<seq<Row>>, k: nat, count: nat)
    requires k < |pages|
    ensures forall t :: t in PageOf(kind, pages, k, count) <==>
                        exists row :: row in Answered(pages[k], count) && Reads(kind, row, t)
  {
    var ticks := ConvertAll(kind, Answered(pages[k], count));
    ConvertedExactly(kind, Answered(pages[k], count));
    SortPermutes(ticks);
    forall t ensures t in SortTicks(ticks) <==> t in ticks {
      assert t in multiset(SortTicks(ticks)) <==> t in multiset(ticks);
    }
  }

  function ReadAs(kind: Kind, t: Tick): Row -> bool {
    (row: Row) => Reads(kind, row, t)
  }

  lemma OneReadAs(kind: Kind, row: Row, t: Tick)
    ensures multiset(OptionSeq(Convert(kind, row)))[t] == |Filter(ReadAs(kind, t), [row])|
  {
    ConvertReads(kind, row);
    assert [row][..0] == [] && [row][1..] == [];
  }

  lemma {:induction false} ConvertedAsOften(kind: Kind, rows: seq<Row>, t: Tick)
    ensures multiset(ConvertAll(kind, rows))[t] == |Filter(ReadAs(kind, t), rows)|
  {
    if rows != [] {
      var n := |rows| - 1;
      ConvertedAsOften(kind, rows[..n], t);
      OneReadAs(kind, rows[n], t);
      assert rows == rows[..n] + [rows[n]];
      FilterConcat(ReadAs(kind, t), rows[..n], [rows[n]]);
      var front := ConvertAll(kind, rows[..n]);
      assert multiset(front + OptionSeq(Convert(kind, rows[n]))) ==
             multiset(front) + multiset(OptionSeq(Convert(kind, rows[n])));
    }
  }

  /** A page holds each tick as often as the first `count` rows give it: none is lost, made up or doubled. */
  lemma PageCounts(kind: Kind, pages: seq<seq<Row>>, k: nat, count: nat, t: Tick)
    requires k < |pages|
    ensures var rows := if |pages[k]| <= count then pages[k] else pages[k][..count];
            multiset(PageOf(kind, pages, k, count))[t] == |Filter(ReadAs(kind, t), rows)|
  {
    var rows := Answered(pages[k], count);
    ConvertedAsOften(kind, rows, t);
    SortPermutes(ConvertAll(kind, rows));
  }

  /** A row that converts and, by the clock at its conversion and by its own time, lies before `end`. */
  predicate Before(kind: Kind, row: Row, end: int) {
    Convert(kind, row).Some? && row.now < end && Convert(kind, row).value.tsEvent < end
  }

  lemma EarliestBefore(kind: Kind, pages: seq<seq<Row>>, k: nat, count: nat, end: int)
    requires PageOf(kind, pages, k, count) != []
    ensures k < |pages|
    ensures Earliest(PageOf(kind, pages, k, count)) < end <==>
            exists row :: row in Answered(pages[k], count) && Before(kind, row, end)
  {
    var page := PageOf(kind, pages, k, count);
    EarliestIsLeast(page);
    PageHolds(kind, pages, k, count);
    var rows := Answered(pages[k], count);
    if Earliest(page) < end {
      var t :| t in page && t.tsInit == Earliest(page);
      var row :| row in rows && Reads(kind, row, t);
      ConvertReads(kind, row);
      ConvertStamps(kind, row);
      assert Before(kind, row, end);
    }
    forall row | row in rows && Before(kind, row, end) ensures Earliest(page) < end {
      ConvertStamps(kind, row);
      ConvertReads(kind, row);
      assert Reads(kind, row, Convert(kind, row).value) && Convert(kind, row).value in page;
    }
  }

  lemma ConvertStamps(kind: Kind, row: Row)
    ensures var t := Convert(kind, row); t.Some? ==> t.value.tsInit == MaxInt(row.now, t.value.tsEvent)
  {
  }

  /** Fetch `k` ends at the least stamp of the page before it; the first, at the requested end. */
  ghost predicate Follows(kind: Kind, pages: seq<seq<Row>>, fetches: seq<Fetch>, end: int, k: nat)
    requires k < |fetches|
  {
    if k == 0 then fetches[0].end == end
    else
      var page := PageOf(kind, pages, k - 1, fetches[k - 1].count);
      page != [] && fetches[k].end == Earliest(page)
  }

  lemma LastFollows(kind: Kind, pages: seq<seq<Row>>, fetches: seq<Fetch>, limit: int, end: int)
    requires Chained(kind, pages, fetches, limit, end) && fetches != []
    ensures Follows(kind, pages, fetches, end, |fetches| - 1)
    ensures Chained(kind, pages, fetches[..|fetches| - 1], limit, end)
  {
    var n := |fetches| - 1;
    if n > 0 {
      assert LastPage(kind, pages, fetches[..n]) == PageOf(kind, pages, n - 1, fetches[n - 1].count);
    }
  }

  lemma FollowsInFull(kind: Kind, pages: seq<seq<Row>>, fetches: seq<Fetch>, end: int, k: nat, n: nat)
    requires k < n <= |fetches| && Follows(kind, pages, fetches[..n], end, k)
    ensures Follows(kind, pages, fetches, end, k)
  {
    assert fetches[..n][k] == fetches[k];
    assert k > 0 ==> fetches[..n][k - 1] == fetches[k - 1];
  }

  lemma {:induction false} ChainedPrefix(kind: Kind, pages: seq<seq<Row>>, fetches: seq<Fetch>, limit: int, end: int,
                                         n: nat)
    requires Chained(kind, pages, fetches, limit, end) && n <= |fetches|
    ensures Chained(kind, pages, fetches[..n], limit, end)
    decreases |fetches|
  {
    if n == |fetches| {
      assert fetches[..n] == fetches;
    } else {
      var front := fetches[..|fetches| - 1];
      LastFollows(kind, pages, fetches, limit, end);
      ChainedPrefix(kind, pages, front, limit, end, n);
      assert front[..n] == fetches[..n];
    }
  }

  lemma AllFollow(kind: Kind, pages: seq<seq<Row>>, fetches: seq<Fetch>, limit: int, end: int, k: nat)
    requires Chained(kind, pages, fetches, limit, end) && k < |fetches|
    ensures Follows(kind, pages, fetches, end, k)
  {
    ChainedPrefix(kind, pages, fetches, limit, end, k + 1);
    LastFollows(kind, pages, fetches[..k + 1], limit, end);
    FollowsInFull(kind, pages, fetches, end, k, k + 1);
  }

  /** Exactly when a fetch goes back, ending before the one it follows: some row the venue answered with
      converts, and both the clock at its conversion and its own time lie before that end. */
  lemma GoesBackIff(kind: Kind, pages: seq<seq<Row>>, fetches: seq<Fetch>, limit: int, end: int, k: nat)
    requires Chained(kind, pages, fetches, limit, end) && k + 1 < |fetches|
    ensures k < |pages|
    ensures fetches[k + 1].end < fetches[k].end <==>
            exists row :: row in Answered(pages[k], fetches[k].count) && Before(kind, row, fetches[k].end)
  {
    AllFollow(kind, pages, fetches, limit, end, k + 1);
    EarliestBefore(kind, pages, k, fetches[k].count, fetches[k].end);
  }

  /** So paging does not go back past the clock: if the clock never reads before `now`, every fetch but the
      first ends at `now` or later. Asked for a past end, all of them ask for the present. */
  lemma NeverBeforeClock(kind: Kind, pages: seq<seq<Row>>, fetches: seq<Fetch>, limit: int, end: int, now: int)
    requires Chained(kind, pages, fetches, limit, end) && forall rows | rows in pages :: ClockFrom(rows, now)
    ensures forall k | 0 < k < |fetches| :: now <= fetches[k].end
    ensures fetches != [] ==> fetches[0].end == end
  {
    if fetches != [] {
      AllFollow(kind, pages, fetches, limit, end, 0);
    }
    forall k | 0 < k < |fetches| ensures now <= fetches[k].end {
      AllFollow(kind, pages, fetches, limit, end, k);
      NotBefore(kind, pages, k - 1, fetches[k - 1].count, now);
    }
  }

  lemma NotBefore(kind: Kind, pages: seq<seq<Row>>, k: nat, count: nat, now: int)
    requires PageOf(kind, pages, k, count) != [] && forall rows | rows in pages :: ClockFrom(rows, now)
    ensures now <= Earliest(PageOf(kind, pages, k, count))
  {
    EarliestBefore(kind, pages, k, count, now);
    assert pages[k] in pages;
    assert forall row | row in Answered(pages[k], count) :: row in pages[k];
  }

  /** It happens: two ticks asked for up to time 0, the clock reading 5; the second fetch ends at 5. */
  lemma JumpsForward() returns (pages: seq<seq<Row>>, fetches: seq<Fetch>)
    ensures Chained(Quotes, pages, fetches, 2, 0) && |fetches| == 2 && fetches[0].end == 0 && fetches[1].end == 5
  {
    var row := Row(0, -1, 1.0, 1.0, 0.0, 5);
    var tick, first := Convert(Quotes, row).value, [Fetch(0, 2)];
    pages, fetches := [[row]], [Fetch(0, 2), Fetch(5, 1)];
    assert ConvertAll(Quotes, [row]) == [tick] by {
      assert [row][..0] == [];
    }
    assert SortTicks([tick]) == [tick];
    assert LastPage(Quotes, pages, first) == [tick] && Earliest([tick]) == 5;
    assert first[..0] == [];
    assert Gathered(Quotes, pages, first) == [] + [tick];
    assert Chained(Quotes, pages, first, 2, 0);
    assert fetches[..1] == first;
  }
}
