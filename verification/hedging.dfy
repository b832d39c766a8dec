/** A hedging account: several long and short legs per symbol, each closed by its own ticket. Closing
    everything on stop, and choosing the leg a SELL closes. */
module Hedging {
  import opened Prelude

  /** A leg as the venue reports it: type 0 is long, 1 short; a missing number reads as 0 or -1. */
  datatype Position = Position(ticket: int, kind: int, symbol: string, volume: real)

  /** A market order; `position` is the ticket of the leg to close, or 0 to open a new one. */
  datatype Request = Request(symbol: string, volume: real, kind: int, position: int)

  /** What becomes of one order: the volume executed, and whether the call raised. */
  datatype Reply = Reply(executed: real, raised: bool)

  // ---------- the venue ----------

  predicate Closes(req: Request, p: Position) {
    && p.ticket == req.position && p.symbol == req.symbol
    && ((p.kind == 0 && req.kind == 1) || (p.kind == 1 && req.kind == 0))
  }

  function Reduced(p: Position, executed: real): seq<Position> {
    if executed == p.volume then [] else [p.(volume := p.volume - executed)]
  }

  /** The book after `executed` of an order against one leg. */
  function Execute(book: seq<Position>, req: Request, executed: real): seq<Position> {
    if book == [] then []
    else (if Closes(req, book[0]) then Reduced(book[0], executed) else [book[0]]) + Execute(book[1..], req, executed)
  }

  function Signed(p: Position): real {
    if p.kind == 0 then p.volume else if p.kind == 1 then -p.volume else 0.0
  }

  /** Net exposure in one symbol: long volume less short volume. */
  function Net(book: seq<Position>, symbol: string): real {
    if book == [] then 0.0 else (if book[0].symbol == symbol then Signed(book[0]) else 0.0) + Net(book[1..], symbol)
  }

  ghost predicate UniqueTickets(book: seq<Position>) {
    forall i, j | 0 <= i < j < |book| && book[i].ticket != 0 :: book[i].ticket != book[j].ticket
  }

  lemma {:induction false} NetConcat(a: seq<Position>, b: seq<Position>, symbol: string)
    ensures Net(a + b, symbol) == Net(a, symbol) + Net(b, symbol)
  {
    if a == [] {
      assert a + b == b;
    } else {
      assert (a + b)[1..] == a[1..] + b;
      NetConcat(a[1..], b, symbol);
    }
  }

  lemma {:induction false} ExecuteConcat(a: seq<Position>, b: seq<Position>, req: Request, executed: real)
    ensures Execute(a + b, req, executed) == Execute(a, req, executed) + Execute(b, req, executed)
  {
    if a == [] {
      assert a + b == b;
    } else {
      assert (a + b)[1..] == a[1..] + b;
      ExecuteConcat(a[1..], b, req, executed);
    }
  }

  lemma {:induction false} ExecuteElsewhere(book: seq<Position>, req: Request, executed: real)
    requires forall p | p in book :: p.ticket != req.position
    ensures Execute(book, req, executed) == book
  {
    if book != [] {
      assert book[0] in book;
      ExecuteElsewhere(book[1..], req, executed);
    }
  }

  /** An order leaves every leg but its own alone. */
  lemma ExecuteMiddle(a: seq<Position>, p: Position, b: seq<Position>, req: Request, executed: real)
    requires forall q | q in a :: q.ticket != req.position
    requires forall q | q in b :: q.ticket != req.position
    ensures Execute(a + [p] + b, req, executed) == a + (if Closes(req, p) then Reduced(p, executed) else [p]) + b
  {
    ExecuteElsewhere(a, req, executed);
    ExecuteElsewhere(b, req, executed);
    ExecuteConcat(a + [p], b, req, executed);
    ExecuteConcat(a, [p], req, executed);
  }

  lemma NetMiddle(a: seq<Position>, m: seq<Position>, b: seq<Position>, symbol: string)
    ensures Net(a + m + b, symbol) == Net(a, symbol) + Net(m, symbol) + Net(b, symbol)
  {
    NetConcat(a + m, b, symbol);
    NetConcat(a, m, symbol);
  }

  // ---------- closing everything ----------

  predicate Sendable(p: Position) {
    p.ticket != 0 && p.symbol != "" && p.volume > 0.0
  }

  /** The closing order opposes the leg only when the leg is long or short. */
  predicate Closable(p: Position) {
    Sendable(p) && (p.kind == 0 || p.kind == 1)
  }

  function CloseRequest(p: Position): Request {
    Request(p.symbol, p.volume, if p.kind == 0 then 1 else 0, p.ticket)
  }

  function LegAfter(p: Position, r: Reply): seq<Position> {
    if Closable(p) then Reduced(p, r.executed) else [p]
  }

  /** What is left of the book, leg by leg. */
  function Remaining(book: seq<Position>, replies: seq<Reply>): seq<Position>
    requires |book| == |replies|
  {
    if book == [] then []
    else
      var n := |book| - 1;
      Remaining(book[..n], replies[..n]) + LegAfter(book[n], replies[n])
  }

  /** The tickets reported closed: those whose order was sent without an exception. */
  function Reported(book: seq<Position>, replies: seq<Reply>): seq<int>
    requires |book| == |replies|
  {
    if book == [] then []
    else
      var n := |book| - 1;
      Reported(book[..n], replies[..n]) + if Sendable(book[n]) && !replies[n].raised then [book[n].ticket] else []
  }

  /** The closing orders sent, in the order of the legs. */
  function Orders(book: seq<Position>): seq<Request> {
    if book == [] then []
    else
      var n := |book| - 1;
      Orders(book[..n]) + OrderFor(book[n])
  }

  function OrderFor(p: Position): seq<Request> {
    if Sendable(p) then [CloseRequest(p)] else []
  }

  lemma {:induction false} RemainingFrom(book: seq<Position>, replies: seq<Reply>)
    requires |book| == |replies|
    ensures forall p | p in Remaining(book, replies) :: exists i :: 0 <= i < |book| && book[i].ticket == p.ticket
  {
    if book != [] {
      var n := |book| - 1;
      RemainingFrom(book[..n], replies[..n]);
      forall p | p in Remaining(book, replies) ensures exists i :: 0 <= i < |book| && book[i].ticket == p.ticket {
        if p in Remaining(book[..n], replies[..n]) {
          var i :| 0 <= i < n && book[..n][i].ticket == p.ticket;
          assert book[i].ticket == p.ticket;
        } else {
          assert book[n].ticket == p.ticket;
        }
      }
    }
  }

  /** The book while closing: what is left of the first `i` legs, and the legs still to come. */
  function Midway(book: seq<Position>, replies: seq<Reply>, i: nat): seq<Position>
    requires |book| == |replies| && i <= |book|
  {
    Remaining(book[..i], replies[..i]) + book[i..]
  }

  lemma DoneElsewhere(book: seq<Position>, replies: seq<Reply>, i: nat)
    requires |book| == |replies| && UniqueTickets(book) && i < |book| && book[i].ticket != 0
    ensures forall q | q in Remaining(book[..i], replies[..i]) :: q.ticket != book[i].ticket
    ensures forall q | q in book[i + 1..] :: q.ticket != book[i].ticket
  {
    RemainingFrom(book[..i], replies[..i]);
    forall q | q in Remaining(book[..i], replies[..i]) ensures q.ticket != book[i].ticket {
      var j :| 0 <= j < i && book[..i][j].ticket == q.ticket;
      assert book[j].ticket == q.ticket;
    }
  }

  lemma MidwaySplits(book: seq<Position>, replies: seq<Reply>, i: nat)
    requires |book| == |replies| && i < |book|
    ensures var done, rest := Remaining(book[..i], replies[..i]), book[i + 1..];
            && Midway(book, replies, i) == done + [book[i]] + rest
            && Midway(book, replies, i + 1) == done + LegAfter(book[i], replies[i]) + rest
  {
    RemainingSnoc(book, replies, i);
    assert book[i..] == [book[i]] + book[i + 1..];
  }

  /** One closing order touches its own leg only. */
  lemma CloseOne(book: seq<Position>, replies: seq<Reply>, i: nat)
    requires |book| == |replies| && UniqueTickets(book) && i < |book|
    ensures Midway(book, replies, i + 1) ==
            if Sendable(book[i]) then Execute(Midway(book, replies, i), CloseRequest(book[i]), replies[i].executed)
            else Midway(book, replies, i)
  {
    var done, p, rest := Remaining(book[..i], replies[..i]), book[i], book[i + 1..];
    MidwaySplits(book, replies, i);
    if Sendable(p) {
      DoneElsewhere(book, replies, i);
      ExecuteMiddle(done, p, rest, CloseRequest(p), replies[i].executed);
    }
  }

  lemma RemainingSnoc(book: seq<Position>, replies: seq<Reply>, i: nat)
    requires |book| == |replies| && i < |book|
    ensures Remaining(book[..i + 1], replies[..i + 1]) ==
            Remaining(book[..i], replies[..i]) + LegAfter(book[i], replies[i])
  {
    assert book[..i + 1][..i] == book[..i] && replies[..i + 1][..i] == replies[..i];
  }

  lemma ReportedSnoc(book: seq<Position>, replies: seq<Reply>, i: nat)
    requires |book| == |replies| && i < |book|
    ensures Reported(book[..i + 1], replies[..i + 1]) ==
            Reported(book[..i], replies[..i]) + if Sendable(book[i]) && !replies[i].raised then [book[i].ticket] else []
    ensures Orders(book[..i + 1]) == Orders(book[..i]) + OrderFor(book[i])
  {
    assert book[..i + 1][..i] == book[..i] && replies[..i + 1][..i] == replies[..i];
  }

  /** After `i` legs: the book, the orders sent since `before`, and the tickets reported. */
  ghost predicate Progress(positions: seq<Position>, replies: seq<Reply>, i: nat, book: seq<Position>,
                           sent: seq<Request>, reported: seq<int>, before: seq<Request>)
    requires |positions| == |replies|
  {
    && i <= |positions| && book == Midway(positions, replies, i)
    && sent == before + Orders(positions[..i]) && reported == Reported(positions[..i], replies[..i])
  }

  lemma ProgressStart(positions: seq<Position>, replies: seq<Reply>, before: seq<Request>)
    requires |positions| == |replies|
    ensures Progress(positions, replies, 0, positions, before, [], before)
  {
    assert positions[..0] == [] && positions[0..] == positions;
    assert Remaining(positions[..0], replies[..0]) == [];
    assert [] + positions == positions && before + [] == before;
  }

  lemma ProgressStep(positions: seq<Position>, replies: seq<Reply>, i: nat, book: seq<Position>,
                     sent: seq<Request>, reported: seq<int>, before: seq<Request>)
    requires |positions| == |replies| && UniqueTickets(positions) && i < |positions|
    requires Progress(positions, replies, i, book, sent, reported, before)
    ensures var p := positions[i];
            Progress(positions, replies, i + 1,
                     if Sendable(p) then Execute(book, CloseRequest(p), replies[i].executed) else book,
                     sent + OrderFor(p),
                     if Sendable(p) && !replies[i].raised then reported + [p.ticket] else reported, before)
  {
    CloseOne(positions, replies, i);
    ReportedSnoc(positions, replies, i);
    assert before + Orders(positions[..i]) + OrderFor(positions[i]) ==
           before + (Orders(positions[..i]) + OrderFor(positions[i]));
    assert reported + [] == reported;
  }

  lemma ProgressEnd(positions: seq<Position>, replies: seq<Reply>, book: seq<Position>,
                    sent: seq<Request>, reported: seq<int>, before: seq<Request>)
    requires |positions| == |replies| && Progress(positions, replies, |positions|, book, sent, reported, before)
    ensures book == Remaining(positions, replies) && sent == before + Orders(positions)
    ensures reported == Reported(positions, replies)
  {
    assert positions[..|positions|] == positions && replies[..|replies|] == replies;
    assert Remaining(positions, replies) + positions[|positions|..] == Remaining(positions, replies);
  }

  class Venue {
    var book: seq<Position>
    /** The orders received. */
    var sent: seq<Request>

    constructor (book: seq<Position>)
      ensures this.book == book && sent == []
    {
      this.book, sent := book, [];
    }

    /** An order against a leg; how much of it is executed is the venue's choice. */
    method OrderSend(req: Request, reply: Reply) returns (ok: bool)
      modifies this
      ensures book == Execute(old(book), req, reply.executed) && sent == old(sent) + [req] && ok == !reply.raised
    {
      sent := sent + [req];
      book := Execute(book, req, reply.executed);
      ok := !reply.raised;
    }

    /** Sends a closing order for every leg that has a ticket, a symbol and a volume; the return codes are
        not looked at. */
    method CloseAllPositionsOnStop(replies: seq<Reply>) returns (reported: seq<int>)
      requires |replies| == |book| && UniqueTickets(book)
      modifies this
      ensures book == Remaining(old(book), replies)
      ensures sent == old(sent) + Orders(old(book))
      ensures reported == Reported(old(book), replies)
    {
      var positions := book;
      reported := [];
      ghost var before := sent;
      ProgressStart(positions, replies, sent);
      for i := 0 to |positions|
        invariant Progress(positions, replies, i, book, sent, reported, before)
      {
        ProgressStep(positions, replies, i, book, sent, reported, before);
        var pos := positions[i];
        if pos.ticket == 0 || pos.symbol == "" || pos.volume <= 0.0 {
          continue;
        }
        var closeType := if pos.kind == 0 then 1 else 0;
        var ok := OrderSend(Request(pos.symbol, pos.volume, closeType, pos.ticket), replies[i]);
        if ok {
          reported := reported + [pos.ticket];
        }
      }
      ProgressEnd(positions, replies, book, sent, reported, before);
    }
  }

  // ---------- on the legs' own fields ----------

  /** The leg can be sent an order for: it has a ticket, a symbol and a volume. */
  predicate Identified(p: Position) {
    p.ticket != 0 && p.symbol != "" && p.volume > 0.0
  }

  /** The order for leg `i`: its own symbol, its own whole volume, the other side, its own ticket. */
  predicate ClosesLeg(req: Request, p: Position) {
    && req.symbol == p.symbol && req.volume == p.volume && req.position == p.ticket
    && req.kind == if p.kind == 0 then 1 else 0
  }

  /** `at` gives the leg of each order: one order for each leg with a ticket, a symbol and a volume, in the
      order of the legs. */
  ghost predicate OrdersAt(orders: seq<Request>, book: seq<Position>, at: seq<nat>) {
    && |at| == |orders| && (forall k | 0 <= k < |at| :: at[k] < |book| && ClosesLeg(orders[k], book[at[k]]))
    && (forall k, l | 0 <= k < l < |at| :: at[k] < at[l])
    && forall i | 0 <= i < |book| :: i in at <==> Identified(book[i])
  }

  lemma OrdersAtSnoc(orders: seq<Request>, book: seq<Position>, at: seq<nat>, p: Position)
    requires OrdersAt(orders, book, at)
    ensures OrdersAt(orders + OrderFor(p), book + [p], if Identified(p) then at + [|book|] else at)
  {
    assert forall k | 0 <= k < |at| :: at[k] < |book|;
    if Identified(p) {
      InSnoc(at, |book|);
    } else {
      assert orders + [] == orders;
    }
  }

  lemma InSnoc(at: seq<nat>, n: nat)
    ensures forall i: nat :: i in at + [n] <==> i in at || i == n
  {
  }

  lemma OrdersSnoc(book: seq<Position>, p: Position)
    ensures Orders(book + [p]) == Orders(book) + OrderFor(p)
  {
    assert (book + [p])[..|book|] == book;
  }

  /** Which orders are sent. */
  lemma {:induction false} OrdersSent(book: seq<Position>) returns (at: seq<nat>)
    ensures OrdersAt(Orders(book), book, at)
  {
    if book == [] {
      at := [];
    } else {
      var front, p := book[..|book| - 1], book[|book| - 1];
      var before := OrdersSent(front);
      assert book == front + [p];
      OrdersSnoc(front, p);
      OrdersAtSnoc(Orders(front), front, before, p);
      at := if Identified(p) then before + [|front|] else before;
    }
  }

  /** When the venue executes the whole volume of every order, a leg with a ticket remains exactly when it has
      no symbol or no volume, or is neither long nor short. */
  lemma FullFillsClose(book: seq<Position>, replies: seq<Reply>)
    requires |book| == |replies| && UniqueTickets(book)
    requires forall i | 0 <= i < |book| :: replies[i].executed == book[i].volume
    ensures forall i | 0 <= i < |book| && book[i].ticket != 0 ::
              (exists p :: p in Remaining(book, replies) && p.ticket == book[i].ticket) <==>
              book[i].symbol == "" || book[i].volume <= 0.0 || (book[i].kind != 0 && book[i].kind != 1)
    ensures (forall p | p in book :: Identified(p) && (p.kind == 0 || p.kind == 1)) ==> Remaining(book, replies) == []
  {
    forall i | 0 <= i < |book| && book[i].ticket != 0
      ensures (exists p :: p in Remaining(book, replies) && p.ticket == book[i].ticket) <==>
              book[i].symbol == "" || book[i].volume <= 0.0 || (book[i].kind != 0 && book[i].kind != 1)
    {
      InRemaining(book, replies, i);
    }
    if Remaining(book, replies) != [] {
      var p := Remaining(book, replies)[0];
      assert p in Remaining(book, replies);
      RemainingFrom(book, replies);
      var i :| 0 <= i < |book| && book[i].ticket == p.ticket;
      assert book[i] in book;
    }
  }

  /** A ticket is reported closed exactly when it is that of a leg with a symbol and a volume whose order did
      not raise, whatever was executed. */
  lemma ReportedExactly(book: seq<Position>, replies: seq<Reply>, t: int)
    requires |book| == |replies|
    ensures t in Reported(book, replies) <==>
            t != 0 && exists i :: 0 <= i < |book| && book[i].ticket == t && book[i].symbol != "" &&
                                  book[i].volume > 0.0 && !replies[i].raised
  {
    if t in Reported(book, replies) {
      var i := ReportedFrom(book, replies, t);
    }
    forall i | 0 <= i < |book| && book[i].ticket == t != 0 && book[i].symbol != "" && book[i].volume > 0.0
               && !replies[i].raised
      ensures t in Reported(book, replies)
    {
      InReported(book, replies, i);
    }
  }

  // ---------- what closing leaves ----------

  /** Exposure executed on one leg: positive on a long one. */
  function ExecutedOn(p: Position, r: Reply, symbol: string): real {
    if Closable(p) && p.symbol == symbol then (if p.kind == 0 then r.executed else -r.executed) else 0.0
  }

  function ExecutedNet(book: seq<Position>, replies: seq<Reply>, symbol: string): real
    requires |book| == |replies|
  {
    if book == [] then 0.0
    else
      var n := |book| - 1;
      ExecutedNet(book[..n], replies[..n], symbol) + ExecutedOn(book[n], replies[n], symbol)
  }

  lemma NetOfLeg(p: Position, r: Reply, symbol: string)
    ensures Net(LegAfter(p, r), symbol) == Net([p], symbol) - ExecutedOn(p, r, symbol)
  {
  }

  /** Conservation: in every symbol the exposure left is the exposure before less what was executed. */
  lemma {:induction false} CloseConserves(book: seq<Position>, replies: seq<Reply>, symbol: string)
    requires |book| == |replies|
    ensures Net(Remaining(book, replies), symbol) == Net(book, symbol) - ExecutedNet(book, replies, symbol)
  {
    if book != [] {
      var n := |book| - 1;
      var front, rs, p := book[..n], replies[..n], book[n];
      CloseConserves(front, rs, symbol);
      NetConcat(Remaining(front, rs), LegAfter(p, replies[n]), symbol);
      NetOfLeg(p, replies[n], symbol);
      assert book == front + [p];
      NetConcat(front, [p], symbol);
    }
  }

  /** A leg is closed in full. */
  predicate Filled(p: Position, r: Reply) {
    Closable(p) && r.executed == p.volume
  }

  predicate FullOrNothing(p: Position, r: Reply) {
    Closable(p) ==> r.executed == p.volume || r.executed == 0.0
  }

  /** The legs not filled, in order. */
  function NotFilled(book: seq<Position>, replies: seq<Reply>): seq<Position>
    requires |book| == |replies|
  {
    if book == [] then []
    else
      var n := |book| - 1;
      NotFilled(book[..n], replies[..n]) + if Filled(book[n], replies[n]) then [] else [book[n]]
  }

  /** Leg `p` was in the book and not filled. */
  ghost predicate Unfilled(book: seq<Position>, replies: seq<Reply>, p: Position)
    requires |book| == |replies|
  {
    exists i :: 0 <= i < |book| && book[i] == p && !Filled(book[i], replies[i])
  }

  /** When every order is filled in full or not at all, the unfilled legs remain, untouched and in order, and
      no other: those with invalid data and those whose order failed. */
  lemma {:induction false} UnfilledRemain(book: seq<Position>, replies: seq<Reply>)
    requires |book| == |replies| && forall i | 0 <= i < |book| :: FullOrNothing(book[i], replies[i])
    ensures Remaining(book, replies) == NotFilled(book, replies)
    ensures forall p :: p in Remaining(book, replies) <==> Unfilled(book, replies, p)
  {
    if book != [] {
      var n := |book| - 1;
      UnfilledRemain(book[..n], replies[..n]);
      forall p ensures Unfilled(book, replies, p) <==>
                       Unfilled(book[..n], replies[..n], p) || (p == book[n] && !Filled(book[n], replies[n]))
      {
        if Unfilled(book[..n], replies[..n], p) {
          var i :| 0 <= i < n && book[..n][i] == p && !Filled(book[..n][i], replies[..n][i]);
          assert book[i] == p && !Filled(book[i], replies[i]);
        }
        if i :| 0 <= i < n && book[i] == p && !Filled(book[i], replies[i]) {
          assert book[..n][i] == p && !Filled(book[..n][i], replies[..n][i]);
        }
      }
    }
  }

  lemma {:induction false} InRemaining(book: seq<Position>, replies: seq<Reply>, i: nat)
    requires |book| == |replies| && UniqueTickets(book) && i < |book| && book[i].ticket != 0
    ensures (exists p :: p in Remaining(book, replies) && p.ticket == book[i].ticket) <==> !Filled(book[i], replies[i])
    decreases |book|
  {
    var n := |book| - 1;
    var before, last := Remaining(book[..n], replies[..n]), LegAfter(book[n], replies[n]);
    RemainingFrom(book[..n], replies[..n]);
    if i < n {
      InRemaining(book[..n], replies[..n], i);
      assert forall p | p in last :: p.ticket == book[n].ticket;
      assert forall p | p in before :: p in Remaining(book, replies);
    } else {
      forall p | p in before ensures p.ticket != book[n].ticket {
        var j :| 0 <= j < n && book[..n][j].ticket == p.ticket;
        assert book[j].ticket == p.ticket;
      }
      if !Filled(book[n], replies[n]) {
        assert last[0] in Remaining(book, replies);
      }
    }
  }

  /** The report names no leg that is still open. */
  ghost predicate Honest(book: seq<Position>, replies: seq<Reply>)
    requires |book| == |replies|
  {
    forall t, p | t in Reported(book, replies) && p in Remaining(book, replies) :: p.ticket != t
  }

  /** The report is honest exactly when every order that did not raise
      was filled in full: a rejection is reported as closed. */
  lemma ReportHonestIff(book: seq<Position>, replies: seq<Reply>)
    requires |book| == |replies| && UniqueTickets(book)
    ensures Honest(book, replies) <==>
            (forall i | 0 <= i < |book| && Sendable(book[i]) && !replies[i].raised :: Filled(book[i], replies[i]))
  {
    forall i | 0 <= i < |book| && Sendable(book[i]) && !replies[i].raised
      ensures book[i].ticket in Reported(book, replies)
      ensures (exists p :: p in Remaining(book, replies) && p.ticket == book[i].ticket) <==>
              !Filled(book[i], replies[i])
    {
      InReported(book, replies, i);
      InRemaining(book, replies, i);
    }
    forall t | t in Reported(book, replies)
      ensures exists i :: 0 <= i < |book| && Sendable(book[i]) && !replies[i].raised && book[i].ticket == t
    {
      var i := ReportedFrom(book, replies, t);
    }
  }

  /** What the venue can answer: no negative volume, and no more than the leg has. */
  ghost predicate Answers(book: seq<Position>, replies: seq<Reply>) {
    && |replies| == |book|
    && forall i | 0 <= i < |book| ::
         0.0 <= replies[i].executed && (Closable(book[i]) ==> replies[i].executed <= book[i].volume)
  }

  /** Before anything is sent: the report can be relied on, whatever the venue answers, exactly when there is
      nothing to send. */
  lemma ReportReliableIff(book: seq<Position>)
    requires UniqueTickets(book)
    ensures (forall replies | Answers(book, replies) :: Honest(book, replies)) <==> forall p | p in book :: !Sendable(p)
  {
    if p :| p in book && Sendable(p) {
      var i :| 0 <= i < |book| && book[i] == p;
      var refused := seq(|book|, _ => Reply(0.0, false));
      assert forall j | 0 <= j < |book| :: Closable(book[j]) ==> 0.0 <= book[j].volume;
      assert Answers(book, refused);
      ReportHonestIff(book, refused);
      assert !Filled(book[i], refused[i]);
    } else {
      forall replies | Answers(book, replies) ensures Honest(book, replies) {
        ReportHonestIff(book, replies);
      }
    }
  }

  lemma {:induction false} InReported(book: seq<Position>, replies: seq<Reply>, i: nat)
    requires |book| == |replies| && i < |book| && Sendable(book[i]) && !replies[i].raised
    ensures book[i].ticket in Reported(book, replies)
    decreases |book|
  {
    if i < |book| - 1 {
      InReported(book[..|book| - 1], replies[..|book| - 1], i);
    }
  }

  lemma {:induction false} ReportedFrom(book: seq<Position>, replies: seq<Reply>, t: int) returns (i: nat)
    requires |book| == |replies| && t in Reported(book, replies)
    ensures i < |book| && Sendable(book[i]) && !replies[i].raised && book[i].ticket == t
  {
    i := |book| - 1;
    if !(Sendable(book[i]) && !replies[i].raised && book[i].ticket == t) {
      i := ReportedFrom(book[..|book| - 1], replies[..|book| - 1], t);
    }
  }

  // ---------- the leg a SELL closes ----------

  predicate IsLong(p: Position) {
    p.ticket != 0 && p.kind == 0
  }

  /** Leg `i` is the only one with a ticket that is long. */
  ghost predicate OnlyLong(positions: seq<Position>, i: int) {
    && 0 <= i < |positions| && positions[i].ticket != 0 && positions[i].kind == 0
    && forall j | 0 <= j < |positions| && j != i :: positions[j].ticket == 0 || positions[j].kind != 0
  }

  /** The ticket a SELL carries: that of the only long leg, when there is exactly one. */
  method ChooseTicket(positions: seq<Position>) returns (ticket: int)
    ensures ticket != 0 ==> exists i :: OnlyLong(positions, i) && positions[i].ticket == ticket
    ensures ticket == 0 ==> !exists i :: OnlyLong(positions, i)
  {
    var buyTickets: seq<int> := [];
    ghost var at: seq<int> := [];
    for i := 0 to |positions|
      invariant |at| == |buyTickets|
      invariant forall k | 0 <= k < |at| ::
                  0 <= at[k] < i && IsLong(positions[at[k]]) && positions[at[k]].ticket == buyTickets[k]
      invariant forall k, l | 0 <= k < l < |at| :: at[k] < at[l]
      invariant forall j | 0 <= j < i && IsLong(positions[j]) :: j in at
    {
      if positions[i].ticket != 0 && positions[i].kind == 0 {
        buyTickets, at := buyTickets + [positions[i].ticket], at + [i];
      }
    }
    if |buyTickets| == 1 {
      assert at == [at[0]];
      assert OnlyLong(positions, at[0]);
      return buyTickets[0];
    }
    if |buyTickets| > 1 {
      assert IsLong(positions[at[0]]) && IsLong(positions[at[1]]) && at[0] < at[1];
    }
    return 0;
  }

  /** A fill of a SELL: against its leg when it carries a ticket, else as a new short leg. */
  function SellFill(book: seq<Position>, symbol: string, ticket: int, newTicket: int, executed: real): seq<Position> {
    if ticket != 0 then Execute(book, Request(symbol, executed, 1, ticket), executed)
    else book + [Position(newTicket, 1, symbol, executed)]
  }

  /** Gross exposure in one symbol: all volume, long and short. */
  function Gross(book: seq<Position>, symbol: string): real {
    if book == [] then 0.0
    else
      var p := book[0];
      (if p.symbol == symbol && (p.kind == 0 || p.kind == 1) then p.volume else 0.0) + Gross(book[1..], symbol)
  }

  lemma {:induction false} GrossConcat(a: seq<Position>, b: seq<Position>, symbol: string)
    ensures Gross(a + b, symbol) == Gross(a, symbol) + Gross(b, symbol)
  {
    if a == [] {
      assert a + b == b;
    } else {
      assert (a + b)[1..] == a[1..] + b;
      GrossConcat(a[1..], b, symbol);
    }
  }

  lemma GrossMiddle(a: seq<Position>, m: seq<Position>, b: seq<Position>, symbol: string)
    ensures Gross(a + m + b, symbol) == Gross(a, symbol) + Gross(m, symbol) + Gross(b, symbol)
  {
    GrossConcat(a + m, b, symbol);
    GrossConcat(a, m, symbol);
  }

  /** Against one leg of a book with unique tickets. */
  lemma ExecuteOn(book: seq<Position>, i: nat, req: Request, executed: real)
    requires i < |book| && UniqueTickets(book) && Closes(req, book[i]) && req.position != 0
    ensures book == book[..i] + [book[i]] + book[i + 1..]
    ensures Execute(book, req, executed) == book[..i] + Reduced(book[i], executed) + book[i + 1..]
  {
    ExecuteMiddle(book[..i], book[i], book[i + 1..], req, executed);
    assert book == book[..i] + [book[i]] + book[i + 1..];
  }

  lemma SellCloses(book: seq<Position>, i: nat, newTicket: int, executed: real, other: string)
    requires UniqueTickets(book) && i < |book| && IsLong(book[i]) && 0.0 <= executed <= book[i].volume
    ensures var p := book[i];
            var after := SellFill(book, p.symbol, p.ticket, newTicket, executed);
            && Net(after, other) == Net(book, other) - (if other == p.symbol then executed else 0.0)
            && Gross(after, p.symbol) == Gross(book, p.symbol) - executed
  {
    var p := book[i];
    ExecuteOn(book, i, Request(p.symbol, executed, 1, p.ticket), executed);
    var left, rest := Reduced(p, executed), book[i + 1..];
    NetMiddle(book[..i], [p], rest, other);
    NetMiddle(book[..i], left, rest, other);
    GrossMiddle(book[..i], [p], rest, p.symbol);
    GrossMiddle(book[..i], left, rest, p.symbol);
  }

  /** A SELL moves net exposure in its symbol by exactly minus the volume executed, and in no other,
      whatever ticket it carries; gross exposure falls by that volume when it closes a leg and rises by
      it when it opens one. */
  lemma SellMovesExposure(book: seq<Position>, symbol: string, ticket: int, newTicket: int, executed: real,
                          other: string)
    requires UniqueTickets(book) && executed >= 0.0
    requires ticket != 0 ==> exists i :: 0 <= i < |book| && IsLong(book[i]) && book[i].ticket == ticket
                                         && book[i].symbol == symbol && executed <= book[i].volume
    ensures var after := SellFill(book, symbol, ticket, newTicket, executed);
            && Net(after, other) == Net(book, other) - (if other == symbol then executed else 0.0)
            && Gross(after, symbol) == Gross(book, symbol) + (if ticket == 0 then executed else -executed)
  {
    if ticket == 0 {
      NetConcat(book, [Position(newTicket, 1, symbol, executed)], other);
      GrossConcat(book, [Position(newTicket, 1, symbol, executed)], symbol);
    } else {
      var i :| 0 <= i < |book| && IsLong(book[i]) && book[i].ticket == ticket
               && book[i].symbol == symbol && executed <= book[i].volume;
      SellCloses(book, i, newTicket, executed, other);
    }
  }

  /** Round trip: selling a long leg's whole volume under its ticket takes exactly that leg out of the book;
      if it was the only one, the book is flat. */
  lemma SellFlattens(book: seq<Position>, i: nat, newTicket: int)
    requires UniqueTickets(book) && i < |book| && IsLong(book[i])
    ensures var after := SellFill(book, book[i].symbol, book[i].ticket, newTicket, book[i].volume);
            after == book[..i] + book[i + 1..] && (|book| == 1 ==> after == [])
  {
    var p := book[i];
    ExecuteOn(book, i, Request(p.symbol, p.volume, 1, p.ticket), p.volume);
    assert book[..i] + [] + book[i + 1..] == book[..i] + book[i + 1..];
  }
}
