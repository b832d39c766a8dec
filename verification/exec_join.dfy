/** Joining executions with their commission reports, in whatever order the two halves arrive. */
module ExecJoin {
  import opened Prelude
  import Orders

  datatype Execution = Execution(execId: string, orderId: string, acctNumber: string, price: real, quantity: real)

  datatype CommissionReport = CommissionReport(execId: string, commission: real, currency: string)

  /** A value of the inner dictionary kept for one execution id. */
  datatype Detail = ExecutionOf(execution: Execution) | RefOf(ref: string) | ReportOf(report: CommissionReport)

  type Cell = map<string, Detail>

  datatype Event =
    | Exec(execution: Execution)
    | Report(report: CommissionReport)
    | Register(handler: string)
    | Deregister(handler: string)

  /** One call of a handler. */
  datatype Call = Call(handler: string, ref: string, execution: Execution, report: CommissionReport)

  datatype State = State(details: map<string, Cell>, handlers: set<string>)

  function HandlerName(account: string): string {
    "execDetails-" + account
  }

  function CellOf(s: State, id: string): Cell {
    if id in s.details then s.details[id] else map[]
  }

  function Joined(cell: Cell): bool {
    && "execution" in cell && cell["execution"].ExecutionOf?
    && "order_ref" in cell && cell["order_ref"].RefOf?
    && "commission_report" in cell && cell["commission_report"].ReportOf?
  }

  function CallFrom(cell: Cell, handler: string): Call
    requires Joined(cell)
  {
    Call(handler, cell["order_ref"].ref, cell["execution"].execution, cell["commission_report"].report)
  }

  /** After a call the id is popped from the inner dictionary, where it is normally not a key. */
  function Finish(s: State, id: string, cell: Cell, handler: string, ready: bool): (State, Option<Call>)
    requires ready ==> Joined(cell)
  {
    if ready then (s.(details := s.details[id := cell - {id}]), Some(CallFrom(cell, handler)))
    else (s.(details := s.details[id := cell]), None)
  }

  function Step(s: State, e: Event): (State, Option<Call>) {
    match e
    case Exec(x) =>
      var ref := RefOf(Orders.StripSuffix(x.orderId));
      var cell := CellOf(s, x.execId)["execution" := ExecutionOf(x)]["order_ref" := ref];
      Finish(s, x.execId, cell, HandlerName(x.acctNumber), HandlerName(x.acctNumber) in s.handlers && Joined(cell))
    case Report(r) =>
      var cell := CellOf(s, r.execId)["commission_report" := ReportOf(r)];
      if Joined(cell) then
        var account := cell["execution"].execution.acctNumber;
        Finish(s, r.execId, cell, HandlerName(account), account != "" && HandlerName(account) in s.handlers)
      else (s.(details := s.details[r.execId := cell]), None)
    case Register(name) => (s.(handlers := s.handlers + {name}), None)
    case Deregister(name) => (s.(handlers := s.handlers - {name}), None)
  }

  function Run(handlers: set<string>, es: seq<Event>): (State, seq<Call>) {
    if es == [] then (State(map[], handlers), [])
    else
      var n := |es| - 1;
      var (s, calls) := Run(handlers, es[..n]);
      var (s', call) := Step(s, es[n]);
      (s', calls + OptionSeq(call))
  }

  // ---------- the rule ----------

  /** What the run so far says of one id: its latest execution, its latest report. */
  function LatestExec(es: seq<Event>, id: string): Option<Execution> {
    if es == [] then None
    else
      var e := es[|es| - 1];
      if e.Exec? && e.execution.execId == id then Some(e.execution) else LatestExec(es[..|es| - 1], id)
  }

  function LatestReport(es: seq<Event>, id: string): Option<CommissionReport> {
    if es == [] then None
    else
      var e := es[|es| - 1];
      if e.Report? && e.report.execId == id then Some(e.report) else LatestReport(es[..|es| - 1], id)
  }

  predicate Both(es: seq<Event>, id: string) {
    LatestExec(es, id).Some? && LatestReport(es, id).Some?
  }

  predicate About(e: Event, id: string) {
    (e.Exec? && e.execution.execId == id) || (e.Report? && e.report.execId == id)
  }

  function ForId(id: string): Call -> bool {
    (c: Call) => c.execution.execId == id
  }

  /** The calls made for one id. */
  function CallsFor(calls: seq<Call>, id: string): seq<Call> {
    Filter(ForId(id), calls)
  }

  /** The join of the id's latest halves. */
  function JoinOf(es: seq<Event>, id: string): Call
    requires Both(es, id)
  {
    var x := LatestExec(es, id).value;
    Call(HandlerName(x.acctNumber), Orders.StripSuffix(x.orderId), x, LatestReport(es, id).value)
  }

  /** No handler is ever missing for an execution of `id`: all its accounts are named and registered, and
      nothing is deregistered. */
  ghost predicate Served(handlers: set<string>, es: seq<Event>, id: string) {
    forall e | e in es ::
      && !e.Deregister?
      && (e.Exec? && e.execution.execId == id ==>
            e.execution.acctNumber != "" && HandlerName(e.execution.acctNumber) in handlers)
  }

  /** The keys of the inner dictionary; an execution id spelled like one would be popped for real. */
  predicate Ordinary(id: string) {
    id != "execution" && id != "order_ref" && id != "commission_report"
  }

  // ---------- proof ----------

  /** The inner dictionary holds the latest halves. */
  ghost predicate Holds(cell: Cell, es: seq<Event>, id: string) {
    && ("execution" in cell <==> LatestExec(es, id).Some?)
    && (LatestExec(es, id).Some? ==>
          && cell["execution"] == ExecutionOf(LatestExec(es, id).value)
          && "order_ref" in cell && cell["order_ref"] == RefOf(Orders.StripSuffix(LatestExec(es, id).value.orderId)))
    && ("commission_report" in cell <==> LatestReport(es, id).Some?)
    && (LatestReport(es, id).Some? ==> cell["commission_report"] == ReportOf(LatestReport(es, id).value))
  }

  lemma {:induction false} LatestNamed(es: seq<Event>, id: string)
    ensures LatestExec(es, id).Some? ==> LatestExec(es, id).value.execId == id && Exec(LatestExec(es, id).value) in es
    ensures LatestReport(es, id).Some? ==> LatestReport(es, id).value.execId == id
  {
    if es != [] {
      LatestNamed(es[..|es| - 1], id);
    }
  }

  lemma Latest(es: seq<Event>, e: Event, id: string)
    ensures LatestExec(es + [e], id) ==
            if e.Exec? && e.execution.execId == id then Some(e.execution) else LatestExec(es, id)
    ensures LatestReport(es + [e], id) ==
            if e.Report? && e.report.execId == id then Some(e.report) else LatestReport(es, id)
  {
    assert (es + [e])[..|es|] == es;
  }

  lemma RunSnoc(handlers: set<string>, es: seq<Event>, e: Event)
    ensures var (s, calls) := Run(handlers, es);
            Run(handlers, es + [e]) == (Step(s, e).0, calls + OptionSeq(Step(s, e).1))
  {
    assert (es + [e])[..|es|] == es;
  }

  lemma {:induction false} HandlersStay(handlers: set<string>, es: seq<Event>, id: string)
    requires Served(handlers, es, id)
    ensures handlers <= Run(handlers, es).0.handlers
  {
    if es != [] {
      var n := |es| - 1;
      assert es == es[..n] + [es[n]] && es[n] in es;
      HandlersStay(handlers, es[..n], id);
      RunSnoc(handlers, es[..n], es[n]);
    }
  }

  lemma ExecStep(s: State, es: seq<Event>, x: Execution)
    requires Holds(CellOf(s, x.execId), es, x.execId) && HandlerName(x.acctNumber) in s.handlers
    ensures var (t, call) := Step(s, Exec(x));
            var id, all := x.execId, es + [Exec(x)];
            && call == (if Both(all, id) then Some(JoinOf(all, id)) else None)
            && (Ordinary(id) || call == None ==> Holds(CellOf(t, id), all, id))
  {
    Latest(es, Exec(x), x.execId);
  }

  lemma ReportStep(s: State, es: seq<Event>, r: CommissionReport)
    requires Holds(CellOf(s, r.execId), es, r.execId)
    requires LatestExec(es, r.execId).Some? ==>
               var x := LatestExec(es, r.execId).value; x.acctNumber != "" && HandlerName(x.acctNumber) in s.handlers
    ensures var (t, call) := Step(s, Report(r));
            var id, all := r.execId, es + [Report(r)];
            && call == (if Both(all, id) then Some(JoinOf(all, id)) else None)
            && (Ordinary(id) || call == None ==> Holds(CellOf(t, id), all, id))
  {
    Latest(es, Report(r), r.execId);
  }

  /** One event on a cell that holds the latest halves: the call is exactly the join of the new latest
      halves, if both are there and the event is about this id. */
  lemma JoinStep(handlers: set<string>, s: State, es: seq<Event>, e: Event, id: string)
    requires Holds(CellOf(s, id), es, id) && handlers <= s.handlers && Served(handlers, es + [e], id)
    ensures var (t, call) := Step(s, e);
            && (About(e, id) ==> call == if Both(es + [e], id) then Some(JoinOf(es + [e], id)) else None)
            && (Ordinary(id) || call == None || !About(e, id) ==> Holds(CellOf(t, id), es + [e], id))
  {
    LatestNamed(es, id);
    assert e in es + [e];
    if About(e, id) {
      assert LatestExec(es, id).Some? ==> Exec(LatestExec(es, id).value) in es + [e];
      match e
      case Exec(x) => ExecStep(s, es, x);
      case Report(r) => ReportStep(s, es, r);
    } else {
      Latest(es, e, id);
      OtherCells(s, e, id);
    }
  }

  lemma OtherCells(s: State, e: Event, id: string)
    requires !About(e, id)
    ensures CellOf(Step(s, e).0, id) == CellOf(s, id)
  {
  }

  lemma CallNamed(s: State, e: Event)
    requires forall k | k in s.details && "execution" in s.details[k] && s.details[k]["execution"].ExecutionOf? ::
               s.details[k]["execution"].execution.execId == k
    ensures var (t, call) := Step(s, e);
            && (call.Some? ==> About(e, call.value.execution.execId))
            && forall k | k in t.details && "execution" in t.details[k] && t.details[k]["execution"].ExecutionOf? ::
                 t.details[k]["execution"].execution.execId == k
  {
  }

  lemma {:induction false} CellsNamed(handlers: set<string>, es: seq<Event>)
    ensures forall k | k in Run(handlers, es).0.details ::
              var cell := Run(handlers, es).0.details[k];
              "execution" in cell && cell["execution"].ExecutionOf? ==> cell["execution"].execution.execId == k
  {
    if es != [] {
      var n := |es| - 1;
      CellsNamed(handlers, es[..n]);
      CallNamed(Run(handlers, es[..n]).0, es[n]);
    }
  }

  /** What one more event adds to the calls for `id`. */
  lemma CallsStep(handlers: set<string>, es: seq<Event>, e: Event, id: string)
    ensures var call := Step(Run(handlers, es).0, e).1;
            CallsFor(Run(handlers, es + [e]).1, id) ==
            if call.Some? && call.value.execution.execId == id then CallsFor(Run(handlers, es).1, id) + [call.value]
            else CallsFor(Run(handlers, es).1, id)
    ensures var call := Step(Run(handlers, es).0, e).1;
            call.Some? && call.value.execution.execId == id ==> About(e, id)
  {
    var (s, calls) := Run(handlers, es);
    RunSnoc(handlers, es, e);
    CellsNamed(handlers, es);
    CallNamed(s, e);
    if Step(s, e).1.Some? {
      FilterSnoc(ForId(id), calls, Step(s, e).1.value);
    } else {
      assert calls + [] == calls;
    }
  }

  /** Until its first call, or for good when the id is ordinary, the cell holds the latest halves; and
      there has been a call exactly when both halves have arrived. */
  lemma {:induction false} CalledOnceBoth(handlers: set<string>, es: seq<Event>, id: string)
    requires Served(handlers, es, id)
    ensures CallsFor(Run(handlers, es).1, id) != [] <==> Both(es, id)
    ensures Ordinary(id) || !Both(es, id) ==> Holds(CellOf(Run(handlers, es).0, id), es, id)
  {
    if es != [] {
      var n := |es| - 1;
      var front, e := es[..n], es[n];
      assert es == front + [e];
      CalledOnceBoth(handlers, front, id);
      HandlersStay(handlers, front, id);
      CallsStep(handlers, front, e, id);
      RunSnoc(handlers, front, e);
      Latest(front, e, id);
      var s := Run(handlers, front).0;
      if Ordinary(id) || !Both(front, id) {
        JoinStep(handlers, s, front, e, id);
        LatestNamed(es, id);
      }
    }
  }

  // ---------- main results ----------

  /** What a run says of one id and the calls it made for it. */
  ghost predicate SameFor(handlers: set<string>, es: seq<Event>, fs: seq<Event>, id: string) {
    && CallsFor(Run(handlers, es).1, id) == CallsFor(Run(handlers, fs).1, id)
    && LatestExec(es, id) == LatestExec(fs, id) && LatestReport(es, id) == LatestReport(fs, id)
  }

  lemma OtherIgnored(handlers: set<string>, es: seq<Event>, e: Event, id: string)
    requires !About(e, id)
    ensures SameFor(handlers, es + [e], es, id)
  {
    CallsStep(handlers, es, e, id);
    Latest(es, e, id);
  }

  /** Events about other ids change nothing for `id`. */
  lemma {:induction false} OthersIgnored(handlers: set<string>, es: seq<Event>, rest: seq<Event>, id: string)
    requires forall e | e in rest :: !About(e, id)
    ensures SameFor(handlers, es + rest, es, id)
    decreases |rest|
  {
    if rest == [] {
      assert es + rest == es;
    } else {
      assert rest[0] in rest;
      OtherIgnored(handlers, es, rest[0], id);
      OthersIgnored(handlers, es + [rest[0]], rest[1..], id);
      assert es + rest == es + [rest[0]] + rest[1..];
    }
  }

  /** The call for an id is made the moment its second half arrives, with its own latest halves; if no
      further event about the id follows, it is the only one. In particular each half delivered once, in
      either order and amid anything else, gives exactly one call. */
  lemma ExactlyOneCall(handlers: set<string>, front: seq<Event>, e: Event, rest: seq<Event>, id: string)
    requires About(e, id) && !Both(front, id) && Both(front + [e], id)
    requires forall x | x in rest :: !About(x, id)
    requires Served(handlers, front + [e] + rest, id)
    ensures CallsFor(Run(handlers, front + [e] + rest).1, id) == [JoinOf(front + [e], id)]
  {
    assert forall x | x in front + [e] :: x in front + [e] + rest;
    assert forall x | x in front :: x in front + [e];
    OthersIgnored(handlers, front + [e], rest, id);
    CalledOnceBoth(handlers, front, id);
    HandlersStay(handlers, front, id);
    CallsStep(handlers, front, e, id);
    LatestNamed(front + [e], id);
    JoinStep(handlers, Run(handlers, front).0, front, e, id);
  }

  /** The handler is called exactly once for an ordinary id precisely when the event that completes it is
      the last about it: what has been joined is never forgotten, so every repeat calls again. */
  lemma OneCallIff(handlers: set<string>, front: seq<Event>, e: Event, rest: seq<Event>, id: string)
    requires Ordinary(id) && About(e, id) && Both(front + [e], id)
    requires forall x | x in rest :: !About(x, id)
    requires Served(handlers, front + [e] + rest, id)
    ensures |CallsFor(Run(handlers, front + [e] + rest).1, id)| == 1 <==> !Both(front, id)
  {
    if !Both(front, id) {
      ExactlyOneCall(handlers, front, e, rest, id);
    } else {
      assert forall x | x in front + [e] :: x in front + [e] + rest;
      assert forall x | x in front :: x in front + [e];
      OthersIgnored(handlers, front + [e], rest, id);
      CalledOnceBoth(handlers, front, id);
      HandlersStay(handlers, front, id);
      CallsStep(handlers, front, e, id);
      LatestNamed(front + [e], id);
      JoinStep(handlers, Run(handlers, front).0, front, e, id);
    }
  }

  /** Every call joins two halves of one id, both of which were delivered. */
  lemma {:induction false} OwnHalvesOnly(handlers: set<string>, es: seq<Event>, id: string)
    requires Served(handlers, es, id) && Ordinary(id)
    ensures forall c | c in CallsFor(Run(handlers, es).1, id) ::
              && c.execution.execId == id && c.report.execId == id
              && Exec(c.execution) in es && Report(c.report) in es
              && c.ref == Orders.StripSuffix(c.execution.orderId) && c.handler == HandlerName(c.execution.acctNumber)
  {
    if es != [] {
      var n := |es| - 1;
      var front, e := es[..n], es[n];
      assert es == front + [e];
      OwnHalvesOnly(handlers, front, id);
      CalledOnceBoth(handlers, front, id);
      HandlersStay(handlers, front, id);
      CallsStep(handlers, front, e, id);
      JoinStep(handlers, Run(handlers, front).0, front, e, id);
      LatestNamed(es, id);
      ReportDelivered(es, id);
    }
  }

  /** Without the handlers being there throughout: a call goes to a handler registered at that moment, that
      of the execution's own account, and it passes on the half that has just arrived; a report calls nobody
      for an execution without account. */
  lemma CallsOnlyRegistered(handlers: set<string>, es: seq<Event>, e: Event)
    ensures var s := Run(handlers, es).0;
            var call := Step(s, e).1;
            call.Some? ==>
              && call.value.handler in s.handlers
              && call.value.handler == HandlerName(call.value.execution.acctNumber)
              && About(e, call.value.execution.execId)
              && (e.Exec? ==> call.value.execution == e.execution)
              && (e.Report? ==> call.value.report == e.report && call.value.execution.acctNumber != "")
  {
    CellsNamed(handlers, es);
    CallNamed(Run(handlers, es).0, e);
  }

  // ---------- whichever handlers there are ----------

  /** What is kept of an id after an event about it: the new half, and possibly the id popped. */
  lemma CellAfter(s: State, e: Event, id: string)
    requires About(e, id)
    ensures var cell := match e
                        case Exec(x) =>
                          var ref := RefOf(Orders.StripSuffix(x.orderId));
                          CellOf(s, id)["execution" := ExecutionOf(x)]["order_ref" := ref]
                        case Report(r) => CellOf(s, id)["commission_report" := ReportOf(r)];
            CellOf(Step(s, e).0, id) == cell || CellOf(Step(s, e).0, id) == cell - {id}
  {
  }

  lemma PoppedHolds(cell: Cell, es: seq<Event>, id: string)
    requires Ordinary(id) && Holds(cell, es, id)
    ensures Holds(cell - {id}, es, id)
  {
  }

  lemma HoldsStep(s: State, es: seq<Event>, e: Event, id: string)
    requires Ordinary(id) && Holds(CellOf(s, id), es, id)
    ensures Holds(CellOf(Step(s, e).0, id), es + [e], id)
  {
    Latest(es, e, id);
    if !About(e, id) {
      OtherCells(s, e, id);
    } else {
      CellAfter(s, e, id);
      var cell := CellOf(s, id);
      match e {
        case Exec(x) =>
          var ref := RefOf(Orders.StripSuffix(x.orderId));
          PoppedHolds(cell["execution" := ExecutionOf(x)]["order_ref" := ref], es + [e], id);
        case Report(r) => PoppedHolds(cell["commission_report" := ReportOf(r)], es + [e], id);
      }
    }
  }

  lemma {:induction false} HoldsAlways(handlers: set<string>, es: seq<Event>, id: string)
    requires Ordinary(id)
    ensures Holds(CellOf(Run(handlers, es).0, id), es, id)
  {
    if es != [] {
      var n := |es| - 1;
      assert es == es[..n] + [es[n]];
      HoldsAlways(handlers, es[..n], id);
      RunSnoc(handlers, es[..n], es[n]);
      HoldsStep(Run(handlers, es[..n]).0, es[..n], es[n], id);
    }
  }

  /** What the run last said of a handler: registered or not. */
  function LastSaid(es: seq<Event>, handler: string): Option<bool> {
    if es == [] then None
    else
      match es[|es| - 1]
      case Register(name) => if name == handler then Some(true) else LastSaid(es[..|es| - 1], handler)
      case Deregister(name) => if name == handler then Some(false) else LastSaid(es[..|es| - 1], handler)
      case _ => LastSaid(es[..|es| - 1], handler)
  }

  lemma {:induction false} RegisteredNow(handlers: set<string>, es: seq<Event>, handler: string)
    ensures handler in Run(handlers, es).0.handlers <==>
            if LastSaid(es, handler) == None then handler in handlers else LastSaid(es, handler) == Some(true)
  {
    if es != [] {
      RegisteredNow(handlers, es[..|es| - 1], handler);
    }
  }

  /** The handler for executions of this account can be called. */
  ghost predicate CanCall(handlers: set<string>, es: seq<Event>, account: string) {
    var handler := "execDetails-" + account;
    if LastSaid(es, handler) == None then handler in handlers else LastSaid(es, handler) == Some(true)
  }

  /** Every call of every run, exactly: an event about an ordinary id makes a call if and only if both halves
      of the id have arrived by then, the handler of the latest execution's account is registered, and, for a
      report, the account has a name. The call goes to that handler with the id's latest halves and the
      execution's order reference less its suffix. */
  lemma CalledExactly(handlers: set<string>, es: seq<Event>, e: Event, id: string)
    requires Ordinary(id) && About(e, id)
    ensures var call, all := Step(Run(handlers, es).0, e).1, es + [e];
            if !Both(all, id) then call == None
            else
              var x := LatestExec(all, id).value;
              if CanCall(handlers, es, x.acctNumber) && (e.Exec? || x.acctNumber != "")
              then call == Some(Call("execDetails-" + x.acctNumber, Orders.StripSuffix(x.orderId), x,
                                     LatestReport(all, id).value))
              else call == None
  {
    HoldsAlways(handlers, es, id);
    Latest(es, e, id);
    if Both(es + [e], id) {
      RegisteredNow(handlers, es, "execDetails-" + LatestExec(es + [e], id).value.acctNumber);
    }
  }

  /** After a call another half of the same id calls again, unless the pop meant for the outer dictionary
      took a half it needs: exactly for an id spelled like that half's key. */
  lemma ForgottenExactly(s: State, e: Event, x: Execution, r: CommissionReport)
    requires About(e, x.execId) && r.execId == x.execId && Step(s, e).1.Some?
    requires Step(s, e).1.value.execution.acctNumber != "" && HandlerName(x.acctNumber) in s.handlers
    ensures Step(Step(s, e).0, Report(r)).1.Some? <==> x.execId != "execution" && x.execId != "order_ref"
    ensures Step(Step(s, e).0, Exec(x)).1.Some? <==> x.execId != "commission_report"
  {
  }

  /** Different accounts have different handlers. */
  lemma HandlersDiffer(a: string, b: string)
    ensures HandlerName(a) == HandlerName(b) <==> a == b
  {
    var head := "execDetails-";
    if HandlerName(a) == HandlerName(b) {
      assert HandlerName(a)[|head|..] == a && HandlerName(b)[|head|..] == b;
    }
  }

  lemma {:induction false} ReportDelivered(es: seq<Event>, id: string)
    ensures LatestReport(es, id).Some? ==> Report(LatestReport(es, id).value) in es
  {
    if es != [] {
      ReportDelivered(es[..|es| - 1], id);
    }
  }

  // ---------- the client ----------

  class ExecutionJoin {
    var execIdDetails: map<string, Cell>
    var eventSubscriptions: set<string>

    ghost function Abs(): State
      reads this
    {
      State(execIdDetails, eventSubscriptions)
    }

    constructor (handlers: set<string>)
      ensures Abs() == State(map[], handlers)
    {
      execIdDetails, eventSubscriptions := map[], handlers;
    }

    method ProcessExecDetails(execution: Execution) returns (call: Option<Call>)
      modifies `execIdDetails
      ensures (Abs(), call) == Step(old(Abs()), Exec(execution))
    {
      var id := execution.execId;
      var cache: Cell := if id in execIdDetails then execIdDetails[id] else map[];
      cache := cache["execution" := ExecutionOf(execution)];
      cache := cache["order_ref" := RefOf(Orders.StripSuffix(execution.orderId))];
      call := None;
      var name := HandlerName(execution.acctNumber);
      if name in eventSubscriptions && "commission_report" in cache && cache["commission_report"].ReportOf? {
        var report := cache["commission_report"].report;
        call := Some(Call(name, cache["order_ref"].ref, cache["execution"].execution, report));
        cache := cache - {id};
      }
      execIdDetails := execIdDetails[id := cache];
    }

    method ProcessCommissionReport(report: CommissionReport) returns (call: Option<Call>)
      modifies `execIdDetails
      ensures (Abs(), call) == Step(old(Abs()), Report(report))
    {
      var id := report.execId;
      var cache: Cell := if id in execIdDetails then execIdDetails[id] else map[];
      cache := cache["commission_report" := ReportOf(report)];
      call := None;
      if Joined(cache) && cache["execution"].execution.acctNumber != "" {
        var name := HandlerName(cache["execution"].execution.acctNumber);
        if name in eventSubscriptions {
          var execution := cache["execution"].execution;
          call := Some(Call(name, cache["order_ref"].ref, execution, cache["commission_report"].report));
          cache := cache - {id};
        }
      }
      execIdDetails := execIdDetails[id := cache];
    }
  }
}
