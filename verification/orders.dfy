/** Order ids and order references: ids from one counter, the map from ids to client references, and the
    routing of what the venue reports back. */
module Orders {
  import opened Prelude

  // ---------- references ----------

  /** The reference without its last `:suffix`, if it has one. */
  function StripSuffix(s: string): (r: string)
    ensures ':' !in s ==> r == s
    ensures ':' in s ==> |r| < |s| && r <= s && s[|r|] == ':' && ':' !in s[|r| + 1..]
  {
    if ':' !in s then s
    else if s[|s| - 1] == ':' then s[..|s| - 1]
    else
      var front := s[..|s| - 1];
      assert s == front + [s[|s| - 1]];
      var r := StripSuffix(front);
      assert s[|r| + 1..] == front[|r| + 1..] + [s[|s| - 1]];
      r
  }

  function Decimal(n: nat): string {
    var digit := [('0' as int + n % 10) as char];
    if n < 10 then digit else Decimal(n / 10) + digit
  }

  /** A number as text. */
  function Str(n: int): string {
    if n < 0 then "-" + Decimal(-n) else Decimal(n)
  }

  lemma {:induction false} DecimalHasNoColon(n: nat)
    ensures ':' !in Decimal(n)
  {
    if n >= 10 {
      DecimalHasNoColon(n / 10);
    }
  }

  /** The number a text of digits denotes. */
  function ValueOf(s: string): int {
    if s == "" then 0 else 10 * ValueOf(s[..|s| - 1]) + (s[|s| - 1] as int - '0' as int)
  }

  function NumberOf(s: string): int {
    if s != "" && s[0] == '-' then -ValueOf(s[1..]) else ValueOf(s)
  }

  lemma {:induction false} DecimalDenotes(n: nat)
    ensures ValueOf(Decimal(n)) == n && Decimal(n) != ""
    ensures forall c | c in Decimal(n) :: '0' <= c <= '9'
    ensures n != 0 ==> Decimal(n)[0] != '0'
  {
    if n >= 10 {
      DecimalDenotes(n / 10);
      var front := Decimal(n / 10);
      assert Decimal(n)[..|front|] == front;
    }
  }

  /** A number as text denotes the number: digits, without leading zeros, after a minus sign when negative. */
  lemma StrDenotes(n: int)
    ensures NumberOf(Str(n)) == n && (n == 0 ==> Str(n) == "0")
  {
    DecimalDenotes(if n < 0 then -n else n);
    if n < 0 {
      assert Str(n)[1..] == Decimal(-n);
    } else {
      assert Decimal(n)[0] in Decimal(n);
    }
  }

  /** The reference sent to the venue. */
  function WireRef(clientRef: string, id: int): string {
    clientRef + ":" + Str(id)
  }

  lemma StripAt(s: string, n: nat)
    requires n < |s| && s[n] == ':' && ':' !in s[n + 1..]
    ensures StripSuffix(s) == s[..n]
  {
    forall r | 0 <= r <= n ensures s[n] in s[r..] {
      assert s[r..][n - r] == s[n];
    }
    assert forall r | n < r < |s| :: s[n + 1..][r - n - 1] == s[r];
  }

  lemma StripWire(clientRef: string, id: int)
    ensures StripSuffix(WireRef(clientRef, id)) == clientRef
  {
    DecimalHasNoColon(if id < 0 then -id else id);
    var wire := WireRef(clientRef, id);
    assert wire[|clientRef| + 1..] == Str(id);
    StripAt(wire, |clientRef|);
    assert wire[..|clientRef|] == clientRef;
  }

  /** The suffix put on at placing comes off when the venue echoes the reference. What is stored at placing,
      and what is left after stripping twice, is the client's own reference exactly when that has no colon. */
  lemma RefRoundTrip(clientRef: string, id: int)
    ensures StripSuffix(WireRef(clientRef, id)) == clientRef
    ensures StripSuffix(StripSuffix(WireRef(clientRef, id))) == StripSuffix(clientRef)
    ensures StripSuffix(clientRef) == clientRef <==> ':' !in clientRef
  {
    StripWire(clientRef, id);
  }

  /** The reference sent tells both what the client called the order and its id. */
  lemma WireRefIdentifies(a: string, i: int, b: string, j: int)
    ensures WireRef(a, i) == WireRef(b, j) <==> a == b && i == j
  {
    StripWire(a, i);
    StripWire(b, j);
    StrDenotes(i);
    StrDenotes(j);
    assert WireRef(a, i)[|a| + 1..] == Str(i) && WireRef(b, j)[|b| + 1..] == Str(j);
  }

  // ---------- specification ----------

  datatype AccountOrderRef = AccountOrderRef(account: string, ref: string)

  datatype Order = Order(id: int, account: string, ref: string)

  /** `openOrders` is the answer being collected, when one was asked for; `placed` is what was placed. */
  datatype State = State(nextId: int, refs: map<int, AccountOrderRef>, openOrders: Option<seq<Order>>,
                         handlers: set<string>, handed: seq<int>, placed: map<int, AccountOrderRef>)

  datatype Step =
    | TakeId
    | PlaceAt(id: int, account: string, ref: string)
    | ValidId(id: int)
    | AskOpenOrders
    | OpenOrder(order: Order)
    | OpenOrderEnd
    | Register(handler: string)

  datatype Routed = Routed(handler: string, ref: string)

  function Init(): State {
    State(-1, map[], None, {}, [], map[])
  }

  function RefOr(ref: string, id: int): string {
    if ref != "" then StripSuffix(ref) else Str(id)
  }

  function Max3(a: int, b: int, c: int): int {
    var m := if a < b then b else a;
    if m < c then c else m
  }

  function Place(refs: map<int, AccountOrderRef>, order: Order): map<int, AccountOrderRef> {
    refs[order.id := AccountOrderRef(order.account, RefOr(order.ref, order.id))]
  }

  /** An open order: part of an answer, when one is being collected, else an event. */
  function OpenOrderStep(s: State, order: Order): (State, Option<Routed>) {
    var ref := RefOr(order.ref, order.id);
    if s.openOrders.Some? then
      (s.(openOrders := Some(s.openOrders.value + [order.(ref := ref)]),
          refs := if order.id in s.refs then s.refs else s.refs[order.id := AccountOrderRef(order.account, ref)]),
       None)
    else
      var name := "openOrder-" + order.account;
      (s, if name in s.handlers then Some(Routed(name, StripSuffix(ref))) else None)
  }

  /** An order is placed once, under an id it was handed; between the two anything may happen. */
  predicate CanPlace(s: State, id: int) {
    id in s.handed && id !in s.placed
  }

  function Next(s: State, step: Step): State {
    match step
    case TakeId => s.(nextId := s.nextId + 1, handed := s.handed + [s.nextId])
    case PlaceAt(id, account, ref) =>
      if CanPlace(s, id)
      then s.(refs := Place(s.refs, Order(id, account, ref)), placed := s.placed[id := AccountOrderRef(account, ref)])
      else s
    case ValidId(id) => s.(nextId := Max3(s.nextId, id, 101))
    case AskOpenOrders => s.(openOrders := if s.openOrders.Some? then s.openOrders else Some([]))
    case OpenOrder(order) => OpenOrderStep(s, order).0
    case OpenOrderEnd => s.(openOrders := None)
    case Register(name) => s.(handlers := s.handlers + {name})
  }

  function Run(steps: seq<Step>): State {
    if steps == [] then Init() else Next(Run(steps[..|steps| - 1]), steps[|steps| - 1])
  }

  /** Where the status of an order goes. */
  function RouteStatus(s: State, id: int): Option<Routed> {
    if id in s.refs && "orderStatus-" + s.refs[id].account in s.handlers
    then Some(Routed("orderStatus-" + s.refs[id].account, s.refs[id].ref)) else None
  }

  // ---------- main results ----------

  /** Strictly increasing, all below `next`. */
  ghost predicate Rising(ids: seq<int>, next: int) {
    && (forall i, j | 0 <= i < j < |ids| :: ids[i] < ids[j])
    && forall i | 0 <= i < |ids| :: ids[i] < next
  }

  lemma RisingSnoc(ids: seq<int>, next: int)
    requires Rising(ids, next)
    ensures Rising(ids + [next], next + 1)
  {
  }

  ghost predicate Inv(s: State) {
    && Rising(s.handed, s.nextId)
    && (forall id | id in s.placed :: id in s.handed)
    && forall id | id in s.placed ::
         id in s.refs && s.refs[id] == AccountOrderRef(s.placed[id].account, RefOr(s.placed[id].ref, id))
  }

  lemma InvKept(s: State, step: Step)
    requires Inv(s)
    ensures Inv(Next(s, step))
    ensures s.nextId <= Next(s, step).nextId
    ensures forall id | id in s.placed :: id in Next(s, step).placed && Next(s, step).placed[id] == s.placed[id]
  {
    RisingSnoc(s.handed, s.nextId);
  }

  lemma {:induction false} InvHolds(steps: seq<Step>)
    ensures Inv(Run(steps))
  {
    if steps != [] {
      InvHolds(steps[..|steps| - 1]);
      InvKept(Run(steps[..|steps| - 1]), steps[|steps| - 1]);
    }
  }

  /** In any interleaving, the ids handed out strictly increase; and whatever order was placed, its status
      goes to its account's handler with its stored reference, which is the client's own exactly when
      that is non-empty and has no colon. */
  lemma IdsAndRouting(steps: seq<Step>, id: int)
    ensures var s := Run(steps);
            && (forall i, j | 0 <= i < j < |s.handed| :: s.handed[i] < s.handed[j])
            && (id in s.placed ==>
                  var o, name := s.placed[id], "orderStatus-" + s.placed[id].account;
                  var stored := if o.ref != "" then StripSuffix(o.ref) else Str(id);
                  && RouteStatus(s, id) == (if name in s.handlers then Some(Routed(name, stored)) else None)
                  && (stored == o.ref <==> o.ref != "" && ':' !in o.ref))
  {
    InvHolds(steps);
    if id in Run(steps).placed && Run(steps).placed[id].ref == "" {
      assert |Decimal(if id < 0 then -id else id)| > 0;
    }
  }

  /** From state `s` to state `t` ids have only been added, none below the counter of `s`. */
  ghost predicate HandsOnFrom(s: State, t: State) {
    && s.nextId <= t.nextId && s.handed <= t.handed
    && forall k | |s.handed| <= k < |t.handed| :: s.nextId <= t.handed[k]
  }

  lemma HandsOnStep(s: State, t: State, step: Step)
    requires HandsOnFrom(s, t)
    ensures HandsOnFrom(s, Next(t, step))
  {
  }

  lemma {:induction false} HandsOn(steps: seq<Step>, more: seq<Step>)
    ensures HandsOnFrom(Run(steps), Run(steps + more))
    decreases |more|
  {
    if more == [] {
      assert steps + more == steps;
    } else {
      var n := |more| - 1;
      HandsOn(steps, more[..n]);
      assert (steps + more)[..|steps + more| - 1] == steps + more[..n];
      HandsOnStep(Run(steps), Run(steps + more[..n]), more[n]);
    }
  }

  /** A valid id is heeded for good: the counter rises to it, and to 101 at least, unless it is there already;
      no id handed out later is below that. */
  lemma ValidIdHeeded(steps: seq<Step>, id: int, more: seq<Step>)
    ensures var before, heeded := Run(steps), Run(steps + [ValidId(id)]);
            && heeded.nextId >= id && heeded.nextId >= 101 && heeded.nextId >= before.nextId
            && heeded.nextId in {before.nextId, id, 101} && heeded.handed == before.handed
            && HandsOnFrom(heeded, Run(steps + [ValidId(id)] + more))
  {
    var heeded := steps + [ValidId(id)];
    assert heeded[..|steps|] == steps;
    HandsOn(heeded, more);
  }

  /** How many ids were asked for. */
  function Taken(steps: seq<Step>): nat {
    if steps == [] then 0
    else Taken(steps[..|steps| - 1]) + if steps[|steps| - 1] == TakeId then 1 else 0
  }

  /** From state `s` to state `t` the next `n` ids have been handed out, one after the other. */
  ghost predicate HandedNext(s: State, t: State, n: nat) {
    && t.nextId == s.nextId + n && |t.handed| == |s.handed| + n && s.handed <= t.handed
    && forall k | |s.handed| <= k < |t.handed| :: t.handed[k] == s.nextId + k - |s.handed|
  }

  lemma HandedNextStep(s: State, t: State, n: nat, step: Step)
    requires HandedNext(s, t, n) && !step.ValidId?
    ensures HandedNext(s, Next(t, step), if step == TakeId then n + 1 else n)
  {
  }

  /** Without a valid-id message each id asked for is the one after the one before, and no id is skipped;
      the very first is -1. */
  lemma {:induction false} IdsConsecutive(steps: seq<Step>, more: seq<Step>)
    requires forall i | 0 <= i < |more| :: !more[i].ValidId?
    ensures HandedNext(Run(steps), Run(steps + more), Taken(more))
    ensures Run([]).nextId == -1 && Run([]).handed == []
    decreases |more|
  {
    if more == [] {
      assert steps + more == steps;
    } else {
      var n := |more| - 1;
      IdsConsecutive(steps, more[..n]);
      assert (steps + more)[..|steps + more| - 1] == steps + more[..n];
      HandedNextStep(Run(steps), Run(steps + more[..n]), Taken(more[..n]), more[n]);
    }
  }

  /** The open orders among the steps, in order: id and account as reported, the reference without its suffix
      or, when there is none, the id. */
  function Reported(steps: seq<Step>): seq<Order> {
    if steps == [] then []
    else
      var n := |steps| - 1;
      Reported(steps[..n]) +
      match steps[n]
      case OpenOrder(o) => [Order(o.id, o.account, if o.ref != "" then StripSuffix(o.ref) else Str(o.id))]
      case _ => []
  }

  /** Asking for the open orders collects every one reported until the answer ends, in order, whatever happens
      in between. */
  lemma {:induction false} AnswerCollects(steps: seq<Step>, more: seq<Step>)
    requires Run(steps).openOrders == None && OpenOrderEnd !in more
    ensures Run(steps + [AskOpenOrders] + more).openOrders == Some(Reported(more))
    decreases |more|
  {
    var asked := steps + [AskOpenOrders];
    if more == [] {
      assert asked + more == asked && asked[..|steps|] == steps;
    } else {
      var n := |more| - 1;
      AnswerCollects(steps, more[..n]);
      assert (asked + more)[..|asked + more| - 1] == asked + more[..n];
      assert Reported(more[..n]) + [] == Reported(more[..n]);
    }
  }

  /** Once the answer has ended nothing is collected until somebody asks again. */
  lemma {:induction false} AnswerEnds(steps: seq<Step>, more: seq<Step>)
    requires AskOpenOrders !in more
    ensures Run(steps + [OpenOrderEnd] + more).openOrders == None
    decreases |more|
  {
    var ended := steps + [OpenOrderEnd];
    if more == [] {
      assert ended + more == ended && ended[..|steps|] == steps;
    } else {
      var n := |more| - 1;
      AnswerEnds(steps, more[..n]);
      assert more[n] in more;
      assert (ended + more)[..|ended + more| - 1] == ended + more[..n];
    }
  }

  /** A handler is registered once the run has registered it. */
  lemma {:induction false} RegisteredExactly(steps: seq<Step>, handler: string)
    ensures handler in Run(steps).handlers <==> Register(handler) in steps
  {
    if steps != [] {
      var n := |steps| - 1;
      assert steps == steps[..n] + [steps[n]];
      RegisteredExactly(steps[..n], handler);
    }
  }

  lemma RefStays(s: State, step: Step, id: int)
    requires id in s.refs && !(step.PlaceAt? && step.id == id)
    ensures id in Next(s, step).refs && Next(s, step).refs[id] == s.refs[id]
  {
  }

  lemma {:induction false} RefKept(steps: seq<Step>, more: seq<Step>, id: int)
    requires id in Run(steps).refs
    requires forall step | step in more :: !(step.PlaceAt? && step.id == id)
    ensures id in Run(steps + more).refs && Run(steps + more).refs[id] == Run(steps).refs[id]
    decreases |more|
  {
    if more == [] {
      assert steps + more == steps;
    } else {
      var n := |more| - 1;
      RefKept(steps, more[..n], id);
      assert more[n] in more;
      RefStays(Run(steps + more[..n]), more[n], id);
      assert (steps + more)[..|steps + more| - 1] == steps + more[..n];
    }
  }

  /** An order first heard of in an answer is known by what the answer said of it, until it is placed anew. */
  lemma ReportedIsKnown(steps: seq<Step>, o: Order, more: seq<Step>)
    requires Run(steps).openOrders.Some? && o.id !in Run(steps).refs
    requires forall step | step in more :: !(step.PlaceAt? && step.id == o.id)
    ensures var s, name := Run(steps + [OpenOrder(o)] + more), "orderStatus-" + o.account;
            var ref := if o.ref != "" then StripSuffix(o.ref) else Str(o.id);
            && o.id in s.refs && s.refs[o.id] == AccountOrderRef(o.account, ref)
            && RouteStatus(s, o.id) == if name in s.handlers then Some(Routed(name, ref)) else None
  {
    var heard := steps + [OpenOrder(o)];
    assert heard[..|steps|] == steps;
    RefKept(heard, more, o.id);
  }

  lemma {:induction false} PlacedForGood(steps: seq<Step>, more: seq<Step>, id: int)
    requires id in Run(steps).placed
    ensures id in Run(steps + more).placed && Run(steps + more).placed[id] == Run(steps).placed[id]
    decreases |more|
  {
    if more == [] {
      assert steps + more == steps;
    } else {
      var n := |more| - 1;
      PlacedForGood(steps, more[..n], id);
      InvHolds(steps + more[..n]);
      InvKept(Run(steps + more[..n]), more[n]);
      assert (steps + more)[..|steps + more| - 1] == steps + more[..n];
    }
  }

  lemma CanPlaceStep(s: State, step: Step, id: int)
    requires CanPlace(s, id) && !(step.PlaceAt? && step.id == id)
    ensures CanPlace(Next(s, step), id)
  {
  }

  lemma {:induction false} HandedForGood(steps: seq<Step>, more: seq<Step>, id: int)
    requires id in Run(steps).handed && id !in Run(steps).placed
    requires forall step | step in more :: !(step.PlaceAt? && step.id == id)
    ensures CanPlace(Run(steps + more), id)
    decreases |more|
  {
    if more == [] {
      assert steps + more == steps;
    } else {
      var n := |more| - 1;
      HandedForGood(steps, more[..n], id);
      assert more[n] in more;
      CanPlaceStep(Run(steps + more[..n]), more[n], id);
      assert (steps + more)[..|steps + more| - 1] == steps + more[..n];
    }
  }

  /** Take an id, let anything happen, place the order under it, let anything happen again, other placements
      and open-order reports naming the id included: its status goes to its account with its reference. */
  lemma StatusReachesPlacer(steps: seq<Step>, between: seq<Step>, account: string, ref: string, more: seq<Step>)
    requires ref != "" && ':' !in ref
    requires forall step | step in between :: !(step.PlaceAt? && step.id == Run(steps).nextId)
    ensures var id := Run(steps).nextId;
            var s := Run(steps + [TakeId] + between + [PlaceAt(id, account, ref)] + more);
            && id in s.refs && s.refs[id] == AccountOrderRef(account, ref)
            && ("orderStatus-" + account in s.handlers ==>
                  RouteStatus(s, id) == Some(Routed("orderStatus-" + account, ref)))
  {
    var id, taken := Run(steps).nextId, steps + [TakeId];
    InvHolds(steps);
    assert taken[..|steps|] == steps;
    HandedForGood(taken, between, id);
    var placed := taken + between + [PlaceAt(id, account, ref)];
    assert placed[..|placed| - 1] == taken + between;
    PlacedForGood(placed, more, id);
    InvHolds(placed + more);
  }

  /** The venue echoing a placed order agrees with what was stored, and an echo as an event carries the
      client's reference, exactly when that has no colon. */
  lemma EchoAgrees(s: State, id: int, account: string, ref: string)
    requires Inv(s) && id in s.placed && s.placed[id] == AccountOrderRef(account, ref) && ref != ""
    requires "openOrder-" + account in s.handlers
    ensures var echo := Order(id, account, WireRef(ref, id));
            var (_, event) := OpenOrderStep(s.(openOrders := None), echo);
            && RefOr(echo.ref, id) == ref
            && (s.refs[id].ref == RefOr(echo.ref, id) <==> ':' !in ref)
            && (event == Some(Routed("openOrder-" + account, ref)) <==> ':' !in ref)
  {
    RefRoundTrip(ref, id);
  }

  // ---------- the client ----------

  class OrderMixin {
    var nextValidOrderId: int
    var orderIdToOrderRef: map<int, AccountOrderRef>
    var openOrders: Option<seq<Order>>
    var eventSubscriptions: set<string>
    ghost var handed: seq<int>
    ghost var placed: map<int, AccountOrderRef>

    ghost function Abs(): State
      reads this
    {
      State(nextValidOrderId, orderIdToOrderRef, openOrders, eventSubscriptions, handed, placed)
    }

    constructor ()
      ensures Abs() == Init()
    {
      nextValidOrderId, orderIdToOrderRef, openOrders, eventSubscriptions := -1, map[], None, {};
      handed, placed := [], map[];
    }

    method NextOrderId() returns (id: int)
      modifies this
      ensures Abs() == Next(old(Abs()), TakeId) && id == old(nextValidOrderId)
    {
      id := nextValidOrderId;
      nextValidOrderId := nextValidOrderId + 1;
      handed := handed + [id];
    }

    method ProcessNextValidId(id: int)
      modifies this
      ensures Abs() == Next(old(Abs()), ValidId(id))
    {
      var next := nextValidOrderId;
      if id > next {
        next := id;
      }
      if 101 > next {
        next := 101;
      }
      nextValidOrderId := next;
    }

    /** Records the reference and returns the one to send. */
    method PlaceOrder(order: Order) returns (wireRef: string)
      modifies this
      ensures orderIdToOrderRef == Place(old(orderIdToOrderRef), order)
      ensures wireRef == if order.ref == "" then "" else WireRef(order.ref, order.id)
      ensures placed == old(placed)[order.id := AccountOrderRef(order.account, order.ref)]
      ensures CanPlace(old(Abs()), order.id) ==> Abs() == Next(old(Abs()), PlaceAt(order.id, order.account, order.ref))
      ensures unchanged(`nextValidOrderId) && unchanged(`openOrders)
      ensures unchanged(`eventSubscriptions) && unchanged(`handed)
    {
      var ref := if order.ref != "" then StripSuffix(order.ref) else Str(order.id);
      orderIdToOrderRef := orderIdToOrderRef[order.id := AccountOrderRef(order.account, ref)];
      placed := placed[order.id := AccountOrderRef(order.account, order.ref)];
      wireRef := order.ref;
      if order.ref != "" {
        wireRef := order.ref + ":" + Str(order.id);
      }
    }

    /** A BUY, which takes its id and is placed without waiting in between. A SELL asks for the open positions
        after taking its id, so for it the two steps are apart. */
    method SubmitBuy(account: string, ref: string) returns (wireRef: string)
      requires Inv(Abs())
      modifies this
      ensures Abs() == Next(Next(old(Abs()), TakeId), PlaceAt(old(nextValidOrderId), account, ref))
      ensures ref != "" ==> StripSuffix(wireRef) == ref
    {
      var id := NextOrderId();
      wireRef := PlaceOrder(Order(id, account, ref));
      StripWire(ref, id);
    }

    method ProcessOpenOrder(order: Order) returns (event: Option<Routed>)
      modifies this
      ensures (Abs(), event) == OpenOrderStep(old(Abs()), order)
    {
      var ref := if order.ref != "" then StripSuffix(order.ref) else Str(order.id);
      if openOrders.Some? {
        openOrders := Some(openOrders.value + [order.(ref := ref)]);
        if order.id !in orderIdToOrderRef {
          orderIdToOrderRef := orderIdToOrderRef[order.id := AccountOrderRef(order.account, ref)];
        }
        return None;
      }
      var name := "openOrder-" + order.account;
      event := if name in eventSubscriptions then Some(Routed(name, StripSuffix(ref))) else None;
    }

    method ProcessOpenOrderEnd()
      modifies this
      ensures Abs() == Next(old(Abs()), OpenOrderEnd)
    {
      openOrders := None;
    }

    method ProcessOrderStatus(id: int) returns (event: Option<Routed>)
      ensures event == RouteStatus(Abs(), id)
    {
      if id !in orderIdToOrderRef {
        return None;
      }
      var orderRef := orderIdToOrderRef[id];
      var name := "orderStatus-" + orderRef.account;
      event := if name in eventSubscriptions then Some(Routed(name, orderRef.ref)) else None;
    }
  }
}
