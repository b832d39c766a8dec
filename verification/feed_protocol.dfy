/** The subscription protocol between the adapter and the MQL5 service, as a transition system.
    Each step is one stretch of a coroutine between two awaits, one action of a service, or one
    action of the network. It is generic in the subscription key: a symbol for quotes, a
    (symbol, timeframe) pair for bars. */
module FeedProtocol {
  import opened Prelude
  import opened SubscriptionTracking

  type Conn = nat

  datatype Op<K> = SubOp(keys: set<K>) | UnsubOp(keys: set<K>)

  /** One WebSocket connection with the service behind it: the keys the service is active on, those
      it can activate, the commands and the hellos in flight, and whether the socket is open. */
  datatype Link<K> = Link(active: set<K>, supported: set<K>, toService: seq<Op<K>>, toAdapter: seq<set<K>>, open: bool)

  /** A replay of pending subscriptions: not yet begun, or with groups of keys left to send. `tag` is
      the connection whose hello caused it; a replay by the start routine has none. */
  datatype Task<K> = Scheduled(tag: Option<Conn>) | Sending(tag: Option<Conn>, groups: seq<set<K>>)

  datatype Gateway = Absent | Running | Stopping

  /** `ws` is the current service connection, `lock` a connection waiting for the one it replaces to
      close, `accepted` all connections ever taken, `readers` those whose receive loop still runs, and
      `synced` those with a hello that has been answered by a complete replay. */
  datatype State<K> = State(desired: set<K>, pending: Pending<K>, gateway: Gateway,
                            ws: Option<Conn>, lock: Option<Conn>, accepted: set<Conn>, readers: set<Conn>,
                            links: map<Conn, Link<K>>, tasks: seq<Task<K>>, synced: set<Conn>)

  datatype Step<K> =
    | UserSub(key: K)
    | UserUnsub(key: K)
    | Start
    | StopBegin
    | StopEnd
    | Connect(conn: Conn, active: set<K>, supported: set<K>)
    | AcceptBegin(conn: Conn)
    | AcceptEnd
    | Teardown(conn: Conn)
    | Drop(conn: Conn)
    | ServiceStep(conn: Conn)
    | ServiceHello(conn: Conn)
    | DeliverHello(conn: Conn)
    | StartReplay
    | TaskStart(task: nat, groups: seq<set<K>>)
    | TaskSend(task: nat)
    | TaskEnd(task: nat)

  function Init<K>(): State<K> {
    State({}, Pending({}, {}), Absent, None, None, {}, {}, map[], [], {})
  }

  // ---------- the adapter's part of a step ----------

  /** What the adapter's bookkeeping becomes and what it hands to the current connection. */
  datatype Effect<K> = Effect(desired: set<K>, pending: Pending<K>, ops: seq<Op<K>>)

  function EventOf<K>(op: Op<K>): Event<K> {
    match op case SubOp(ks) => Sub(ks) case UnsubOp(ks) => Unsub(ks)
  }

  /** The gateway records a command and sends it; an empty one is ignored. */
  function Issue<K>(desired: set<K>, pending: Pending<K>, op: Op<K>): Effect<K> {
    if op.keys == {} then Effect(desired, pending, []) else Effect(desired, Apply(pending, EventOf(op)), [op])
  }

  function SubscribeEffect<K>(desired: set<K>, pending: Pending<K>, present: bool, key: K): Effect<K> {
    if present then Issue(desired + {key}, pending, SubOp({key})) else Effect(desired + {key}, pending, [])
  }

  function UnsubscribeEffect<K>(desired: set<K>, pending: Pending<K>, present: bool, key: K): Effect<K> {
    if present then Issue(desired - {key}, pending, UnsubOp({key})) else Effect(desired - {key}, pending, [])
  }

  /** What a replay sends: everything desired, and everything still pending. */
  function ReplaySet<K>(desired: set<K>, pending: Pending<K>): set<K> {
    desired + pending.subscribe
  }

  function Union<K>(groups: seq<set<K>>): set<K> {
    if groups == [] then {} else groups[0] + Union(groups[1..])
  }

  // ---------- the transition system ----------

  function ApplyOp<K>(active: set<K>, supported: set<K>, op: Op<K>): set<K> {
    match op case SubOp(ks) => active + ks * supported case UnsubOp(ks) => active - ks
  }

  /** What the service will be active on once it has taken every command in flight, in order. */
  function Eventual<K>(active: set<K>, supported: set<K>, ops: seq<Op<K>>): set<K>
    decreases |ops|
  {
    if ops == [] then active else Eventual(ApplyOp(active, supported, ops[0]), supported, ops[1..])
  }

  predicate OpenAt<K>(s: State<K>, c: Conn) {
    c in s.links && s.links[c].open
  }

  predicate Connected<K>(s: State<K>) {
    s.ws.Some? && OpenAt(s, s.ws.value)
  }

  function Perform<K>(s: State<K>, e: Effect<K>): State<K> {
    var t := s.(desired := e.desired, pending := e.pending);
    if Connected(s) then
      var c := s.ws.value;
      t.(links := s.links[c := s.links[c].(toService := s.links[c].toService + e.ops)])
    else t
  }

  function Close<K>(links: map<Conn, Link<K>>, c: Conn): map<Conn, Link<K>> {
    if c in links then links[c := links[c].(open := false)] else links
  }

  function Without<K>(tasks: seq<Task<K>>, i: nat): seq<Task<K>>
    requires i < |tasks|
  {
    tasks[..i] + tasks[i + 1..]
  }

  predicate Enabled<K>(s: State<K>, step: Step<K>) {
    match step
    case UserSub(_) => true
    case UserUnsub(_) => true
    case Start => s.gateway == Absent
    case StopBegin => s.gateway == Running && s.lock == None
    case StopEnd => s.gateway == Stopping && s.lock == None && s.readers == {}
    case Connect(c, _, _) => s.gateway == Running && c !in s.links
    case AcceptBegin(c) => s.gateway != Absent && s.lock == None && c in s.links && c !in s.accepted
    case AcceptEnd => s.lock.Some?
    case Teardown(c) => s.lock == None && c in s.readers
    case Drop(c) => c in s.links
    case ServiceStep(c) => c in s.links && s.links[c].toService != []
    case ServiceHello(c) => c in s.links
    case DeliverHello(c) => c in s.readers && c in s.links && s.links[c].toAdapter != []
    case StartReplay => s.gateway != Absent
    case TaskStart(i, groups) =>
      && i < |s.tasks| && s.tasks[i].Scheduled?
      && Union(groups) == ReplaySet(s.desired, s.pending) && {} !in groups
    case TaskSend(i) => i < |s.tasks| && s.tasks[i].Sending? && s.tasks[i].groups != []
    case TaskEnd(i) => i < |s.tasks| && s.tasks[i].Sending? && s.tasks[i].groups == []
  }

  function Next<K>(s: State<K>, step: Step<K>): State<K>
    requires Enabled(s, step)
  {
    match step
    case UserSub(k) => Perform(s, SubscribeEffect(s.desired, s.pending, s.gateway != Absent, k))
    case UserUnsub(k) => Perform(s, UnsubscribeEffect(s.desired, s.pending, s.gateway != Absent, k))
    case Start => s.(gateway := Running)
    case StopBegin =>
      s.(gateway := Stopping, ws := None, links := map c | c in s.links :: s.links[c].(open := false))
    case StopEnd => s.(gateway := Absent, ws := None)
    case Connect(c, active, supported) => s.(links := s.links[c := Link(active, supported, [], [active], true)])
    case AcceptBegin(c) =>
      var t := s.(accepted := s.accepted + {c});
      if Connected(s) then t.(links := Close(s.links, s.ws.value), lock := Some(c))
      else t.(ws := Some(c), readers := s.readers + {c})
    case AcceptEnd => s.(ws := s.lock, lock := None, readers := s.readers + {s.lock.value})
    case Teardown(c) =>
      s.(ws := if s.ws == Some(c) then None else s.ws, readers := s.readers - {c}, links := Close(s.links, c))
    case Drop(c) => s.(links := Close(s.links, c))
    case ServiceStep(c) =>
      var l := s.links[c];
      var active := ApplyOp(l.active, l.supported, l.toService[0]);
      s.(links := s.links[c := l.(active := active, toService := l.toService[1..],
                                  toAdapter := if active == l.active then l.toAdapter else l.toAdapter + [active])])
    case ServiceHello(c) =>
      var l := s.links[c];
      s.(links := s.links[c := l.(toAdapter := l.toAdapter + [l.active])])
    case DeliverHello(c) =>
      var l := s.links[c];
      s.(links := s.links[c := l.(toAdapter := l.toAdapter[1..])],
         pending := Apply(s.pending, HelloOf(l.toAdapter[0])),
         tasks := s.tasks + [Scheduled(Some(c))])
    case StartReplay => s.(tasks := s.tasks + [Scheduled(None)])
    case TaskStart(i, groups) =>
      if s.gateway == Absent then s.(tasks := Without(s.tasks, i))
      else s.(tasks := s.tasks[i := Sending(s.tasks[i].tag, groups)])
    case TaskSend(i) =>
      if s.gateway == Absent then s.(tasks := Without(s.tasks, i))
      else
        var t := s.(tasks := s.tasks[i := Sending(s.tasks[i].tag, s.tasks[i].groups[1..])]);
        Perform(t, Issue(s.desired, s.pending, SubOp(s.tasks[i].groups[0])))
    case TaskEnd(i) =>
      s.(tasks := Without(s.tasks, i),
         synced := s.synced + if s.tasks[i].tag.Some? then {s.tasks[i].tag.value} else {})
  }

  /** An execution: states joined by enabled steps, from the initial state. */
  ghost predicate Execution<K>(states: seq<State<K>>, steps: seq<Step<K>>) {
    && |states| == |steps| + 1 && states[0] == Init()
    && forall i | 0 <= i < |steps| :: Enabled(states[i], steps[i]) && states[i + 1] == Next(states[i], steps[i])
  }

  // ---------- the invariant ----------

  function EventuallyActive<K>(l: Link<K>): set<K> {
    Eventual(l.active, l.supported, l.toService)
  }

  /** Who owns what: the current connection is a running reader, nothing but the current connection and
      the one waiting to replace it is open, and a stopped gateway has no connection. */
  ghost predicate Ownership<K>(s: State<K>) {
    && s.accepted <= s.links.Keys && s.readers <= s.accepted
    && (s.ws.Some? ==> s.ws.value in s.readers)
    && (s.lock.Some? ==> s.lock.value in s.accepted && s.lock.value !in s.readers)
    && (s.gateway == Absent ==> s.readers == {} && s.lock == None)
    && (s.lock.Some? ==> !Connected(s))
    && forall c | c in s.accepted && s.links[c].open :: s.ws == Some(c) || s.lock == Some(c)
  }

  /** Only connections that have been read from have replays or count as synced. */
  ghost predicate Tagging<K>(s: State<K>) {
    && (forall c | c in s.synced :: c in s.accepted && s.lock != Some(c))
    && forall t | t in s.tasks && t.tag.Some? :: t.tag.value in s.accepted && s.lock != t.tag
  }

  /** On an open current connection, what is desired and supported will be active: at once when the
      connection is synced, after the groups left when its replay is under way. */
  ghost predicate Covered<K>(s: State<K>) {
    Connected(s) ==>
      var c := s.ws.value;
      var goal, will := s.desired * s.links[c].supported, EventuallyActive(s.links[c]);
      && (c in s.synced ==> goal <= will)
      && forall t | t in s.tasks && t.Sending? && t.tag == Some(c) :: goal <= will + Union(t.groups)
  }

  /** A hello is on its way, being answered, or answered. */
  ghost predicate HelloOwed<K>(s: State<K>, c: Conn)
    requires c in s.links
  {
    c in s.synced || s.links[c].toAdapter != [] || exists t :: t in s.tasks && t.tag == Some(c)
  }

  ghost predicate Greeting<K>(s: State<K>) {
    && (forall c | c in s.links && c !in s.accepted :: s.links[c].toAdapter != [])
    && (s.lock.Some? && s.lock.value in s.links ==> HelloOwed(s, s.lock.value))
    && (s.ws.Some? && s.ws.value in s.links ==> HelloOwed(s, s.ws.value))
  }

  ghost predicate Inv<K>(s: State<K>) {
    Ownership(s) && Tagging(s) && Covered(s) && Greeting(s)
  }

  lemma {:induction false} EventualSnoc<K>(active: set<K>, supported: set<K>, ops: seq<Op<K>>, op: Op<K>)
    ensures Eventual(active, supported, ops + [op]) == ApplyOp(Eventual(active, supported, ops), supported, op)
    decreases |ops|
  {
    if ops == [] {
      assert [op][1..] == [];
    } else {
      assert (ops + [op])[1..] == ops[1..] + [op];
      EventualSnoc(ApplyOp(active, supported, ops[0]), supported, ops[1..], op);
    }
  }

  lemma OwnershipKept<K>(s: State<K>, step: Step<K>)
    requires Inv(s) && Enabled(s, step)
    ensures Ownership(Next(s, step))
  {
  }

  lemma TaggingKept<K>(s: State<K>, step: Step<K>)
    requires Inv(s) && Enabled(s, step)
    ensures Tagging(Next(s, step))
  {
  }

  /** Handing operations to the current connection appends their effect to what it will be active on. */
  lemma PerformEventual<K>(s: State<K>, e: Effect<K>)
    requires Connected(s) && |e.ops| <= 1
    ensures var c := s.ws.value;
            && Connected(Perform(s, e)) && Perform(s, e).ws == s.ws
            && Perform(s, e).links[c].supported == s.links[c].supported
            && EventuallyActive(Perform(s, e).links[c]) ==
               if e.ops == [] then EventuallyActive(s.links[c])
               else ApplyOp(EventuallyActive(s.links[c]), s.links[c].supported, e.ops[0])
  {
    var l := s.links[s.ws.value];
    if e.ops == [] {
      assert l.toService + e.ops == l.toService;
    } else {
      assert e.ops == [e.ops[0]];
      EventualSnoc(l.active, l.supported, l.toService, e.ops[0]);
    }
  }

  /** Coverage survives an operation as long as every key still desired is still on its way. */
  lemma CoveredAfter<K>(s: State<K>, e: Effect<K>)
    requires Inv(s) && |e.ops| <= 1
    requires forall k | k in e.desired && s.gateway != Absent ::
               k in s.desired || (e.ops != [] && e.ops[0].SubOp? && k in e.ops[0].keys)
    requires e.ops != [] && e.ops[0].UnsubOp? ==> e.ops[0].keys !! e.desired
    ensures Covered(Perform(s, e))
  {
    if Connected(s) {
      var c, n := s.ws.value, Perform(s, e);
      PerformEventual(s, e);
      var supported, will, will' := s.links[c].supported, EventuallyActive(s.links[c]), EventuallyActive(n.links[c]);
      forall more: set<K> | s.desired * supported <= will + more
        ensures e.desired * supported <= will' + more
      {
        forall k | k in e.desired * supported ensures k in will' + more {
          assert k in s.desired ==> k in s.desired * supported;
        }
      }
      assert c in s.synced ==> s.desired * supported <= will + {} && e.desired * supported <= will' + {};
    }
  }

  lemma CoveredAfterSend<K>(s: State<K>, i: nat)
    requires Inv(s) && Enabled(s, TaskSend(i)) && s.gateway != Absent
    ensures Covered(Next(s, TaskSend(i)))
  {
    if Connected(s) {
      var c, n, groups := s.ws.value, Next(s, TaskSend(i)), s.tasks[i].groups;
      var t := s.(tasks := s.tasks[i := Sending(s.tasks[i].tag, groups[1..])]);
      PerformEventual(t, Issue(s.desired, s.pending, SubOp(groups[0])));
      var supported, will := s.links[c].supported, EventuallyActive(s.links[c]);
      assert EventuallyActive(n.links[c]) == will + groups[0] * supported;
      if s.tasks[i].tag == Some(c) {
        assert s.tasks[i] in s.tasks;
        assert s.desired * supported <= will + Union(groups);
        assert Union(groups) == groups[0] + Union(groups[1..]);
        forall k | k in s.desired * supported ensures k in EventuallyActive(n.links[c]) + Union(groups[1..]) {
        }
      }
    }
  }

  lemma CoveredKept<K>(s: State<K>, step: Step<K>)
    requires Inv(s) && Enabled(s, step)
    ensures Covered(Next(s, step))
  {
    match step
    case UserSub(k) => CoveredAfter(s, SubscribeEffect(s.desired, s.pending, s.gateway != Absent, k));
    case UserUnsub(k) => CoveredAfter(s, UnsubscribeEffect(s.desired, s.pending, s.gateway != Absent, k));
    case TaskSend(i) => if s.gateway != Absent { CoveredAfterSend(s, i); }
    case _ =>
  }

  /** Removing or updating one replay keeps every other one. */
  lemma TasksKept<K>(tasks: seq<Task<K>>, i: nat, t: Task<K>)
    requires i < |tasks|
    ensures forall u | u in tasks :: u == tasks[i] || (u in Without(tasks, i) && u in tasks[i := t])
    ensures t in tasks[i := t]
    ensures forall u | u in Without(tasks, i) :: u in tasks
    ensures forall u | u in tasks[i := t] :: u == t || u in tasks
  {
    forall u | u in tasks && u != tasks[i] ensures u in Without(tasks, i) && u in tasks[i := t] {
      var j :| 0 <= j < |tasks| && tasks[j] == u;
      assert tasks[i := t][j] == u;
      assert Without(tasks, i)[if j < i then j else j - 1] == u;
    }
    assert tasks[i := t][i] == t;
  }

  /** An owed hello stays owed: on its way, being answered, or answered. */
  lemma HelloOwedKept<K>(s: State<K>, step: Step<K>, c: Conn)
    requires Inv(s) && Enabled(s, step) && c in s.links && HelloOwed(s, c)
    requires s.gateway != Absent
    ensures c in Next(s, step).links && HelloOwed(Next(s, step), c)
  {
    match step
    case DeliverHello(d) =>
      assert Scheduled(Some(d)) in Next(s, step).tasks;
      assert forall t | t in s.tasks :: t in Next(s, step).tasks;
    case StartReplay =>
      assert forall t | t in s.tasks :: t in Next(s, step).tasks;
    case TaskStart(i, groups) => TasksKept(s.tasks, i, Sending(s.tasks[i].tag, groups));
    case TaskSend(i) => TasksKept(s.tasks, i, Sending(s.tasks[i].tag, s.tasks[i].groups[1..]));
    case TaskEnd(i) => TasksKept(s.tasks, i, s.tasks[i]);
    case _ =>
  }

  lemma GreetingKept<K>(s: State<K>, step: Step<K>)
    requires Inv(s) && Enabled(s, step)
    ensures Greeting(Next(s, step))
  {
    var t := Next(s, step);
    if t.lock.Some? {
      HelloOwedKept(s, step, t.lock.value);
    }
    if t.ws.Some? {
      HelloOwedKept(s, step, t.ws.value);
    }
  }

  lemma InvKept<K>(s: State<K>, step: Step<K>)
    requires Inv(s) && Enabled(s, step)
    ensures Inv(Next(s, step))
  {
    OwnershipKept(s, step);
    TaggingKept(s, step);
    CoveredKept(s, step);
    GreetingKept(s, step);
  }

  lemma {:induction false} InvHolds<K>(states: seq<State<K>>, steps: seq<Step<K>>, i: nat)
    requires Execution(states, steps) && i < |states|
    ensures Inv(states[i])
  {
    if i > 0 {
      InvHolds(states, steps, i - 1);
      InvKept(states[i - 1], steps[i - 1]);
    }
  }

  // ---------- main results ----------

  /** Subscription convergence: in every state of every execution, once a hello on the current open
      connection has been answered, the service will be active on every key that is desired and that it
      supports as soon as it has taken the commands in flight; with none in flight, it is already. */
  lemma SubscriptionConvergence<K>(states: seq<State<K>>, steps: seq<Step<K>>, i: nat, c: Conn)
    requires Execution(states, steps) && i < |states|
    requires states[i].ws == Some(c) && OpenAt(states[i], c) && c in states[i].synced
    ensures var s := states[i];
            && s.desired * s.links[c].supported <= EventuallyActive(s.links[c])
            && (s.links[c].toService == [] ==> s.desired * s.links[c].supported <= s.links[c].active)
  {
    InvHolds(states, steps, i);
  }

  /** The last the user said of a key: wanted or not. */
  predicate Wanted<K(==)>(steps: seq<Step<K>>, k: K) {
    steps != [] &&
    var n := |steps| - 1;
    match steps[n]
    case UserSub(j) => j == k || Wanted(steps[..n], k)
    case UserUnsub(j) => j != k && Wanted(steps[..n], k)
    case _ => Wanted(steps[..n], k)
  }

  /** Whatever connections, hellos, replays, drops and stops there have been, the keys desired are exactly
      those the user last said to want. */
  lemma {:induction false} DesiredExactly<K>(states: seq<State<K>>, steps: seq<Step<K>>, i: nat, k: K)
    requires Execution(states, steps) && i < |states|
    ensures k in states[i].desired <==> Wanted(steps[..i], k)
  {
    if i > 0 {
      DesiredExactly(states, steps, i - 1, k);
      assert steps[..i][..i - 1] == steps[..i - 1];
      assert states[i] == Next(states[i - 1], steps[i - 1]);
    }
  }

  /** A user's command takes effect at once: it settles what is pending about the key, and on an open
      connection the service will be active on the key after a subscribe, if it supports it, and will not be
      after an unsubscribe, whatever was in flight. */
  lemma CommandsTakeEffect<K>(s: State<K>, k: K)
    requires s.gateway != Absent
    ensures var t := Next(s, UserSub(k));
            && k in t.pending.subscribe && k !in t.pending.unsubscribe
            && (Connected(s) && k in s.links[s.ws.value].supported ==> k in EventuallyActive(t.links[s.ws.value]))
    ensures var t := Next(s, UserUnsub(k));
            && k in t.pending.unsubscribe && k !in t.pending.subscribe
            && (Connected(s) ==> k !in EventuallyActive(t.links[s.ws.value]))
  {
    if Connected(s) {
      PerformEventual(s, SubscribeEffect(s.desired, s.pending, true, k));
      PerformEventual(s, UnsubscribeEffect(s.desired, s.pending, true, k));
    }
  }

  /** At most one connection that was ever accepted is open. */
  lemma OneOpenConnection<K>(states: seq<State<K>>, steps: seq<Step<K>>, i: nat, c: Conn, d: Conn)
    requires Execution(states, steps) && i < |states|
    requires c in states[i].accepted && d in states[i].accepted && OpenAt(states[i], c) && OpenAt(states[i], d)
    ensures c == d
  {
    InvHolds(states, steps, i);
  }

  /** A superseded connection: taken once, and neither current nor about to be. */
  ghost predicate Superseded<K>(s: State<K>, c: Conn) {
    c in s.accepted && s.ws != Some(c) && s.lock != Some(c)
  }

  lemma SupersededStep<K>(s: State<K>, step: Step<K>, c: Conn)
    requires Enabled(s, step) && Superseded(s, c)
    ensures Superseded(Next(s, step), c)
    ensures step == Teardown(c) || step == DeliverHello(c) || step == Drop(c) ==> Next(s, step).ws == s.ws
  {
  }

  /** A superseded connection stays superseded, and whatever its own receive loop does, tearing down
      included, the current connection remains current. */
  lemma {:induction false} SupersededForGood<K>(states: seq<State<K>>, steps: seq<Step<K>>, i: nat, j: nat, c: Conn)
    requires Execution(states, steps) && i <= j < |states| && Superseded(states[i], c)
    ensures Superseded(states[j], c)
    ensures j < |steps| && (steps[j] == Teardown(c) || steps[j] == DeliverHello(c) || steps[j] == Drop(c))
            ==> states[j + 1].ws == states[j].ws
  {
    if i < j {
      SupersededForGood(states, steps, i, j - 1, c);
      SupersededStep(states[j - 1], steps[j - 1], c);
    }
    if j < |steps| {
      SupersededStep(states[j], steps[j], c);
    }
  }

  // ---------- what a replay asks for ----------

  /** Nothing undesired is pending or about to be replayed. */
  ghost predicate Clean<K>(s: State<K>) {
    && s.pending.subscribe <= s.desired
    && forall t | t in s.tasks && t.Sending? :: Union(t.groups) <= s.desired
  }

  /** Unsubscribing a key with the gateway gone while the key is pending, or during a replay holding it. */
  ghost predicate StaleUnsub<K>(s: State<K>, step: Step<K>) {
    && step.UserUnsub?
    && ((s.gateway == Absent && step.key in s.pending.subscribe)
        || exists t :: t in s.tasks && t.Sending? && step.key in Union(t.groups))
  }

  /** From a clean state a replay asks for exactly what is desired, and every step keeps that so except
      precisely a stale unsubscribe. */
  lemma CleanUnlessStale<K>(s: State<K>, step: Step<K>)
    requires Clean(s) && Enabled(s, step)
    ensures ReplaySet(s.desired, s.pending) == s.desired
    ensures Clean(Next(s, step)) <==> !StaleUnsub(s, step)
  {
    var n := Next(s, step);
    match step
    case UserSub(k) =>
    case UserUnsub(k) => UnsubKeepsClean(s, k);
    case TaskStart(i, groups) => TasksKept(s.tasks, i, Sending(s.tasks[i].tag, groups));
    case TaskSend(i) =>
      var t := Sending(s.tasks[i].tag, s.tasks[i].groups[1..]);
      TasksKept(s.tasks, i, t);
      assert Union(s.tasks[i].groups) == s.tasks[i].groups[0] + Union(t.groups);
    case TaskEnd(i) => TasksKept(s.tasks, i, s.tasks[i]);
    case DeliverHello(d) => assert forall t | t in n.tasks && t.Sending? :: t in s.tasks;
    case StartReplay => assert forall t | t in n.tasks && t.Sending? :: t in s.tasks;
    case _ =>
  }

  lemma UnsubKeepsClean<K>(s: State<K>, k: K)
    requires Clean(s)
    ensures Clean(Next(s, UserUnsub(k))) <==> !StaleUnsub(s, UserUnsub(k))
  {
    var n := Next(s, UserUnsub(k));
    assert n.desired == s.desired - {k} && n.tasks == s.tasks;
    if StaleUnsub(s, UserUnsub(k)) {
      if t :| t in s.tasks && t.Sending? && k in Union(t.groups) {
        assert !(Union(t.groups) <= n.desired);
      }
    } else {
      forall t | t in n.tasks && t.Sending? ensures Union(t.groups) <= n.desired {
      }
    }
  }

  /** The stale case occurs: subscribe, stop the gateway, unsubscribe. The next replay asks for the key. */
  lemma UnsubscribeWhileDownIsLost<K>(k: K) returns (states: seq<State<K>>, steps: seq<Step<K>>)
    ensures Execution(states, steps)
    ensures var last := states[|steps|];
            last.desired == {} && last.gateway == Running && ReplaySet(last.desired, last.pending) == {k}
  {
    var s0: State<K> := Init();
    var s1 := Next(s0, Start);
    var s2 := Next(s1, UserSub(k));
    var s3 := Next(s2, StopBegin);
    var s4 := Next(s3, StopEnd);
    var s5 := Next(s4, UserUnsub(k));
    var s6 := Next(s5, Start);
    states := [s0, s1, s2, s3, s4, s5, s6];
    steps := [Start, UserSub(k), StopBegin, StopEnd, UserUnsub(k), Start];
  }

  /** Two keys wanted, with one open connection on which nothing is active yet. */
  function TwoKeys<K>(j: K, k: K, desired: set<K>, pending: Pending<K>, toService: seq<Op<K>>,
                      toAdapter: seq<set<K>>, tasks: seq<Task<K>>): State<K>
  {
    State(desired, pending, Running, Some(0), None, {0}, {0},
          map[0 := Link({}, {j, k}, toService, toAdapter, true)], tasks, {})
  }

  lemma TwoKeysConnect<K>(j: K, k: K) returns (states: seq<State<K>>, steps: seq<Step<K>>)
    ensures Execution(states, steps) && |steps| == 5
    ensures states[5] == TwoKeys(j, k, {j, k}, Pending({}, {}), [], [{}], [])
  {
    var s0: State<K> := Init();
    var s1 := Next(s0, UserSub(j));
    var s2 := Next(s1, UserSub(k));
    var s3 := Next(s2, Start);
    var s4 := Next(s3, Connect(0, {}, {j, k}));
    var s5 := Next(s4, AcceptBegin(0));
    assert s2.desired == {j, k};
    states := [s0, s1, s2, s3, s4, s5];
    steps := [UserSub(j), UserSub(k), Start, Connect(0, {}, {j, k}), AcceptBegin(0)];
  }

  /** One more step of an execution. */
  lemma Extend<K>(states: seq<State<K>>, steps: seq<Step<K>>, step: Step<K>, s: State<K>)
    requires Execution(states, steps) && Enabled(states[|steps|], step) && s == Next(states[|steps|], step)
    ensures Execution(states + [s], steps + [step])
  {
    var ss, ts := states + [s], steps + [step];
    forall i | 0 <= i < |ts| ensures Enabled(ss[i], ts[i]) && ss[i + 1] == Next(ss[i], ts[i]) {
      if i < |steps| {
        assert Enabled(states[i], steps[i]) && states[i + 1] == Next(states[i], steps[i]);
      }
    }
  }

  lemma TwoKeysHello<K>(j: K, k: K)
    ensures var s5 := TwoKeys(j, k, {j, k}, Pending({}, {}), [], [{}], []);
            var s6 := TwoKeys(j, k, {j, k}, Pending({}, {}), [], [], [Scheduled(Some(0))]);
            Enabled(s5, DeliverHello(0)) && Next(s5, DeliverHello(0)) == s6
  {
    var none: set<K>, waiting: Task<K>, l := {}, Scheduled(Some(0)), Link({}, {j, k}, [], [{}], true);
    assert none - none == none && [none][1..] == [] && [] + [waiting] == [waiting];
    OneLink(l, l.(toAdapter := []));
  }

  lemma TwoKeysStart<K>(j: K, k: K)
    ensures var s6 := TwoKeys(j, k, {j, k}, Pending({}, {}), [], [], [Scheduled(Some(0))]);
            var s7 := TwoKeys(j, k, {j, k}, Pending({}, {}), [], [], [Sending(Some(0), [{j}, {k}])]);
            Enabled(s6, TaskStart(0, [{j}, {k}])) && Next(s6, TaskStart(0, [{j}, {k}])) == s7
  {
    var none: set<K> := {};
    assert {j, k} + none == {j, k};
    assert Union([{j}, {k}]) == {j} + Union([{k}]) && Union([{k}]) == {k} + Union([{k}][1..]);
    assert [{j}, {k}][1..] == [{k}] && [{k}][1..] == [];
    OneTask(Scheduled(Some(0)), Sending(Some(0), [{j}, {k}]));
  }

  lemma TwoKeysSend<K>(j: K, k: K)
    ensures var s7 := TwoKeys(j, k, {j, k}, Pending({}, {}), [], [], [Sending(Some(0), [{j}, {k}])]);
            var s8 := TwoKeys(j, k, {j, k}, Pending({j}, {}), [SubOp({j})], [], [Sending(Some(0), [{k}])]);
            Enabled(s7, TaskSend(0)) && Next(s7, TaskSend(0)) == s8
  {
    var none: set<K>, no: seq<Op<K>>, l: Link<K> := {}, [], Link({}, {j, k}, [], [], true);
    assert none + {j} == {j} && none - {j} == none && no + [SubOp({j})] == [SubOp({j})];
    assert [{j}, {k}][1..] == [{k}];
    OneLink(l, l.(toService := [SubOp({j})]));
    OneTask(Sending(Some(0), [{j}, {k}]), Sending(Some(0), [{k}]));
  }

  lemma OneLink<K>(l: Link<K>, m: Link<K>)
    ensures map[0 := l][0 := m] == map[0 := m]
  {
  }

  lemma OneTask<K>(t: Task<K>, u: Task<K>)
    ensures [t][0 := u] == [u]
  {
  }

  lemma TwoKeysUnsub<K>(j: K, k: K)
    requires j != k
    ensures var s8 := TwoKeys(j, k, {j, k}, Pending({j}, {}), [SubOp({j})], [], [Sending(Some(0), [{k}])]);
            var s9 := TwoKeys(j, k, {j}, Pending({j}, {k}), [SubOp({j}), UnsubOp({k})], [], [Sending(Some(0), [{k}])]);
            var s10 := TwoKeys(j, k, {j}, Pending({j, k}, {}), [SubOp({j}), UnsubOp({k}), SubOp({k})], [],
                               [Sending(Some(0), [])]);
            && Next(s8, UserUnsub(k)) == s9 && StaleUnsub(s8, UserUnsub(k))
            && Enabled(s9, TaskSend(0)) && Next(s9, TaskSend(0)) == s10
  {
    var none: set<K>, task, l: Link<K> := {}, Sending(Some(0), [{k}]), Link({}, {j, k}, [SubOp({j})], [], true);
    assert Union([{k}]) == {k} + Union([{k}][1..]) && [{k}][1..] == [];
    assert {j, k} - {k} == {j} && {j} - {k} == {j} && {k} - {k} == none && none + {k} == {k} && {j} + {k} == {j, k};
    assert task in [task];
    var m := l.(toService := [SubOp({j}), UnsubOp({k})]);
    assert l.toService + [UnsubOp({k})] == m.toService;
    assert m.toService + [SubOp({k})] == [SubOp({j}), UnsubOp({k}), SubOp({k})];
    OneLink(l, m);
    OneLink(m, m.(toService := m.toService + [SubOp({k})]));
    OneTask(task, Sending(Some(0), []));
  }

  lemma TwoKeysActive<K>(j: K, k: K)
    requires j != k
    ensures Eventual({}, {j, k}, [SubOp({j}), UnsubOp({k}), SubOp({k})]) == {j, k}
    ensures {j} + {j, k} == {j, k}
  {
    var none: set<K>, all, no: seq<Op<K>> := {}, {j, k}, [];
    EventualSnoc(none, all, no, SubOp({j}));
    EventualSnoc(none, all, [SubOp({j})], UnsubOp({k}));
    EventualSnoc(none, all, [SubOp({j}), UnsubOp({k})], SubOp({k}));
    assert no + [SubOp({j})] == [SubOp({j})];
    assert [SubOp({j})] + [UnsubOp({k})] == [SubOp({j}), UnsubOp({k})];
    assert [SubOp({j}), UnsubOp({k})] + [SubOp({k})] == [SubOp({j}), UnsubOp({k}), SubOp({k})];
    assert {j} * all == {j} && {k} * all == {k} && {j} - {k} == {j} && {j} + {k} == {j, k};
  }

  /** So does the other: a replay that has sent one group and still holds another when a key of that other
      is unsubscribed. The replay goes on to ask for the key, and the service will be active on it. Sending
      the first group follows computing the replay without waiting, so a replay of one group, as for quotes,
      cannot be caught like this; it takes bars of two timeframes. */
  lemma UnsubscribeDuringReplayIsLost<K>(j: K, k: K) returns (states: seq<State<K>>, steps: seq<Step<K>>)
    requires j != k
    ensures Execution(states, steps) && |steps| == 10
    ensures StaleUnsub(states[8], steps[8]) && steps[7..] == [TaskSend(0), UserUnsub(k), TaskSend(0)]
    ensures var last := states[10];
            && last.desired == {j} && last.ws == Some(0) && OpenAt(last, 0)
            && EventuallyActive(last.links[0]) == {j, k} && ReplaySet(last.desired, last.pending) == {j, k}
  {
    states, steps := TwoKeysSending(j, k);
    TwoKeysUnsub(j, k);
    TwoKeysActive(j, k);
    states, steps := Extended(states, steps, UserUnsub(k));
    states, steps := Extended(states, steps, TaskSend(0));
  }

  lemma TwoKeysSending<K>(j: K, k: K) returns (states: seq<State<K>>, steps: seq<Step<K>>)
    ensures Execution(states, steps) && |steps| == 8 && steps[7] == TaskSend(0)
    ensures states[8] == TwoKeys(j, k, {j, k}, Pending({j}, {}), [SubOp({j})], [], [Sending(Some(0), [{k}])])
  {
    states, steps := TwoKeysConnect(j, k);
    TwoKeysHello(j, k);
    states, steps := Extended(states, steps, DeliverHello(0));
    TwoKeysStart(j, k);
    states, steps := Extended(states, steps, TaskStart(0, [{j}, {k}]));
    TwoKeysSend(j, k);
    states, steps := Extended(states, steps, TaskSend(0));
  }

  lemma Extended<K>(states: seq<State<K>>, steps: seq<Step<K>>, step: Step<K>)
    returns (more: seq<State<K>>, moreSteps: seq<Step<K>>)
    requires Execution(states, steps) && Enabled(states[|steps|], step)
    ensures Execution(more, moreSteps) && moreSteps == steps + [step]
    ensures more == states + [Next(states[|steps|], step)]
  {
    more, moreSteps := states + [Next(states[|steps|], step)], steps + [step];
    Extend(states, steps, step, Next(states[|steps|], step));
  }
}
