/** The hello echo dies out. Every change a command makes to the service's active set is answered with
    a hello, and every hello makes the adapter replay its subscriptions. Left alone, whatever order the
    exchange is scheduled in, it ends, with the service active on all it should be. */
module FeedEcho {
  import opened Prelude
  import opened SubscriptionTracking
  import opened FeedProtocol

  /** A step of the exchange on connection `c`. */
  predicate EchoStep<K>(step: Step<K>, c: Conn) {
    step == ServiceStep(c) || step == DeliverHello(c) || step.TaskStart? || step.TaskSend? || step.TaskEnd?
  }

  /** Something of the exchange is outstanding. */
  predicate Outstanding<K>(s: State<K>, c: Conn)
    requires c in s.links
  {
    s.links[c].toService != [] || s.links[c].toAdapter != [] || s.tasks != []
  }

  /** The exchange takes place on the current, open connection. */
  ghost predicate OnCurrent<K>(s: State<K>, c: Conn) {
    Inv(s) && s.ws == Some(c) && OpenAt(s, c)
  }

  /** As long as something is outstanding some step of the exchange can be taken. */
  lemma NeverStuck<K>(s: State<K>, c: Conn) returns (step: Step<K>)
    requires OnCurrent(s, c) && Outstanding(s, c)
    ensures EchoStep(step, c) && Enabled(s, step)
  {
    if s.links[c].toService != [] {
      step := ServiceStep(c);
    } else if s.links[c].toAdapter != [] {
      step := DeliverHello(c);
    } else {
      match s.tasks[0]
      case Scheduled(_) =>
        var pending := ReplaySet(s.desired, s.pending);
        var groups: seq<set<K>> := if pending == {} then [] else [pending];
        assert Union(groups) == pending;
        step := TaskStart(0, groups);
      case Sending(_, groups) =>
        step := if groups == [] then TaskEnd(0) else TaskSend(0);
    }
  }

  // ---------- the measure ----------

  function Sum<K>(w: Task<K> -> nat, tasks: seq<Task<K>>): nat {
    if tasks == [] then 0 else w(tasks[0]) + Sum(w, tasks[1..])
  }

  lemma {:induction false} SumUpdate<K>(w: Task<K> -> nat, tasks: seq<Task<K>>, i: nat, t: Task<K>)
    requires i < |tasks|
    ensures Sum(w, tasks[i := t]) == Sum(w, tasks) - w(tasks[i]) + w(t)
    ensures Sum(w, Without(tasks, i)) == Sum(w, tasks) - w(tasks[i])
    decreases i
  {
    if i == 0 {
      assert tasks[0 := t][1..] == tasks[1..];
      assert Without(tasks, 0) == tasks[1..];
    } else {
      assert tasks[i := t][1..] == tasks[1..][i - 1 := t];
      assert Without(tasks, i)[1..] == Without(tasks[1..], i - 1);
      SumUpdate(w, tasks[1..], i - 1, t);
    }
  }

  lemma {:induction false} SumSnoc<K>(w: Task<K> -> nat, tasks: seq<Task<K>>, t: Task<K>)
    ensures Sum(w, tasks + [t]) == Sum(w, tasks) + w(t)
  {
    if tasks != [] {
      assert (tasks + [t])[1..] == tasks[1..] + [t];
      SumSnoc(w, tasks[1..], t);
    }
  }

  function ScheduledWeight<K>(t: Task<K>): nat {
    if t.Scheduled? then 1 else 0
  }

  function GroupWeight<K>(t: Task<K>): nat {
    if t.Scheduled? then 0 else |t.groups|
  }

  function ScheduledCount<K>(tasks: seq<Task<K>>): nat {
    Sum((t: Task<K>) => ScheduledWeight(t), tasks)
  }

  function GroupCount<K>(tasks: seq<Task<K>>): nat {
    Sum((t: Task<K>) => GroupWeight(t), tasks)
  }

  function UnsubCount<K>(ops: seq<Op<K>>): nat {
    if ops == [] then 0 else (if ops[0].UnsubOp? then 1 else 0) + UnsubCount(ops[1..])
  }

  lemma {:induction false} UnsubCountSnoc<K>(ops: seq<Op<K>>, keys: set<K>)
    ensures UnsubCount(ops + [SubOp(keys)]) == UnsubCount(ops)
  {
    if ops != [] {
      assert (ops + [SubOp(keys)])[1..] == ops[1..] + [SubOp(keys)];
      UnsubCountSnoc(ops[1..], keys);
    }
  }

  /** Every key the exchange can still subscribe lies in `top`. */
  ghost predicate Bounded<K>(s: State<K>, c: Conn, top: set<K>)
    requires c in s.links
  {
    && s.desired <= top && s.pending.subscribe <= top
    && (forall op | op in s.links[c].toService && op.SubOp? :: op.keys <= top)
    && forall t | t in s.tasks && t.Sending? :: Union(t.groups) <= top
  }

  function SubKeys<K>(ops: seq<Op<K>>): set<K> {
    if ops == [] then {} else (if ops[0].SubOp? then ops[0].keys else {}) + SubKeys(ops[1..])
  }

  function GroupKeys<K>(tasks: seq<Task<K>>): set<K> {
    if tasks == [] then {} else (if tasks[0].Sending? then Union(tasks[0].groups) else {}) + GroupKeys(tasks[1..])
  }

  /** Every key the exchange can still subscribe. */
  function Top<K>(s: State<K>, c: Conn): set<K>
    requires c in s.links
  {
    s.desired + s.pending.subscribe + SubKeys(s.links[c].toService) + GroupKeys(s.tasks)
  }

  lemma {:induction false} SubKeysBound<K>(ops: seq<Op<K>>)
    ensures forall op | op in ops && op.SubOp? :: op.keys <= SubKeys(ops)
  {
    if ops != [] {
      SubKeysBound(ops[1..]);
    }
  }

  lemma {:induction false} GroupKeysBound<K>(tasks: seq<Task<K>>)
    ensures forall t | t in tasks && t.Sending? :: Union(t.groups) <= GroupKeys(tasks)
  {
    if tasks != [] {
      GroupKeysBound(tasks[1..]);
    }
  }

  lemma {:induction false} SmallerSet<K>(a: set<K>, b: set<K>)
    requires a < b
    ensures |a| < |b|
  {
    var x :| x in b && x !in a;
    assert a <= b - {x};
    if a != {} {
      var y :| y in a;
      SmallerSet(a - {y}, b - {y});
    }
  }

  /** Keys the service could still be made active on. */
  ghost function Missing<K>(s: State<K>, c: Conn, top: set<K>): set<K>
    requires c in s.links
  {
    top * s.links[c].supported - s.links[c].active
  }

  ghost function Measure<K>(s: State<K>, c: Conn, top: set<K>): (nat, nat, nat, nat, nat, nat, nat)
    requires c in s.links
  {
    var l := s.links[c];
    (UnsubCount(l.toService), |Missing(s, c, top)|, |l.toAdapter|,
     ScheduledCount(s.tasks), GroupCount(s.tasks), |s.tasks|, |l.toService|)
  }

  ghost predicate Less(a: (nat, nat, nat, nat, nat, nat, nat), b: (nat, nat, nat, nat, nat, nat, nat)) {
    || a.0 < b.0
    || (a.0 == b.0 && a.1 < b.1)
    || (a.0 == b.0 && a.1 == b.1 && a.2 < b.2)
    || (a.0 == b.0 && a.1 == b.1 && a.2 == b.2 && a.3 < b.3)
    || (a.0 == b.0 && a.1 == b.1 && a.2 == b.2 && a.3 == b.3 && a.4 < b.4)
    || (a.0 == b.0 && a.1 == b.1 && a.2 == b.2 && a.3 == b.3 && a.4 == b.4 && a.5 < b.5)
    || (a.0 == b.0 && a.1 == b.1 && a.2 == b.2 && a.3 == b.3 && a.4 == b.4 && a.5 == b.5 && a.6 < b.6)
  }

  /** The facts every step of the exchange keeps. */
  ghost predicate Ongoing<K>(s: State<K>, c: Conn, top: set<K>) {
    OnCurrent(s, c) && Bounded(s, c, top)
  }

  lemma ServiceStepProgress<K>(s: State<K>, c: Conn, top: set<K>)
    requires Ongoing(s, c, top) && Enabled(s, ServiceStep(c))
    ensures var n := Next(s, ServiceStep(c));
            Bounded(n, c, top) && Less(Measure(n, c, top), Measure(s, c, top))
  {
    var l, n := s.links[c], Next(s, ServiceStep(c));
    var op := l.toService[0];
    assert op in l.toService;
    if op.SubOp? && n.links[c].active != l.active {
      assert Missing(n, c, top) <= Missing(s, c, top);
      var k :| k in n.links[c].active && k !in l.active;
      assert k in Missing(s, c, top) && k !in Missing(n, c, top);
      SmallerSet(Missing(n, c, top), Missing(s, c, top));
    }
  }

  lemma DeliverProgress<K>(s: State<K>, c: Conn, top: set<K>)
    requires Ongoing(s, c, top) && Enabled(s, DeliverHello(c))
    ensures var n := Next(s, DeliverHello(c));
            Bounded(n, c, top) && Less(Measure(n, c, top), Measure(s, c, top))
  {
    var n := Next(s, DeliverHello(c));
    assert forall t | t in n.tasks && t.Sending? :: t in s.tasks;
  }

  lemma TaskStartProgress<K>(s: State<K>, c: Conn, top: set<K>, i: nat, groups: seq<set<K>>)
    requires Ongoing(s, c, top) && Enabled(s, TaskStart(i, groups))
    ensures var n := Next(s, TaskStart(i, groups));
            Bounded(n, c, top) && Less(Measure(n, c, top), Measure(s, c, top))
  {
    var t := Sending(s.tasks[i].tag, groups);
    TasksKept(s.tasks, i, t);
    SumUpdate((t: Task<K>) => ScheduledWeight(t), s.tasks, i, t);
  }

  lemma TaskSendProgress<K>(s: State<K>, c: Conn, top: set<K>, i: nat)
    requires Ongoing(s, c, top) && Enabled(s, TaskSend(i))
    ensures var n := Next(s, TaskSend(i));
            Bounded(n, c, top) && Less(Measure(n, c, top), Measure(s, c, top))
  {
    var groups := s.tasks[i].groups;
    var t := Sending(s.tasks[i].tag, groups[1..]);
    TasksKept(s.tasks, i, t);
    assert s.tasks[i] in s.tasks && Union(groups) == groups[0] + Union(groups[1..]);
    SumUpdate((t: Task<K>) => ScheduledWeight(t), s.tasks, i, t);
    SumUpdate((t: Task<K>) => GroupWeight(t), s.tasks, i, t);
    UnsubCountSnoc(s.links[c].toService, groups[0]);
    var ops := Issue(s.desired, s.pending, SubOp(groups[0])).ops;
    assert s.links[c].toService + [] == s.links[c].toService;
  }

  lemma TaskEndProgress<K>(s: State<K>, c: Conn, top: set<K>, i: nat)
    requires Ongoing(s, c, top) && Enabled(s, TaskEnd(i))
    ensures var n := Next(s, TaskEnd(i));
            Bounded(n, c, top) && Less(Measure(n, c, top), Measure(s, c, top))
  {
    TasksKept(s.tasks, i, s.tasks[i]);
    SumUpdate((t: Task<K>) => ScheduledWeight(t), s.tasks, i, s.tasks[i]);
    SumUpdate((t: Task<K>) => GroupWeight(t), s.tasks, i, s.tasks[i]);
  }

  /** Each step of the exchange brings it closer to its end and changes nothing the user asked for. */
  lemma EchoProgress<K>(s: State<K>, c: Conn, top: set<K>, step: Step<K>)
    requires Ongoing(s, c, top) && EchoStep(step, c) && Enabled(s, step)
    ensures var n := Next(s, step);
            && Ongoing(n, c, top) && Less(Measure(n, c, top), Measure(s, c, top))
            && n.desired == s.desired && n.links[c].supported == s.links[c].supported
  {
    InvKept(s, step);
    match step
    case ServiceStep(_) => ServiceStepProgress(s, c, top);
    case DeliverHello(_) => DeliverProgress(s, c, top);
    case TaskStart(i, groups) => TaskStartProgress(s, c, top, i, groups);
    case TaskSend(i) => TaskSendProgress(s, c, top, i);
    case TaskEnd(i) => TaskEndProgress(s, c, top, i);
  }

  // ---------- the result ----------

  /** A scheduler: whenever something is outstanding it picks a step of the exchange that can be taken. */
  ghost predicate Schedules<K(!new)>(pick: State<K> -> Step<K>, c: Conn) {
    forall s: State<K> | OnCurrent(s, c) && Outstanding(s, c) :: EchoStep(pick(s), c) && Enabled(s, pick(s))
  }

  ghost function RunEcho<K(!new)>(s: State<K>, c: Conn, top: set<K>, pick: State<K> -> Step<K>): (last: State<K>)
    requires Ongoing(s, c, top) && Schedules(pick, c)
    ensures Ongoing(last, c, top) && !Outstanding(last, c)
    ensures last.desired == s.desired && last.links[c].supported == s.links[c].supported
    decreases Measure(s, c, top).0, Measure(s, c, top).1, Measure(s, c, top).2, Measure(s, c, top).3,
              Measure(s, c, top).4, Measure(s, c, top).5, Measure(s, c, top).6
  {
    if !Outstanding(s, c) then s
    else
      EchoProgress(s, c, top, pick(s));
      RunEcho(Next(s, pick(s)), c, top, pick)
  }

  /** From any reachable state with an open current connection, and under every scheduler, the exchange
      ends; then nothing is in flight and the service is active on every desired key it supports. */
  lemma EchoQuiesces<K(!new)>(states: seq<State<K>>, steps: seq<Step<K>>, i: nat, c: Conn, pick: State<K> -> Step<K>)
    requires Execution(states, steps) && i < |states|
    requires states[i].ws == Some(c) && OpenAt(states[i], c) && Schedules(pick, c)
    ensures Ongoing(states[i], c, Top(states[i], c))
    ensures var last := RunEcho(states[i], c, Top(states[i], c), pick);
            && !Outstanding(last, c)
            && last.desired == states[i].desired
            && states[i].desired * states[i].links[c].supported <= last.links[c].active
  {
    InvHolds(states, steps, i);
    SubKeysBound(states[i].links[c].toService);
    GroupKeysBound(states[i].tasks);
    var last := RunEcho(states[i], c, Top(states[i], c), pick);
    assert HelloOwed(last, c);
    assert c in last.synced;
  }
}
