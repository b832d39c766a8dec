/** The life of requests and subscriptions: ids from one counter, two registries, and a future per
    request. A transition system over both registries, what every run of it keeps, and the client
    whose methods make its steps. */
module ClientRequests {
  import opened Prelude
  import opened Registry

  /** `futures` holds the outcome of every request ever made, also of those no longer registered. */
  datatype State<V> = State(next: int, requests: Table<seq<V>>, subs: Table<Option<V>>, futures: map<int, Outcome<V>>)

  const FIRST_ID := 10000

  function Init<V>(): State<V> {
    State(FIRST_ID, map[], map[], map[])
  }

  datatype Step<V> =
    | Subscribe(name: Name, handle: Callback, cancel: Callback)
    | Unsubscribe(name: Name)
    | Request(name: Name, handle: Callback, cancel: Callback, checked: bool)
    | Data(id: int, value: V)
    | End(id: int, success: bool, raises: bool)
    | Resolve(id: int, values: seq<V>)
    | Timeout(id: int)
    | ConnectionClosed

  /** What the caller sees: an entry, a refusal, the request's cancel callback being called, or the error of
      setting the result of a future that is done. */
  datatype Reply =
    | Silent | Exists | Duplicate | Registered(id: int) | Invisible | CancelCalled(cancel: Callback) | InvalidState

  function OutcomeOf<V>(s: State<V>, id: int): Outcome<V> {
    if id in s.futures then s.futures[id] else Pending
  }

  /** Registering under the next id, after a look for the same name where the caller looks. */
  ghost function Register<X>(next: int, t: Table<X>, row: Row<X>, checked: bool): (int, Table<X>, Reply) {
    if checked && Lookup(t, None, Some(row.name)).Some? then (next, t, Exists)
    else
      match Insert(t, next, row)
      case Added(u) => (next + 1, u, if Truthy(row.name) then Registered(next) else Invisible)
      case _ => (next + 1, t, Duplicate)
  }

  ghost function SubscribeStep<V>(s: State<V>, name: Name, handle: Callback, cancel: Callback): (State<V>, Reply) {
    var (next, t, reply) := Register(s.next, s.subs, Row(name, handle, cancel, None), true);
    (s.(next := next, subs := t), reply)
  }

  ghost function RequestStep<V>(s: State<V>, name: Name, handle: Callback, cancel: Callback, checked: bool)
    : (State<V>, Reply)
  {
    var (next, t, reply) := Register(s.next, s.requests, Row(name, handle, cancel, []), checked);
    (s.(next := next, requests := t,
        futures := if reply == Exists || reply == Duplicate then s.futures else s.futures[s.next := Pending]), reply)
  }

  /** What ending a request found under `id` does to its future. */
  function Concluded<V>(o: Outcome<V>, received: seq<V>, success: bool, raises: bool): Outcome<V> {
    if o != Pending then o else if success then Result(received) else if raises then Failed else Pending
  }

  ghost function EndStep<V>(s: State<V>, id: int, success: bool, raises: bool): (State<V>, Reply) {
    match Lookup(s.requests, Some(id), None)
    case None => (s, Silent)
    case Some((_, row)) =>
      (s.(requests := Delete(s.requests, Some(id), None),
          futures := s.futures[id := Concluded(OutcomeOf(s, id), row.payload, success, raises)]),
       if OutcomeOf(s, id) == Pending && !success then CancelCalled(row.cancel) else Silent)
  }

  ghost function UnsubscribeStep<V>(s: State<V>, name: Name): State<V> {
    match Lookup(s.subs, None, Some(name))
    case None => s
    case Some((id, _)) => s.(subs := Delete(s.subs, Some(id), None))
  }

  ghost function DataStep<V>(s: State<V>, id: int, value: V): State<V> {
    s.(requests := Appended(s.requests, id, value))
  }

  /** A result set on the future directly: the request, if it is still registered, stays so. */
  function ResolveStep<V>(s: State<V>, id: int, values: seq<V>): (State<V>, Reply) {
    if id in s.futures && s.futures[id] == Pending then (s.(futures := s.futures[id := Result(values)]), Silent)
    else (s, InvalidState)
  }

  function TimeoutStep<V>(s: State<V>, id: int): State<V> {
    if id in s.futures && s.futures[id] == Pending then s.(futures := s.futures[id := Cancelled]) else s
  }

  function FailPending<V>(futures: map<int, Outcome<V>>, ids: set<int>): map<int, Outcome<V>> {
    map id | id in futures :: if id in ids && futures[id] == Pending then Failed else futures[id]
  }

  lemma FailPendingStep<V>(futures: map<int, Outcome<V>>, ids: seq<int>, i: nat)
    requires i < |ids| && ids[i] in futures
    ensures var t := FailPending(futures, Elements(ids[..i]));
            FailPending(futures, Elements(ids[..i + 1])) == if t[ids[i]] == Pending then t[ids[i] := Failed] else t
  {
    assert Elements(ids[..i + 1]) == Elements(ids[..i]) + {ids[i]};
  }

  function ClosedStep<V>(s: State<V>): State<V> {
    s.(futures := FailPending(s.futures, s.requests.Keys))
  }

  ghost function Next<V>(s: State<V>, step: Step<V>): (State<V>, Reply) {
    match step
    case Subscribe(name, handle, cancel) => SubscribeStep(s, name, handle, cancel)
    case Unsubscribe(name) => (UnsubscribeStep(s, name), Silent)
    case Request(name, handle, cancel, checked) => RequestStep(s, name, handle, cancel, checked)
    case Data(id, value) => (DataStep(s, id, value), Silent)
    case End(id, success, raises) => EndStep(s, id, success, raises)
    case Resolve(id, values) => ResolveStep(s, id, values)
    case Timeout(id) => (TimeoutStep(s, id), Silent)
    case ConnectionClosed => (ClosedStep(s), Silent)
  }

  ghost function Run<V>(steps: seq<Step<V>>): State<V> {
    if steps == [] then Init() else Next(Run(steps[..|steps| - 1]), steps[|steps| - 1]).0
  }

  // ---------- what every run keeps ----------

  /** Every id in use came from the counter, each is a request's or a subscription's but not both, every
      registered request has a future, and names are not shared. */
  ghost predicate Inv<V>(s: State<V>) {
    && s.next >= FIRST_ID
    && (forall id | id in s.futures || id in s.subs :: FIRST_ID <= id < s.next)
    && s.requests.Keys <= s.futures.Keys && s.subs.Keys !! s.futures.Keys
    && Injective(s.requests) && Injective(s.subs)
  }

  lemma InsertKeepsInjective<X>(t: Table<X>, id: int, row: Row<X>)
    requires Injective(t)
    ensures var r := Insert(t, id, row); r.Added? ==> Injective(r.table) && r.table.Keys == t.Keys + {id}
  {
    var r := Insert(t, id, row);
    if r.Added? {
      forall a, b | a in r.table && b in r.table && r.table[a].name == r.table[b].name ensures a == b {
        assert IdOf(t, row.name) == None;
      }
    }
  }

  lemma RegisteringKeepsInv<V>(s: State<V>, name: Name, handle: Callback, cancel: Callback, checked: bool)
    requires Inv(s)
    ensures Inv(SubscribeStep(s, name, handle, cancel).0)
    ensures Inv(RequestStep(s, name, handle, cancel, checked).0)
  {
    InsertKeepsInjective(s.subs, s.next, Row(name, handle, cancel, None));
    InsertKeepsInjective(s.requests, s.next, Row(name, handle, cancel, []));
  }

  lemma InvKept<V>(s: State<V>, step: Step<V>)
    requires Inv(s)
    ensures Inv(Next(s, step).0)
  {
    match step
    case Subscribe(name, handle, cancel) => RegisteringKeepsInv(s, name, handle, cancel, true);
    case Request(name, handle, cancel, checked) => RegisteringKeepsInv(s, name, handle, cancel, checked);
    case _ =>
  }

  lemma {:induction false} InvHolds<V>(steps: seq<Step<V>>)
    ensures Inv(Run(steps))
  {
    if steps != [] {
      InvHolds(steps[..|steps| - 1]);
      InvKept(Run(steps[..|steps| - 1]), steps[|steps| - 1]);
    }
  }

  /** A run, continued. */
  lemma RunSnoc<V>(steps: seq<Step<V>>, step: Step<V>)
    ensures Run(steps + [step]) == Next(Run(steps), step).0
  {
    assert (steps + [step])[..|steps|] == steps;
  }

  // ---------- main results ----------

  /** Ids are fresh: in every reachable state an id belongs to at most one registry, so whichever is asked
      first the same entry is found; and what is registered there is found unless its name is empty. */
  lemma DispatchOrderIrrelevant<V>(steps: seq<Step<V>>, id: int)
    ensures var s := Run(steps);
            && !(id in s.requests && id in s.subs)
            && (Lookup(s.requests, Some(id), None) == None || Lookup(s.subs, Some(id), None) == None)
            && (id in s.requests || id in s.subs ==> FIRST_ID <= id < s.next)
            && (id in s.requests ==> (Lookup(s.requests, Some(id), None).Some? <==> Truthy(s.requests[id].name)))
  {
    InvHolds(steps);
  }

  /** The duplicate error, exactly: a subscription meets it only with an empty name already in use; a
      request that looks first, likewise; a request that does not look, with any name in use. The
      refused call changes nothing but spends an id. */
  lemma DuplicateExactly<V>(steps: seq<Step<V>>, name: Name, handle: Callback, cancel: Callback, checked: bool)
    ensures var s := Run(steps);
            && var (t, reply) := Next(s, Subscribe(name, handle, cancel));
            && (reply == Duplicate <==> !Truthy(name) && exists id :: id in s.subs && s.subs[id].name == name)
            && (reply == Duplicate ==> t == s.(next := s.next + 1))
    ensures var s := Run(steps);
            && var (t, reply) := Next(s, Request(name, handle, cancel, checked));
            && (reply == Duplicate <==>
                (checked ==> !Truthy(name)) && exists id :: id in s.requests && s.requests[id].name == name)
            && (reply == Duplicate ==> t == s.(next := s.next + 1))
  {
    var s := Run(steps);
    InvHolds(steps);
    FoundByName(s.subs, name);
    FoundByName(s.requests, name);
  }

  lemma FoundByName<X>(t: Table<X>, name: Name)
    requires Injective(t) && 0 !in t
    ensures Lookup(t, None, Some(name)).Some? <==> Truthy(name) && exists id :: id in t && t[id].name == name
    ensures IdOf(t, name).Some? <==> exists id :: id in t && t[id].name == name
  {
    if id :| id in t && t[id].name == name {
      IdOfUnique(t, id);
    }
  }

  /** After a subscribe that was not refused there is exactly one subscription of that name, and after an
      unsubscribe of a non-empty name there is none; other names keep theirs. */
  lemma OneSubscriptionPerName<V>(steps: seq<Step<V>>, name: Name, handle: Callback, cancel: Callback)
    requires Truthy(name)
    ensures var t := Run(steps + [Subscribe(name, handle, cancel)]);
            exists id :: id in t.subs && t.subs[id].name == name
                         && forall b | b in t.subs && t.subs[b].name == name :: b == id
    ensures var s, u := Run(steps), Run(steps + [Unsubscribe(name)]);
            && (forall id | id in s.subs && s.subs[id].name != name :: id in u.subs && u.subs[id] == s.subs[id])
            && (forall id | id in u.subs :: id in s.subs && s.subs[id].name != name)
  {
    var s := Run(steps);
    InvHolds(steps);
    FoundByName(s.subs, name);
    RunSnoc(steps, Subscribe(name, handle, cancel));
    RunSnoc(steps, Unsubscribe(name));
    InvHolds(steps + [Subscribe(name, handle, cancel)]);
    var t := Run(steps + [Subscribe(name, handle, cancel)]);
    if Lookup(s.subs, None, Some(name)) == None {
      assert s.next in t.subs && t.subs[s.next].name == name;
    }
  }

  /** Once settled, a future keeps its outcome, so it leaves pending at most once. */
  lemma SettledStep<V>(s: State<V>, step: Step<V>, id: int)
    requires Inv(s)
    ensures id in s.futures ==> id in Next(s, step).0.futures
    ensures OutcomeOf(s, id) != Pending ==> OutcomeOf(Next(s, step).0, id) == OutcomeOf(s, id)
  {
  }

  lemma {:induction false} SettlesOnce<V>(steps: seq<Step<V>>, more: seq<Step<V>>, id: int)
    ensures OutcomeOf(Run(steps), id) != Pending ==> OutcomeOf(Run(steps + more), id) == OutcomeOf(Run(steps), id)
    decreases |more|
  {
    if more == [] {
      assert steps + more == steps;
    } else {
      var n := |more| - 1;
      SettlesOnce(steps, more[..n], id);
      assert steps + more == (steps + more[..n]) + [more[n]];
      RunSnoc(steps + more[..n], more[n]);
      InvHolds(steps + more[..n]);
      SettledStep(Run(steps + more[..n]), more[n], id);
    }
  }

  lemma GoneStep<V>(s: State<V>, step: Step<V>, id: int)
    requires Inv(s) && id < s.next
    ensures var t := Next(s, step).0;
            && id < t.next
            && (id !in s.requests ==> id !in t.requests) && (id !in s.futures ==> id !in t.futures)
  {
  }

  /** An id the counter has passed and no registry holds is never registered again. */
  lemma {:induction false} GoneForGood<V>(steps: seq<Step<V>>, more: seq<Step<V>>, id: int)
    requires id < Run(steps).next && id !in Run(steps).requests
    ensures id < Run(steps + more).next && id !in Run(steps + more).requests
    ensures id !in Run(steps).futures ==> id !in Run(steps + more).futures
    decreases |more|
  {
    if more == [] {
      assert steps + more == steps;
    } else {
      var n := |more| - 1;
      GoneForGood(steps, more[..n], id);
      assert steps + more == (steps + more[..n]) + [more[n]];
      RunSnoc(steps + more[..n], more[n]);
      InvHolds(steps + more[..n]);
      GoneStep(Run(steps + more[..n]), more[n], id);
    }
  }

  /** Ending a visible request removes it for good, and every later or second end of it changes nothing
      and calls nothing. */
  lemma LateEndIsNoOp<V>(steps: seq<Step<V>>, id: int, success: bool, raises: bool, more: seq<Step<V>>,
                         success': bool, raises': bool)
    requires Lookup(Run(steps).requests, Some(id), None).Some?
    ensures var s := Run(steps + [End(id, success, raises)] + more);
            id !in s.requests && Next(s, End(id, success', raises')) == (s, Silent)
  {
    InvHolds(steps);
    RunSnoc(steps, End(id, success, raises));
    GoneForGood(steps + [End(id, success, raises)], more, id);
  }

  /** A step strands a request, removing it with its future still pending, exactly when it ends a pending
      request unsuccessfully with no exception given. */
  lemma StrandedExactly<V>(s: State<V>, step: Step<V>, id: int)
    requires Inv(s) && Lookup(s.requests, Some(id), None).Some?
    ensures var t := Next(s, step).0;
            id !in t.requests && OutcomeOf(t, id) == Pending <==>
            step == End(id, false, false) && OutcomeOf(s, id) == Pending
  {
  }

  ghost predicate Abandoned<V>(s: State<V>, id: int) {
    id in s.futures && id !in s.requests
  }

  /** What is left to settle an abandoned future: its own timeout, or a result set on it directly. */
  function SettledAlone<V>(o: Outcome<V>, step: Step<V>, id: int): Outcome<V> {
    if o != Pending then o
    else if step == Timeout(id) then Cancelled
    else if step.Resolve? && step.id == id then Result(step.values)
    else o
  }

  function OutcomeAlone<V>(o: Outcome<V>, more: seq<Step<V>>, id: int): Outcome<V> {
    if more == [] then o
    else SettledAlone(OutcomeAlone(o, more[..|more| - 1], id), more[|more| - 1], id)
  }

  lemma AbandonedStep<V>(s: State<V>, step: Step<V>, id: int)
    requires Inv(s) && Abandoned(s, id)
    ensures var t := Next(s, step).0;
            Abandoned(t, id) && OutcomeOf(t, id) == SettledAlone(OutcomeOf(s, id), step, id)
  {
  }

  /** From then on only its own timeout, or a result set on it directly, can settle it. */
  lemma {:induction false} StrandedStays<V>(steps: seq<Step<V>>, more: seq<Step<V>>, id: int)
    requires Abandoned(Run(steps), id)
    ensures Abandoned(Run(steps + more), id)
    ensures OutcomeOf(Run(steps + more), id) == OutcomeAlone(OutcomeOf(Run(steps), id), more, id)
    decreases |more|
  {
    if more == [] {
      assert steps + more == steps;
    } else {
      var n := |more| - 1;
      var front, step := more[..n], more[n];
      StrandedStays(steps, front, id);
      assert steps + more == (steps + front) + [step];
      RunSnoc(steps + front, step);
      InvHolds(steps + front);
      AbandonedStep(Run(steps + front), step, id);
    }
  }

  lemma {:induction false} PendingAlone<V>(more: seq<Step<V>>, id: int)
    ensures OutcomeAlone(Pending, more, id) == Pending <==>
            forall step | step in more :: step != Timeout(id) && !(step.Resolve? && step.id == id)
  {
    if more != [] {
      var n := |more| - 1;
      PendingAlone(more[..n], id);
      assert more == more[..n] + [more[n]];
    }
  }

  /** Without either, it stays pending for good. */
  lemma StrandedForGood<V>(steps: seq<Step<V>>, more: seq<Step<V>>, id: int)
    requires Abandoned(Run(steps), id) && OutcomeOf(Run(steps), id) == Pending
    ensures OutcomeOf(Run(steps + more), id) == Pending <==>
            forall step | step in more :: step != Timeout(id) && !(step.Resolve? && step.id == id)
  {
    StrandedStays(steps, more, id);
    PendingAlone(more, id);
  }

  /** The cancel callback is called exactly by an unsuccessful end of a visible request still pending; a
      request whose future its timeout has cancelled is removed without it. */
  lemma CancelCalledExactly<V>(s: State<V>, id: int, success: bool, raises: bool)
    requires Inv(s) && Lookup(s.requests, Some(id), None).Some?
    ensures Next(s, End(id, success, raises)).1 ==
            if !success && OutcomeOf(s, id) == Pending then CancelCalled(s.requests[id].cancel) else Silent
    ensures Next(Next(s, Timeout(id)).0, End(id, success, raises)).1 == Silent
  {
  }

  // ---------- what a successful request delivers ----------

  /** The values received for `id` while it was registered. */
  ghost function Received<V>(steps: seq<Step<V>>, id: int): seq<V> {
    if steps == [] then []
    else
      var front, step := steps[..|steps| - 1], steps[|steps| - 1];
      Received(front, id) + Adds(Run(front), step, id)
  }

  ghost predicate Delivers<V>(s: State<V>, id: int, received: seq<V>) {
    && (id >= s.next ==> received == [])
    && (id in s.requests ==> s.requests[id].payload == received)
  }

  /** What one more step adds to what was received. */
  ghost function Adds<V>(s: State<V>, step: Step<V>, id: int): seq<V> {
    if step.Data? && step.id == id && Lookup(s.requests, Some(id), None).Some? then [step.value] else []
  }

  lemma DeliversStep<V>(s: State<V>, step: Step<V>, id: int, received: seq<V>)
    requires Inv(s) && Delivers(s, id, received)
    ensures Delivers(Next(s, step).0, id, received + Adds(s, step, id))
  {
    assert received + [] == received;
  }

  lemma {:induction false} DeliversHolds<V>(steps: seq<Step<V>>, id: int)
    ensures Delivers(Run(steps), id, Received(steps, id))
  {
    if steps != [] {
      var front, step := steps[..|steps| - 1], steps[|steps| - 1];
      DeliversHolds(front, id);
      InvHolds(front);
      DeliversStep(Run(front), step, id, Received(front, id));
    }
  }

  lemma ReceivedSnoc<V>(steps: seq<Step<V>>, step: Step<V>, id: int)
    ensures Received(steps + [step], id) == Received(steps, id) + Adds(Run(steps), step, id)
    ensures id !in Run(steps).requests ==> Received(steps + [step], id) == Received(steps, id)
  {
    assert (steps + [step])[..|steps|] == steps;
    assert Received(steps, id) + [] == Received(steps, id);
  }

  /** The id has been and gone. */
  ghost predicate Past<V>(steps: seq<Step<V>>, id: int) {
    id < Run(steps).next && id !in Run(steps).requests
  }

  lemma FrozenStep<V>(steps: seq<Step<V>>, step: Step<V>, id: int)
    requires Past(steps, id)
    ensures Past(steps + [step], id) && Received(steps + [step], id) == Received(steps, id)
  {
    InvHolds(steps);
    RunSnoc(steps, step);
    GoneStep(Run(steps), step, id);
    ReceivedSnoc(steps, step, id);
  }

  lemma {:induction false} ReceivedFrozen<V>(steps: seq<Step<V>>, all: seq<Step<V>>, id: int)
    requires steps <= all && Past(steps, id)
    ensures Past(all, id) && Received(all, id) == Received(steps, id)
    decreases |all|
  {
    if steps != all {
      var front, step := all[..|all| - 1], all[|all| - 1];
      ReceivedFrozen(steps, front, id);
      FrozenStep(front, step, id);
      assert all == front + [step];
    }
  }

  /** Step `i` settles the future of `id`. */
  ghost predicate SettledAt<V>(steps: seq<Step<V>>, id: int, i: int) {
    && 0 <= i < |steps|
    && OutcomeOf(Run(steps[..i]), id) == Pending && OutcomeOf(Run(steps[..i + 1]), id) != Pending
  }

  /** A settled future was settled by one step, and has that step's outcome. */
  lemma {:induction false} SettledByOne<V>(steps: seq<Step<V>>, id: int) returns (i: int)
    requires OutcomeOf(Run(steps), id) != Pending
    ensures SettledAt(steps, id, i) && OutcomeOf(Run(steps), id) == OutcomeOf(Run(steps[..i + 1]), id)
    ensures forall j | SettledAt(steps, id, j) :: j == i
  {
    var n := |steps| - 1;
    assert steps != [] && steps[..n + 1] == steps;
    if OutcomeOf(Run(steps[..n]), id) == Pending {
      i := n;
    } else {
      i := SettledByOne(steps[..n], id);
      assert steps[..n][..i] == steps[..i] && steps[..n][..i + 1] == steps[..i + 1];
      SettlesOnce(steps[..n], [steps[n]], id);
      assert steps[..n] + [steps[n]] == steps;
    }
    forall j | SettledAt(steps, id, j) ensures j == i {
      if i < j {
        SettledAfter(steps, id, i, j);
      } else if j < i {
        SettledAfter(steps, id, j, i);
      }
    }
  }

  lemma SettledAfter<V>(steps: seq<Step<V>>, id: int, i: int, j: int)
    requires SettledAt(steps, id, i) && i < j <= |steps|
    ensures OutcomeOf(Run(steps[..j]), id) != Pending
  {
    SettlesOnce(steps[..i + 1], steps[i + 1..j], id);
    assert steps[..i + 1] + steps[i + 1..j] == steps[..j];
  }

  /** The two ways to a result: ending the request, which removes it and takes what was received; and
      setting it directly, which leaves the registry alone. */
  lemma ResultStep<V>(s: State<V>, step: Step<V>, id: int)
    requires Inv(s) && OutcomeOf(s, id) == Pending && OutcomeOf(Next(s, step).0, id).Result?
    ensures var t := Next(s, step).0;
            || (step.End? && step.id == id && step.success && id in s.requests && id !in t.requests
                && OutcomeOf(t, id) == Result(s.requests[id].payload))
            || (step.Resolve? && step.id == id && t.requests == s.requests && OutcomeOf(t, id) == Result(step.values))
  {
  }

  /** What a request delivers: the step that settled it removed it from the registry exactly when it was an
      end of it, and then the result is exactly the values received for its id, in order; otherwise the
      result was set directly, is whatever was set, and the request is registered as it was before. */
  lemma DeliversReceived<V>(steps: seq<Step<V>>, id: int, i: int)
    requires SettledAt(steps, id, i) && OutcomeOf(Run(steps), id).Result?
    ensures var s, t, outcome := Run(steps[..i]), Run(steps[..i + 1]), OutcomeOf(Run(steps), id);
            && (steps[i].End? || steps[i].Resolve?) && steps[i].id == id
            && (steps[i].End? <==> id in s.requests && id !in t.requests)
            && (steps[i].End? ==> outcome == Result(Received(steps, id)) && id !in Run(steps).requests)
            && (steps[i].Resolve? ==> outcome == Result(steps[i].values) && t.requests == s.requests)
  {
    var front, upto, rest := steps[..i], steps[..i + 1], steps[i + 1..];
    assert upto[..i] == front && upto + rest == steps;
    SettlesOnce(upto, rest, id);
    InvHolds(front);
    ResultStep(Run(front), steps[i], id);
    DeliversHolds(front, id);
    if steps[i].End? {
      InvHolds(upto);
      assert Received(upto, id) == Received(front, id) + [];
      ReceivedFrozen(upto, steps, id);
    }
  }

  // ---------- answers set directly ----------

  ghost predicate Named<V>(s: State<V>, id: int, name: Name) {
    id in s.requests && s.requests[id].name == name
  }

  /** The step ends `id`. */
  predicate Ends<V>(step: Step<V>, id: int) {
    step.End? && step.id == id
  }

  lemma NamedStep<V>(s: State<V>, step: Step<V>, id: int, name: Name)
    requires Inv(s) && FIRST_ID <= id < s.next && Truthy(name)
    ensures var t := Next(s, step).0;
            id < t.next && (Named(t, id, name) <==> Named(s, id, name) && !Ends(step, id))
  {
  }

  /** A visible request stays registered, under its name, exactly until it is ended. */
  lemma {:induction false} RegisteredUntilEnd<V>(steps: seq<Step<V>>, more: seq<Step<V>>, id: int, name: Name)
    requires Named(Run(steps), id, name) && Truthy(name)
    ensures FIRST_ID <= id < Run(steps + more).next
    ensures Named(Run(steps + more), id, name) <==> forall step | step in more :: !Ends(step, id)
    decreases |more|
  {
    InvHolds(steps);
    if more == [] {
      assert steps + more == steps;
    } else {
      var next, step := steps + [more[0]], more[0];
      assert more == [step] + more[1..] && steps + more == next + more[1..];
      RunSnoc(steps, step);
      NamedStep(Run(steps), step, id, name);
      if Ends(step, id) {
        GoneForGood(next, more[1..], id);
        assert step in more;
      } else {
        RegisteredUntilEnd(next, more[1..], id, name);
      }
    }
  }

  /** An answer set directly goes stale: until someone ends the request, a later request of the same name
      finds it, and its outcome is still that first answer. */
  lemma StaleAnswer<V>(steps: seq<Step<V>>, id: int, values: seq<V>, more: seq<Step<V>>,
                       handle: Callback, cancel: Callback)
    requires Lookup(Run(steps).requests, Some(id), None).Some? && OutcomeOf(Run(steps), id) == Pending
    requires forall step | step in more :: !Ends(step, id)
    ensures var t := Run(steps + [Resolve(id, values)] + more);
            && OutcomeOf(t, id) == Result(values)
            && Next(t, Request(Run(steps).requests[id].name, handle, cancel, true)) == (t, Exists)
  {
    var resolved, name := steps + [Resolve(id, values)], Run(steps).requests[id].name;
    InvHolds(steps);
    RunSnoc(steps, Resolve(id, values));
    SettlesOnce(resolved, more, id);
    RegisteredUntilEnd(resolved, more, id, name);
    InvHolds(resolved + more);
    FoundByName(Run(resolved + more).requests, name);
  }

  /** It happens: a request receives a value, an empty answer is set directly; the value is not delivered and
      the request is still registered. */
  lemma DirectAnswerDropsReceived<V>(name: Name, value: V) returns (steps: seq<Step<V>>)
    requires Truthy(name)
    ensures OutcomeOf(Run(steps), FIRST_ID) == Result([]) && Received(steps, FIRST_ID) == [value]
    ensures FIRST_ID in Run(steps).requests
  {
    var request, data, resolve := Request(name, 0, 0, true), Data(FIRST_ID, value), Resolve(FIRST_ID, []);
    var none: seq<Step<V>> := [];
    RunSnoc(none, request);
    assert none + [request] == [request];
    var s := Run([request]);
    assert FIRST_ID in s.requests && s.requests[FIRST_ID].name == name;
    RunSnoc([request], data);
    assert [request] + [data] == [request, data];
    RunSnoc([request, data], resolve);
    steps := [request, data] + [resolve];
    assert steps[..2] == [request, data] && [request, data][..1] == [request] && [request][..0] == none;
    assert Received([request], FIRST_ID) == [];
    assert Received([request, data], FIRST_ID) == [value];
  }

  // ---------- the client ----------

  /** Each method makes the step of the same meaning. */
  class MetaTrader5Client<V> {
    var requestIdSeq: int
    const requests: Requests<V>
    const subscriptions: Subscriptions<V>
    /** Every future ever made, by request id, and their outcomes. */
    ghost var made: map<int, Future<V>>
    ghost var outcomes: map<int, Outcome<V>>

    ghost predicate Valid()
      reads this, requests, requests.base, subscriptions, subscriptions.base, made.Values
    {
      && requestIdSeq >= FIRST_ID
      && requests.Valid() && subscriptions.Valid() && requests.base != subscriptions.base
      && Tracked()
      && forall id | id in requests.future :: id in made && made[id] == requests.future[id]
    }

    ghost predicate Tracked()
      reads this, made.Values
    {
      && outcomes.Keys == made.Keys
      && forall id | id in made :: made[id].request == id && outcomes[id] == made[id].outcome
    }

    ghost function Abs(): State<V>
      reads this, requests, subscriptions
    {
      State(requestIdSeq, requests.rows, subscriptions.rows, outcomes)
    }

    constructor ()
      ensures Valid() && Abs() == Init()
    {
      requestIdSeq := 10000;
      requests := new Requests<V>();
      subscriptions := new Subscriptions<V>();
      made, outcomes := map[], map[];
    }

    method NextReqId() returns (id: int)
      modifies `requestIdSeq
      ensures id == old(requestIdSeq) && requestIdSeq == id + 1
    {
      id := requestIdSeq;
      requestIdSeq := requestIdSeq + 1;
    }

    method MakeSubscription(name: Name, handle: Callback, cancel: Callback) returns (reply: Reply)
      requires Valid()
      modifies `requestIdSeq, subscriptions, subscriptions.base
      ensures Valid() && (Abs(), reply) == SubscribeStep(old(Abs()), name, handle, cancel)
    {
      reply := OpenSubscription(name, handle, cancel);
    }

    method OpenSubscription(name: Name, handle: Callback, cancel: Callback) returns (reply: Reply)
      requires subscriptions.Valid() && requestIdSeq >= FIRST_ID
      modifies `requestIdSeq, subscriptions, subscriptions.base
      ensures subscriptions.Valid() && requestIdSeq >= FIRST_ID
      ensures (requestIdSeq, subscriptions.rows, reply) ==
              Register(old(requestIdSeq), old(subscriptions.rows), Row(name, handle, cancel, None), true)
    {
      var existing := subscriptions.Get(None, Some(name));
      if existing.Some? {
        return Exists;
      }
      var id := NextReqId();
      var ok, entry := subscriptions.Add(id, name, handle, cancel);
      reply := if !ok then Duplicate else if entry == None then Invisible else Registered(id);
    }

    method RemoveSubscription(name: Name)
      requires Valid()
      modifies subscriptions, subscriptions.base
      ensures Valid() && Abs() == UnsubscribeStep(old(Abs()), name)
    {
      var entry := subscriptions.Get(None, Some(name));
      if entry.Some? {
        subscriptions.Remove(Some(entry.value.0), None);
      }
    }

    method MakeRequest(name: Name, handle: Callback, cancel: Callback, checked: bool) returns (reply: Reply)
      requires Valid()
      modifies `requestIdSeq, `made, `outcomes, requests, requests.base
      ensures Valid() && (Abs(), reply) == RequestStep(old(Abs()), name, handle, cancel, checked)
    {
      ghost var id := requestIdSeq;
      reply := OpenRequest(name, handle, cancel, checked);
      if reply != Exists && reply != Duplicate {
        made, outcomes := made[id := requests.future[id]], outcomes[id := Pending];
      }
    }

    /** Most callers look for a request of the same name first; some do not. */
    method OpenRequest(name: Name, handle: Callback, cancel: Callback, checked: bool) returns (reply: Reply)
      requires requests.Valid() && requestIdSeq >= FIRST_ID
      modifies `requestIdSeq, requests, requests.base
      ensures requests.Valid() && requestIdSeq >= FIRST_ID
      ensures (requestIdSeq, requests.rows, reply) ==
              Register(old(requestIdSeq), old(requests.rows), Row(name, handle, cancel, []), checked)
      ensures reply == Exists || reply == Duplicate ==> requests.future == old(requests.future)
      ensures reply != Exists && reply != Duplicate ==>
                var id := old(requestIdSeq);
                && id in requests.future && requests.future == old(requests.future)[id := requests.future[id]]
                && fresh(requests.future[id]) && requests.future[id].request == id
                && requests.future[id].outcome == Pending
    {
      if checked {
        var existing := requests.Get(None, Some(name));
        if existing.Some? {
          return Exists;
        }
      }
      var id := NextReqId();
      var ok, entry := requests.Add(id, name, handle, cancel);
      reply := if !ok then Duplicate else if entry == None then Invisible else Registered(id);
    }

    /** One historical bar for a request. */
    method ProcessHistoricalData(id: int, value: V) returns (taken: bool)
      requires Valid()
      modifies requests
      ensures Valid() && Abs() == DataStep(old(Abs()), id, value)
      ensures taken <==> Lookup(old(requests.rows), Some(id), None).Some?
    {
      taken := requests.Append(id, value);
    }

    method EndRequest(id: int, success: bool, raises: bool) returns (reply: Reply)
      requires Valid()
      modifies `outcomes, requests, requests.base, made.Values
      ensures Valid() && (Abs(), reply) == EndStep(old(Abs()), id, success, raises)
    {
      reply := Silent;
      var entry := requests.Get(Some(id), None);
      if entry.Some? {
        reply := ConcludeRequest(id, entry.value.1, success, raises);
        RemoveRequest(id);
      }
    }

    method ConcludeRequest(id: int, row: Row<seq<V>>, success: bool, raises: bool) returns (reply: Reply)
      requires Valid() && id in requests.future
      modifies `outcomes, requests.future[id]
      ensures Valid() && outcomes == old(outcomes)[id := Concluded(old(outcomes)[id], row.payload, success, raises)]
      ensures reply == if old(outcomes)[id] == Pending && !success then CancelCalled(row.cancel) else Silent
    {
      reply := Conclude(id, requests.future[id], row, success, raises);
    }

    method RemoveRequest(id: int)
      requires Valid()
      modifies requests, requests.base
      ensures Valid() && requests.rows == Delete(old(requests.rows), Some(id), None)
      ensures subscriptions.rows == old(subscriptions.rows)
    {
      requests.Remove(Some(id), None);
    }

    method Conclude(ghost id: int, future: Future<V>, row: Row<seq<V>>, success: bool, raises: bool)
      returns (reply: Reply)
      requires Tracked() && id in made && made[id] == future
      modifies future, `outcomes
      ensures Tracked() && outcomes == old(outcomes)[id := Concluded(old(outcomes)[id], row.payload, success, raises)]
      ensures reply == if old(outcomes)[id] == Pending && !success then CancelCalled(row.cancel) else Silent
    {
      reply := Silent;
      if future.outcome != Pending {
        return;
      }
      if success {
        Settle(id, future, Result(row.payload));
      } else {
        reply := CancelCalled(row.cancel);
        if raises {
          Settle(id, future, Failed);
        }
      }
    }

    method Settle(ghost id: int, future: Future<V>, outcome: Outcome<V>)
      requires Tracked() && id in made && made[id] == future
      modifies future, `outcomes
      ensures Tracked() && outcomes == old(outcomes)[id := outcome]
    {
      future.outcome := outcome;
      outcomes := outcomes[id := outcome];
    }

    /** A result set on a future directly; on one that is done this raises. */
    method SetResult(ghost id: int, future: Future<V>, values: seq<V>) returns (reply: Reply)
      requires Valid() && id in made && made[id] == future
      modifies future, `outcomes
      ensures Valid() && (Abs(), reply) == ResolveStep(old(Abs()), id, values)
    {
      if future.outcome != Pending {
        return InvalidState;
      }
      Settle(id, future, Result(values));
      reply := Silent;
    }

    /** Waiting on a request runs out of time: its future is cancelled before the request is ended. */
    method TimeOut(ghost id: int, future: Future<V>)
      requires Valid() && id in made && made[id] == future
      modifies future, `outcomes
      ensures Valid() && Abs() == TimeoutStep(old(Abs()), id)
    {
      if future.outcome == Pending {
        Settle(id, future, Cancelled);
      }
    }

    method ProcessConnectionClosed()
      requires Valid()
      modifies `outcomes, made.Values
      ensures Valid() && Abs() == ClosedStep(old(Abs()))
    {
      var ids := ListRegistered();
      FailAll(ids, requests.rows.Keys);
    }

    method ListRegistered() returns (ids: seq<int>)
      requires requests.Valid()
      ensures Elements(ids) == requests.rows.Keys && forall id | id in ids :: id in requests.future
    {
      ids := Listed(requests.future.Keys);
    }

    method FailAll(ids: seq<int>, ghost live: set<int>)
      requires Tracked() && Elements(ids) == live
      requires forall id | id in ids :: id in requests.future && id in made && made[id] == requests.future[id]
      modifies `outcomes, made.Values
      ensures Tracked() && outcomes == FailPending(old(outcomes), live)
    {
      ghost var was := outcomes;
      for i := 0 to |ids|
        invariant Tracked() && outcomes == FailPending(was, Elements(ids[..i]))
      {
        var id := ids[i];
        assert id in ids && made[id] == requests.future[id];
        FailPendingStep(was, ids, i);
        var future := requests.future[id];
        if future.outcome == Pending {
          Settle(id, future, Failed);
        }
      }
      assert ids[..|ids|] == ids;
    }
  }
}
