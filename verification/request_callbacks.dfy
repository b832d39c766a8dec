/** What a caller gets of a request: its own name and callbacks for as long as it is registered, its own
    cancel callback when it is ended unsuccessfully, and the outcome of whatever settles its future. */
module RequestCallbacks {
  import opened Prelude
  import opened Registry
  import opened ClientRequests

  /** The row has just this name and these callbacks. */
  predicate Made<X>(row: Row<X>, name: Name, handle: Callback, cancel: Callback) {
    row.name == name && row.handle == handle && row.cancel == cancel
  }

  ghost predicate MadeRequest<V>(s: State<V>, id: int, name: Name, handle: Callback, cancel: Callback) {
    id in s.requests && Made(s.requests[id], name, handle, cancel)
  }

  ghost predicate MadeSubscription<V>(s: State<V>, id: int, name: Name, handle: Callback, cancel: Callback) {
    id in s.subs && Made(s.subs[id], name, handle, cancel)
  }

  /** Whoever is told that it is registered is registered under the counter's next id, with the name and
      callbacks it gave and with nothing received, whatever has happened before. */
  lemma RegisteredAsGiven<V>(steps: seq<Step<V>>, name: Name, handle: Callback, cancel: Callback, checked: bool,
                             id: int)
    ensures var step := Request(name, handle, cancel, checked);
            Next(Run(steps), step).1 == Registered(id) ==>
              var t := Run(steps + [step]);
              && id == Run(steps).next && id !in Run(steps).futures
              && MadeRequest(t, id, name, handle, cancel) && t.requests[id].payload == []
              && id in t.futures && OutcomeOf(t, id) == Pending
    ensures var step := Subscribe(name, handle, cancel);
            Next(Run(steps), step).1 == Registered(id) ==>
              var t := Run(steps + [step]);
              && id == Run(steps).next
              && MadeSubscription(t, id, name, handle, cancel) && t.subs[id].payload == None
  {
    InvHolds(steps);
    RunSnoc(steps, Request(name, handle, cancel, checked));
    RunSnoc(steps, Subscribe(name, handle, cancel));
  }

  lemma MadeStep<V>(s: State<V>, step: Step<V>, id: int, name: Name, handle: Callback, cancel: Callback)
    requires Inv(s) && Truthy(name)
    ensures MadeRequest(s, id, name, handle, cancel) ==>
              (MadeRequest(Next(s, step).0, id, name, handle, cancel) <==> !Ends(step, id))
    ensures MadeSubscription(s, id, name, handle, cancel) ==>
              (MadeSubscription(Next(s, step).0, id, name, handle, cancel) <==> step != Unsubscribe(name))
  {
    if MadeSubscription(s, id, name, handle, cancel) {
      IdOfUnique(s.subs, id);
    }
  }

  lemma {:induction false} MadeKept<V>(steps: seq<Step<V>>, more: seq<Step<V>>, id: int,
                                       name: Name, handle: Callback, cancel: Callback)
    requires Truthy(name)
    ensures MadeRequest(Run(steps), id, name, handle, cancel) && (forall step | step in more :: !Ends(step, id)) ==>
              MadeRequest(Run(steps + more), id, name, handle, cancel)
    ensures MadeSubscription(Run(steps), id, name, handle, cancel) && Unsubscribe(name) !in more ==>
              MadeSubscription(Run(steps + more), id, name, handle, cancel)
    decreases |more|
  {
    if more == [] {
      assert steps + more == steps;
    } else {
      var n := |more| - 1;
      MadeKept(steps, more[..n], id, name, handle, cancel);
      assert more == more[..n] + [more[n]];
      assert steps + more == (steps + more[..n]) + [more[n]];
      RunSnoc(steps + more[..n], more[n]);
      InvHolds(steps + more[..n]);
      MadeStep(Run(steps + more[..n]), more[n], id, name, handle, cancel);
    }
  }

  /** A request keeps its name and callbacks until it is ended. If it is ended unsuccessfully while it is
      pending, the cancel callback called is the one it was made with. */
  lemma CancelsItsOwn<V>(steps: seq<Step<V>>, name: Name, handle: Callback, cancel: Callback, checked: bool,
                         more: seq<Step<V>>, id: int, raises: bool)
    requires Next(Run(steps), Request(name, handle, cancel, checked)).1 == Registered(id)
    requires forall step | step in more :: !Ends(step, id)
    ensures var s := Run(steps + [Request(name, handle, cancel, checked)] + more);
            && MadeRequest(s, id, name, handle, cancel)
            && (Next(s, End(id, false, raises)).1 == CancelCalled(cancel) <==> OutcomeOf(s, id) == Pending)
  {
    var first := steps + [Request(name, handle, cancel, checked)];
    RegisteredAsGiven(steps, name, handle, cancel, checked, id);
    InvHolds(steps);
    MadeKept(first, more, id, name, handle, cancel);
    InvHolds(first + more);
    CancelCalledExactly(Run(first + more), id, false, raises);
  }

  /** A subscription keeps its name and callbacks until its name is unsubscribed. */
  lemma SubscriptionKeepsItsOwn<V>(steps: seq<Step<V>>, name: Name, handle: Callback, cancel: Callback,
                                   more: seq<Step<V>>, id: int)
    requires Next(Run(steps), Subscribe(name, handle, cancel)).1 == Registered(id) && Unsubscribe(name) !in more
    ensures MadeSubscription(Run(steps + [Subscribe(name, handle, cancel)] + more), id, name, handle, cancel)
  {
    RegisteredAsGiven(steps, name, handle, cancel, true, id);
    InvHolds(steps);
    MadeKept(steps + [Subscribe(name, handle, cancel)], more, id, name, handle, cancel);
  }

  // ---------- outcomes ----------

  /** What each step does to the future of a request: a result only by a successful end or set directly, a
      failure only by an unsuccessful end with an exception or by the connection closing, a cancellation only
      by its own timeout; and of a settled future nothing. */
  function SettledBy<V>(o: Outcome<V>, registered: bool, received: seq<V>, step: Step<V>, id: int): Outcome<V> {
    if o != Pending then o
    else
      match step
      case End(i, success, raises) =>
        if i != id || !registered then Pending
        else if success then Result(received) else if raises then Failed else Pending
      case Resolve(i, values) => if i == id then Result(values) else Pending
      case Timeout(i) => if i == id then Cancelled else Pending
      case ConnectionClosed => if registered then Failed else Pending
      case _ => Pending
  }

  /** The outcome of a request made under `id`, after any further steps, by the steps alone: `registered` and
      `received` follow it until its end. */
  function Fate<V>(o: Outcome<V>, registered: bool, received: seq<V>, more: seq<Step<V>>, id: int): Outcome<V>
    decreases |more|
  {
    if more == [] then o
    else
      var step := more[0];
      Fate(SettledBy(o, registered, received, step, id),
           registered && !Ends(step, id),
           if registered && step.Data? && step.id == id then received + [step.value] else received,
           more[1..], id)
  }

  /** The state holds, of one request, what is known of it. */
  ghost predicate Known<V>(s: State<V>, id: int, o: Outcome<V>, registered: bool, received: seq<V>) {
    && id in s.futures && id < s.next && OutcomeOf(s, id) == o
    && (registered <==> id in s.requests)
    && (registered ==> Truthy(s.requests[id].name) && s.requests[id].payload == received)
  }

  lemma KnownStep<V>(s: State<V>, step: Step<V>, id: int, o: Outcome<V>, registered: bool, received: seq<V>)
    requires Inv(s) && Known(s, id, o, registered, received)
    ensures Known(Next(s, step).0, id, SettledBy(o, registered, received, step, id), registered && !Ends(step, id),
                  if registered && step.Data? && step.id == id then received + [step.value] else received)
  {
    SettledStep(s, step, id);
    GoneStep(s, step, id);
  }

  lemma {:induction false} FateIs<V>(steps: seq<Step<V>>, more: seq<Step<V>>, id: int,
                                     o: Outcome<V>, registered: bool, received: seq<V>)
    requires Known(Run(steps), id, o, registered, received)
    ensures OutcomeOf(Run(steps + more), id) == Fate(o, registered, received, more, id)
    decreases |more|
  {
    if more == [] {
      assert steps + more == steps;
    } else {
      var step := more[0];
      InvHolds(steps);
      RunSnoc(steps, step);
      KnownStep(Run(steps), step, id, o, registered, received);
      FateIs(steps + [step], more[1..], id, SettledBy(o, registered, received, step, id),
             registered && !Ends(step, id),
             if registered && step.Data? && step.id == id then received + [step.value] else received);
      assert steps + more == steps + [step] + more[1..];
    }
  }

  /** The outcome of a visible request is a function of the steps after it was made: its data, its own end,
      answers and timeout, and the connection closing. No other request or subscription has a part in it. */
  lemma OutcomeOfRequest<V>(steps: seq<Step<V>>, name: Name, handle: Callback, cancel: Callback, checked: bool,
                            more: seq<Step<V>>, id: int)
    requires Next(Run(steps), Request(name, handle, cancel, checked)).1 == Registered(id)
    ensures OutcomeOf(Run(steps + [Request(name, handle, cancel, checked)] + more), id) ==
            Fate(Pending, true, [], more, id)
  {
    RegisteredAsGiven(steps, name, handle, cancel, checked, id);
    InvHolds(steps);
    InvHolds(steps + [Request(name, handle, cancel, checked)]);
    FateIs(steps + [Request(name, handle, cancel, checked)], more, id, Pending, true, []);
  }

  /** When the connection closes, of all futures exactly the pending ones of registered requests change, to
      failed; nothing is removed. */
  lemma ConnectionClosedFails<V>(steps: seq<Step<V>>, id: int)
    ensures var s, t := Run(steps), Run(steps + [ConnectionClosed]);
            && OutcomeOf(t, id) ==
               (if id in s.requests && OutcomeOf(s, id) == Pending then Failed else OutcomeOf(s, id))
            && t.requests == s.requests && t.subs == s.subs && t.next == s.next && t.futures.Keys == s.futures.Keys
  {
    InvHolds(steps);
    RunSnoc(steps, ConnectionClosed);
  }
}
