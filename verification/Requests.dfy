/** The pending-request protocol of the unified event manager, under every interleaving of requests,
    responses, timeouts, expiry sweeps and shutdown. */
module Requests {
  import opened Json

  /** Sweeps drop what is older than five minutes. */
  const MAX_AGE: int := 5 * 60 * 1000

  /** A call of a request promise's `resolve` or `reject`. */
  datatype Settlement = Resolved(data: Value) | Failed(error: string) | TimedOut | Expired | ShutDown

  datatype Pending = Pending(ticket: nat, timestamp: int)

  datatype Listener = Listener(eventType: string, ticket: nat)

  /** The `ticket`-th request has correlation id `ids[ticket]`; `calls[ticket]` are the calls of its
      promise's functions, of which JavaScript heeds the first. */
  datatype State = State(
    ids: seq<string>,
    calls: seq<seq<Settlement>>,
    pending: map<string, Pending>,
    listeners: seq<Listener>,
    timers: set<nat>)

  const EMPTY := State([], [], map[], [], {})

  predicate WellFormed(s: State) {
    && |s.ids| == |s.calls|
    && (forall l | l in s.listeners :: l.ticket < |s.ids|)
    && (forall t | t in s.timers :: t < |s.ids|)
    && (forall id | id in s.pending :: s.pending[id].ticket < |s.ids| && s.ids[s.pending[id].ticket] == id)
  }

  function Settle(calls: seq<seq<Settlement>>, t: nat, c: Settlement): seq<seq<Settlement>>
    requires t < |calls|
  {
    calls[t := calls[t] + [c]]
  }

  // ----- Steps

  function Request(s: State, id: string, responseType: string, now: int): (r: State)
    requires WellFormed(s)
    ensures WellFormed(r)
  {
    var t := |s.ids|;
    State(s.ids + [id], s.calls + [[]], s.pending[id := Pending(t, now)], s.listeners + [Listener(responseType, t)],
          s.timers + {t})
  }

  /** `off`: the handler belongs to one request, so at most one listener goes. */
  function Off(listeners: seq<Listener>, l: Listener): (r: seq<Listener>)
    ensures forall x | x in r :: x in listeners
  {
    if listeners == [] then []
    else if listeners[0] == l then listeners[1..]
    else [listeners[0]] + Off(listeners[1..], l)
  }

  /** The first occurrence of the listener goes, and the others keep their order. */
  lemma {:induction false} OffOne(listeners: seq<Listener>, l: Listener, i: nat)
    requires i <= |listeners| && forall j | 0 <= j < i :: listeners[j] != l
    requires i < |listeners| ==> listeners[i] == l
    ensures Off(listeners, l) == if i < |listeners| then listeners[..i] + listeners[i + 1..] else listeners
  {
    if 0 < i {
      var first, rest := listeners[0], listeners[1..];
      OffOne(rest, l, i - 1);
      assert listeners == [first] + rest;
      if i < |listeners| {
        assert listeners[..i] == [first] + rest[..i - 1] && listeners[i + 1..] == rest[i..];
      }
    }
  }

  /** The response handler of listener `l`: a failure rejects the handler's own promise, a success resolves
      the pending one. */
  function Handle(s: State, l: Listener, id: string, data: Value, error: string): (r: State)
    requires WellFormed(s) && l.ticket < |s.ids|
    ensures WellFormed(r) && r.ids == s.ids
  {
    if id != s.ids[l.ticket] || id !in s.pending then s
    else
      var p := s.pending[id];
      State(s.ids,
            if error != "" then Settle(s.calls, l.ticket, Failed(error)) else Settle(s.calls, p.ticket, Resolved(data)),
            s.pending - {id}, Off(s.listeners, l), s.timers - {p.ticket})
  }

  /** `emit` calls the listeners that were registered when it started, in order. */
  function Deliver(s: State, called: seq<Listener>, eventType: string, id: string, data: Value, error: string)
    : (r: State)
    requires WellFormed(s) && forall l | l in called :: l.ticket < |s.ids|
    ensures WellFormed(r) && r.ids == s.ids
    decreases |called|
  {
    if called == [] then s
    else
      var l := called[0];
      assert l in called && forall x | x in called[1..] :: x in called;
      Deliver(if l.eventType == eventType then Handle(s, l, id, data, error) else s, called[1..], eventType, id, data,
              error)
  }

  function Timeout(s: State, t: nat): (r: State)
    requires WellFormed(s)
    ensures WellFormed(r)
  {
    if t !in s.timers then s
    else s.(timers := s.timers - {t}, pending := s.pending - {s.ids[t]}, calls := Settle(s.calls, t, TimedOut))
  }

  /** Rejecting the pending requests of `gone` and forgetting them. */
  function Dropped(s: State, gone: set<string>, c: Settlement): (r: State)
    requires WellFormed(s)
    ensures WellFormed(r)
  {
    s.(pending := s.pending - gone,
       timers := s.timers - set id | id in s.pending && id in gone :: s.pending[id].ticket,
       calls := seq(|s.calls|, t requires 0 <= t < |s.calls| =>
         if s.ids[t] in gone && s.ids[t] in s.pending && s.pending[s.ids[t]].ticket == t then s.calls[t] + [c]
         else s.calls[t]))
  }

  function OverAge(s: State, now: int): set<string> {
    set id | id in s.pending && now - s.pending[id].timestamp > MAX_AGE
  }

  datatype Step =
    | DoRequest(id: string, responseType: string, now: int)
    | DoResponse(eventType: string, id: string, data: Value, error: string)
    | DoTimeout(ticket: nat)
    | DoSweep(now: int)
    | DoCleanup

  function Next(s: State, step: Step): (r: State)
    requires WellFormed(s)
    ensures WellFormed(r)
  {
    match step
    case DoRequest(id, responseType, now) => Request(s, id, responseType, now)
    case DoResponse(eventType, id, data, error) => Deliver(s, s.listeners, eventType, id, data, error)
    case DoTimeout(t) => Timeout(s, t)
    case DoSweep(now) => Dropped(s, OverAge(s, now), Expired)
    case DoCleanup => Dropped(s, s.pending.Keys, ShutDown).(listeners := [])
  }

  function Run(steps: seq<Step>): (r: State)
    ensures WellFormed(r)
  {
    if steps == [] then EMPTY else Next(Run(steps[..|steps| - 1]), steps[|steps| - 1])
  }

  // ----- The invariant

  predicate Unsettled(s: State, t: nat) {
    t < |s.calls| && s.calls[t] == []
  }

  /** An id is pending exactly for its one unsettled request, whose timer runs; nothing settles twice; and
      the listeners of a pending id are its request's. */
  predicate Sound(s: State) {
    && WellFormed(s)
    && (forall id | id in s.pending :: Unsettled(s, s.pending[id].ticket))
    && (forall t | 0 <= t < |s.ids| && s.calls[t] == [] :: s.ids[t] in s.pending && s.pending[s.ids[t]].ticket == t)
    && (forall t | 0 <= t < |s.ids| :: t in s.timers <==> s.calls[t] == [])
    && (forall t | 0 <= t < |s.ids| :: |s.calls[t]| <= 1)
    && (forall l | l in s.listeners && s.ids[l.ticket] in s.pending :: s.pending[s.ids[l.ticket]].ticket == l.ticket)
  }

  /** The id of a new request is neither pending nor still listened for. */
  predicate Unused(s: State, id: string)
    requires WellFormed(s)
  {
    id !in s.pending && forall l | l in s.listeners :: s.ids[l.ticket] != id
  }

  /** A request keeps the protocol sound exactly if its id is unused. */
  lemma SoundRequest(s: State, id: string, responseType: string, now: int)
    requires Sound(s)
    ensures Sound(Request(s, id, responseType, now)) <==> Unused(s, id)
  {
    var r, n := Request(s, id, responseType, now), |s.ids|;
    if id in s.pending {
      var t := s.pending[id].ticket;
      assert r.calls[t] == [] && r.pending[r.ids[t]].ticket != t;
    } else if l :| l in s.listeners && s.ids[l.ticket] == id {
      assert l in r.listeners && r.pending[r.ids[l.ticket]].ticket == n;
    } else {
      SoundUnused(s, id, responseType, now);
    }
  }

  lemma SoundUnused(s: State, id: string, responseType: string, now: int)
    requires Sound(s) && Unused(s, id)
    ensures Sound(Request(s, id, responseType, now))
  {
    var r, n := Request(s, id, responseType, now), |s.ids|;
    forall t | 0 <= t < |r.ids| && r.calls[t] == []
      ensures r.ids[t] in r.pending && r.pending[r.ids[t]].ticket == t
    {
      if t < n { assert s.calls[t] == []; }
    }
    forall l | l in r.listeners && r.ids[l.ticket] in r.pending
      ensures r.pending[r.ids[l.ticket]].ticket == l.ticket
    {
      if l.ticket != n { assert l in s.listeners; }
    }
  }

  lemma SoundHandle(s: State, l: Listener, id: string, data: Value, error: string)
    requires Sound(s) && l.ticket < |s.ids|
    requires s.ids[l.ticket] in s.pending ==> s.pending[s.ids[l.ticket]].ticket == l.ticket
    ensures Sound(Handle(s, l, id, data, error))
  {
  }

  lemma SoundTimeout(s: State, t: nat)
    requires Sound(s)
    ensures Sound(Timeout(s, t))
  {
  }

  lemma SoundDropped(s: State, gone: set<string>, c: Settlement)
    requires Sound(s)
    ensures Sound(Dropped(s, gone, c))
    ensures forall id :: id in Dropped(s, gone, c).pending <==> id in s.pending && id !in gone
  {
  }

  lemma HandleShrinks(s: State, l: Listener, id: string, data: Value, error: string)
    requires WellFormed(s) && l.ticket < |s.ids|
    ensures var r := Handle(s, l, id, data, error);
            && r.ids == s.ids && (forall x | x in r.listeners :: x in s.listeners)
            && forall x | x in r.pending :: x in s.pending && r.pending[x] == s.pending[x]
  {
  }

  lemma {:induction false} SoundDeliver(s: State, called: seq<Listener>, eventType: string, id: string, data: Value,
                                        error: string)
    requires Sound(s)
    requires forall l | l in called ::
               l.ticket < |s.ids|
               && (s.ids[l.ticket] in s.pending ==> s.pending[s.ids[l.ticket]].ticket == l.ticket)
    ensures Sound(Deliver(s, called, eventType, id, data, error))
    decreases |called|
  {
    assert WellFormed(s);
    hide Sound, WellFormed, Handle;
    if called != [] {
      var l := called[0];
      assert l in called && forall x | x in called[1..] :: x in called;
      HandleShrinks(s, l, id, data, error);
      SoundHandle(s, l, id, data, error);
      var next := if l.eventType == eventType then Handle(s, l, id, data, error) else s;
      SoundDeliver(next, called[1..], eventType, id, data, error);
    }
  }

  lemma SoundNext(s: State, step: Step)
    requires Sound(s) && (step.DoRequest? ==> Unused(s, step.id))
    ensures Sound(Next(s, step))
  {
    hide Request, Deliver, Timeout, Dropped, OverAge, Unused;
    match step
    case DoRequest(id, responseType, now) => SoundRequest(s, id, responseType, now);
    case DoResponse(eventType, id, data, error) => SoundDeliver(s, s.listeners, eventType, id, data, error);
    case DoTimeout(t) => SoundTimeout(s, t);
    case DoSweep(now) => SoundDropped(s, OverAge(s, now), Expired);
    case DoCleanup =>
      SoundDropped(s, s.pending.Keys, ShutDown);
      Unlistened(Dropped(s, s.pending.Keys, ShutDown));
  }

  lemma Unlistened(s: State)
    requires Sound(s)
    ensures Sound(s.(listeners := []))
  {
  }

  /** Each request of the run uses an id that no request before it used. */
  predicate UniqueIds(steps: seq<Step>) {
    steps == []
    || (UniqueIds(steps[..|steps| - 1])
        && var last := steps[|steps| - 1];
           last.DoRequest? ==> forall s | s in steps[..|steps| - 1] && s.DoRequest? :: s.id != last.id)
  }

  lemma IdsNext(s: State, step: Step)
    requires WellFormed(s)
    ensures Next(s, step).ids == if step.DoRequest? then s.ids + [step.id] else s.ids
  {
  }

  /** The ids issued are those of the run's requests. */
  lemma {:induction false} IssuedIds(steps: seq<Step>)
    ensures forall id | id in Run(steps).ids :: exists s | s in steps :: s.DoRequest? && s.id == id
  {
    hide Next;
    if steps != [] {
      var init, last := steps[..|steps| - 1], steps[|steps| - 1];
      IssuedIds(init);
      IdsNext(Run(init), last);
      forall id | id in Run(steps).ids ensures exists s | s in steps :: s.DoRequest? && s.id == id {
        if id in Run(init).ids {
          var s :| s in init && s.DoRequest? && s.id == id;
          assert s in steps;
        } else {
          assert last in steps;
        }
      }
    }
  }

  /** With unique ids, after every interleaving: an id is pending exactly if it was issued and its request
      is unsettled, and no request settles twice. */
  lemma {:induction false} Protocol(steps: seq<Step>)
    requires UniqueIds(steps)
    ensures Sound(Run(steps))
    ensures var s := Run(steps);
            && (forall id :: id in s.pending <==> exists t :: 0 <= t < |s.ids| && s.ids[t] == id && s.calls[t] == [])
            && (forall t | 0 <= t < |s.calls| :: |s.calls[t]| <= 1)
  {
    if steps != [] {
      hide Next, Sound;
      var init, last := steps[..|steps| - 1], steps[|steps| - 1];
      Protocol(init);
      IssuedIds(init);
      if last.DoRequest? { FreshUnused(Run(init), last.id); }
      SoundNext(Run(init), last);
    }
    PendingIsUnsettled(Run(steps));
  }

  lemma FreshUnused(s: State, id: string)
    requires WellFormed(s) && id !in s.ids
    ensures Unused(s, id)
  {
  }

  lemma PendingIsUnsettled(s: State)
    requires Sound(s)
    ensures forall id :: id in s.pending <==> exists t :: 0 <= t < |s.ids| && s.ids[t] == id && s.calls[t] == []
    ensures forall t | 0 <= t < |s.calls| :: |s.calls[t]| <= 1
  {
    forall id | id in s.pending ensures exists t :: 0 <= t < |s.ids| && s.ids[t] == id && s.calls[t] == [] {
      assert s.calls[s.pending[id].ticket] == [];
    }
  }

  lemma AllSettled(s: State)
    requires Sound(s) && forall id :: id !in s.pending
    ensures s.pending == map[] && s.timers == {} && forall t | 0 <= t < |s.calls| :: |s.calls[t]| == 1
  {
  }

  /** Shutdown settles everything: afterwards every request ever issued has settled exactly once. */
  lemma CleanupSettlesAll(steps: seq<Step>)
    requires UniqueIds(steps)
    ensures var s := Next(Run(steps), DoCleanup);
            s.pending == map[] && s.timers == {} && s.listeners == []
            && forall t | 0 <= t < |s.calls| :: |s.calls[t]| == 1
  {
    hide Run;
    Protocol(steps);
    var before := Run(steps);
    hide Dropped;
    SoundNext(before, DoCleanup);
    SoundDropped(before, before.pending.Keys, ShutDown);
    AllSettled(Next(before, DoCleanup));
  }

  // ----- What settles a request

  /** A new request is pending from now on, has a timer and a listener for its response type. */
  lemma RequestWaits(s: State, id: string, responseType: string, now: int)
    requires WellFormed(s)
    ensures var r, t := Request(s, id, responseType, now), |s.ids|;
            && |r.ids| == t + 1 && r.ids[t] == id && r.calls[t] == [] && t in r.timers
            && id in r.pending && r.pending[id] == Pending(t, now) && Listener(responseType, t) in r.listeners
            && forall u | 0 <= u < t :: r.ids[u] == s.ids[u] && r.calls[u] == s.calls[u]
  {
    assert Request(s, id, responseType, now).listeners[|s.listeners|] == Listener(responseType, |s.ids|);
  }

  /** A timeout settles its own request if that is still unsettled, and no other. */
  lemma TimeoutSettles(s: State, u: nat, t: nat)
    requires Sound(s) && t < |s.ids|
    ensures Timeout(s, u).calls[t] == if t == u && s.calls[t] == [] then [TimedOut] else s.calls[t]
    ensures t == u ==> s.ids[t] !in Timeout(s, u).pending || s.calls[t] != []
  {
  }

  /** A sweep settles exactly the requests that have been pending for more than 300 000 milliseconds. */
  lemma SweepSettles(s: State, now: int, t: nat)
    requires Sound(s) && t < |s.ids|
    ensures s.calls[t] == [] ==> s.ids[t] in s.pending
    ensures Next(s, DoSweep(now)).calls[t]
         == if s.calls[t] == [] && now > s.pending[s.ids[t]].timestamp + 300_000 then [Expired] else s.calls[t]
  {
  }

  /** Shutdown settles exactly the unsettled requests. */
  lemma ShutdownSettles(s: State, t: nat)
    requires Sound(s) && t < |s.ids|
    ensures Next(s, DoCleanup).calls[t] == if s.calls[t] == [] then [ShutDown] else s.calls[t]
  {
  }

  /** Nothing is taken back: whatever the step, the calls of a request's promise so far stay, in order, and so
      does the one that JavaScript heeds. */
  lemma CallsGrow(s: State, step: Step, t: nat)
    requires WellFormed(s) && t < |s.ids|
    ensures s.ids <= Next(s, step).ids && s.calls[t] <= Next(s, step).calls[t]
  {
    hide Deliver;
    if step.DoResponse? {
      DeliverGrows(s, s.listeners, step.eventType, step.id, step.data, step.error, t);
    }
  }

  lemma {:induction false} DeliverGrows(s: State, called: seq<Listener>, eventType: string, id: string, data: Value,
                                        error: string, t: nat)
    requires WellFormed(s) && t < |s.ids| && forall l | l in called :: l.ticket < |s.ids|
    ensures s.calls[t] <= Deliver(s, called, eventType, id, data, error).calls[t]
    decreases |called|
  {
    hide WellFormed;
    if called != [] {
      var l := called[0];
      assert l in called && forall x | x in called[1..] :: x in called;
      HandleGrows(s, l, id, data, error, t);
      DeliverGrows(if l.eventType == eventType then Handle(s, l, id, data, error) else s, called[1..], eventType, id,
                   data, error, t);
    }
  }

  lemma HandleGrows(s: State, l: Listener, id: string, data: Value, error: string, t: nat)
    requires WellFormed(s) && t < |s.ids| && l.ticket < |s.ids|
    ensures var r := Handle(s, l, id, data, error);
            WellFormed(r) && s.calls[t] <= r.calls[t]
  {
  }

  // ----- Responses

  /** A response to a pending request of its type settles that request, with its payload, and no other. */
  lemma {:induction false} DeliverSettles(s: State, called: seq<Listener>, eventType: string, id: string, data: Value,
                                          error: string)
    requires Sound(s)
    requires forall l | l in called ::
               l.ticket < |s.ids|
               && (s.ids[l.ticket] in s.pending ==> s.pending[s.ids[l.ticket]].ticket == l.ticket)
    ensures var r := Deliver(s, called, eventType, id, data, error);
            if id in s.pending && Listener(eventType, s.pending[id].ticket) in called
            then r.calls == Settle(s.calls, s.pending[id].ticket, if error != "" then Failed(error) else Resolved(data))
                 && r.pending == s.pending - {id}
            else r.calls == s.calls && r.pending == s.pending
    decreases |called|
  {
    assert WellFormed(s);
    hide Sound, WellFormed, Handle, Settle;
    if called != [] {
      var l, rest := called[0], called[1..];
      assert called == [l] + rest;
      assert l in called && forall x | x in rest :: x in called;
      HandleShrinks(s, l, id, data, error);
      SoundHandle(s, l, id, data, error);
      HandleEffect(s, l, id, data, error);
      var next := if l.eventType == eventType then Handle(s, l, id, data, error) else s;
      DeliverSettles(next, rest, eventType, id, data, error);
    }
  }

  lemma HandleEffect(s: State, l: Listener, id: string, data: Value, error: string)
    requires Sound(s) && l.ticket < |s.ids|
    requires s.ids[l.ticket] in s.pending ==> s.pending[s.ids[l.ticket]].ticket == l.ticket
    ensures var r := Handle(s, l, id, data, error);
            if id in s.pending && l.ticket == s.pending[id].ticket
            then r.calls == Settle(s.calls, l.ticket, if error != "" then Failed(error) else Resolved(data))
                 && r.pending == s.pending - {id}
            else r == s
  {
  }

  /** Each caller gets the response to its own id, whatever else is pending. */
  lemma ResponseReachesCaller(steps: seq<Step>, eventType: string, id: string, data: Value, error: string)
    requires UniqueIds(steps)
    ensures var s := Run(steps); var r := Next(s, DoResponse(eventType, id, data, error));
            if id in s.pending && Listener(eventType, s.pending[id].ticket) in s.listeners
            then r.calls == Settle(s.calls, s.pending[id].ticket, if error != "" then Failed(error) else Resolved(data))
            else r.calls == s.calls
  {
    hide Run, Deliver, Settle;
    Protocol(steps);
    DeliverSettles(Run(steps), Run(steps).listeners, eventType, id, data, error);
  }

  // ----- Reusing an id

  /** A listener outlives a timeout. If the id is used again, a failing response goes to the old promise and
      the new request is forgotten: it is neither settled, nor pending, nor timed. */
  lemma ReusedIdHangs(id: string, ty: string, data: Value, error: string)
    requires error != ""
    ensures var s := Run([DoRequest(id, ty, 0), DoTimeout(0), DoRequest(id, ty, 1), DoResponse(ty, id, data, error)]);
            && s.calls == [[TimedOut, Failed(error)], []]
            && s.pending == map[] && s.timers == {}
  {
    hide Next;
    ReusedPrefix(id, ty);
    ReusedLast(id, ty, data, error);
    var all := [DoRequest(id, ty, 0), DoTimeout(0), DoRequest(id, ty, 1), DoResponse(ty, id, data, error)];
    assert all[..3] == [DoRequest(id, ty, 0), DoTimeout(0), DoRequest(id, ty, 1)];
  }

  function Reused(id: string, ty: string): State {
    State([id, id], [[TimedOut], []], map[id := Pending(1, 1)], [Listener(ty, 0), Listener(ty, 1)], {1})
  }

  lemma ReusedPrefix(id: string, ty: string)
    ensures Run([DoRequest(id, ty, 0), DoTimeout(0), DoRequest(id, ty, 1)]) == Reused(id, ty)
  {
    var all := [DoRequest(id, ty, 0), DoTimeout(0), DoRequest(id, ty, 1)];
    assert all[..2][..1] == all[..1] && all[..1][..0] == [];
    var s1, s2 := TimedRequest(id, ty);
    hide Next;
    assert Run(all[..1]) == s1;
    assert Run(all[..2]) == s2;
  }

  lemma TimedRequest(id: string, ty: string) returns (s1: State, s2: State)
    ensures Next(EMPTY, DoRequest(id, ty, 0)) == s1 && WellFormed(s1)
    ensures Next(s1, DoTimeout(0)) == s2 && WellFormed(s2)
    ensures Next(s2, DoRequest(id, ty, 1)) == Reused(id, ty)
  {
    s1 := State([id], [[]], map[id := Pending(0, 0)], [Listener(ty, 0)], {0});
    s2 := State([id], [[TimedOut]], map[], [Listener(ty, 0)], {});
    assert s1.pending - {id} == map[] && s1.timers - {0} == {} && s1.calls[0] + [TimedOut] == [TimedOut];
    assert Settle(s1.calls, 0, TimedOut) == [[TimedOut]];
  }

  lemma ReusedLast(id: string, ty: string, data: Value, error: string)
    requires error != ""
    ensures Next(Reused(id, ty), DoResponse(ty, id, data, error))
         == State([id, id], [[TimedOut, Failed(error)], []], map[], [Listener(ty, 1)], {})
  {
    var s, a, b := Reused(id, ty), Listener(ty, 0), Listener(ty, 1);
    var r := State([id, id], [[TimedOut, Failed(error)], []], map[], [b], {});
    assert Handle(s, a, id, data, error) == r by {
      assert s.pending - {id} == map[] && s.timers - {1} == {} && s.listeners[1..] == [b];
      assert s.calls[0] + [Failed(error)] == [TimedOut, Failed(error)];
      assert Settle(s.calls, 0, Failed(error)) == r.calls;
    }
    FirstHandler(s, r, a, b, ty, id, data, error);
  }

  lemma FirstHandler(s: State, r: State, a: Listener, b: Listener, ty: string, id: string, data: Value, error: string)
    requires WellFormed(s) && s.listeners == [a, b] && a.eventType == b.eventType == ty
    requires Handle(s, a, id, data, error) == r && r.pending == map[]
    ensures Next(s, DoResponse(ty, id, data, error)) == r
  {
    hide Handle;
    assert [a, b][1..] == [b] && [b][1..] == [];
    assert a in s.listeners && b in s.listeners;
    NothingPending(r, b, id, data, error);
    assert Deliver(r, [b], ty, id, data, error) == Deliver(r, [], ty, id, data, error);
  }

  lemma NothingPending(s: State, l: Listener, id: string, data: Value, error: string)
    requires WellFormed(s) && l.ticket < |s.ids| && s.pending == map[]
    ensures Handle(s, l, id, data, error) == s
  {
  }

  // ----- The manager

  class RequestManager {
    var pendingRequests: map<string, Pending>
    var listeners: seq<Listener>
    /** Requests whose timer has not fired and was not cleared. */
    var timers: set<nat>
    ghost var ids: seq<string>
    ghost var calls: seq<seq<Settlement>>

    ghost function Now(): State
      reads this
    {
      State(ids, calls, pendingRequests, listeners, timers)
    }

    constructor ()
      ensures Now() == EMPTY
    {
      pendingRequests, listeners, timers, ids, calls := map[], [], {}, [], [];
    }

    /** `ticket` names the new promise and its timer. */
    method Request(id: string, responseType: string, ticket: nat, now: int)
      requires WellFormed(Now()) && ticket == |ids|
      modifies this
      ensures Now() == Next(old(Now()), DoRequest(id, responseType, now))
    {
      ids, calls := ids + [id], calls + [[]];
      timers := timers + {ticket};
      pendingRequests := pendingRequests[id := Pending(ticket, now)];
      listeners := listeners + [Listener(responseType, ticket)];
    }

    method RespondTo(l: Listener, ownId: string, id: string, data: Value, error: string)
      requires WellFormed(Now()) && l.ticket < |ids| && ownId == ids[l.ticket]
      modifies this
      ensures Now() == Handle(old(Now()), l, id, data, error)
    {
      if id == ownId {
        if id in pendingRequests {
          var p := pendingRequests[id];
          timers := timers - {p.ticket};
          pendingRequests := pendingRequests - {id};
          listeners := Off(listeners, l);
          calls := if error != "" then Settle(calls, l.ticket, Failed(error))
                   else Settle(calls, p.ticket, Resolved(data));
        }
      }
    }

    method OnTimeout(ticket: nat, id: string)
      requires WellFormed(Now()) && ticket in timers && id == ids[ticket]
      modifies this
      ensures Now() == Next(old(Now()), DoTimeout(ticket))
    {
      timers := timers - {ticket};
      pendingRequests := pendingRequests - {id};
      calls := Settle(calls, ticket, TimedOut);
    }

    /** Rejects one pending request and forgets it. */
    method Drop(id: string, ghost c: Settlement)
      requires WellFormed(Now()) && id in pendingRequests
      modifies this
      ensures Now() == Dropped(old(Now()), {id}, c)
    {
      var p := pendingRequests[id];
      timers := timers - {p.ticket};
      calls := Settle(calls, p.ticket, c);
      pendingRequests := pendingRequests - {id};
      assert (set x | x in old(pendingRequests) && x in {id} :: old(pendingRequests)[x].ticket) == {p.ticket};
      assert calls == Dropped(old(Now()), {id}, c).calls;
    }

    method CleanupExpiredRequests(now: int)
      requires WellFormed(Now())
      modifies this
      ensures Now() == Next(old(Now()), DoSweep(now))
    {
      var gone := set id | id in pendingRequests && now - pendingRequests[id].timestamp > MAX_AGE;
      DropAll(gone, Expired);
    }

    method DropAll(gone: set<string>, ghost c: Settlement)
      requires WellFormed(Now()) && gone <= pendingRequests.Keys
      modifies this
      ensures Now() == Dropped(old(Now()), gone, c)
    {
      ghost var s := Now();
      var rest := gone;
      DropNone(s, c);
      assert gone - rest == {};
      while rest != {}
        invariant rest <= gone
        invariant Now() == Dropped(s, gone - rest, c)
        decreases |rest|
      {
        var id :| id in rest;
        DropOneMore(s, gone - rest, id, c);
        assert gone - (rest - {id}) == gone - rest + {id};
        Drop(id, c);
        rest := rest - {id};
      }
      assert gone - rest == gone;
    }

    method Cleanup()
      requires WellFormed(Now())
      modifies this
      ensures Now() == Next(old(Now()), DoCleanup)
    {
      DropAll(pendingRequests.Keys, ShutDown);
      listeners := [];
    }
  }

  lemma DropNone(s: State, c: Settlement)
    requires WellFormed(s)
    ensures Dropped(s, {}, c) == s
  {
  }

  lemma DropOneMore(s: State, gone: set<string>, id: string, c: Settlement)
    requires WellFormed(s) && id in s.pending && id !in gone
    ensures id in Dropped(s, gone, c).pending
    ensures Dropped(Dropped(s, gone, c), {id}, c) == Dropped(s, gone + {id}, c)
  {
    var a, b := Dropped(Dropped(s, gone, c), {id}, c), Dropped(s, gone + {id}, c);
    assert a.calls == b.calls;
    assert a.pending == b.pending;
    assert a.timers == b.timers;
  }
}
