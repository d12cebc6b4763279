/** `executeAtomicOperation`: admission, and removal when the operation settles or times out, under every
    interleaving, and what a reset or a resume of the kernel does to it. */
module AtomicOps {
  /** `sets` are the Set objects made so far, `current` is the kernel's `pendingOperations`, and a stored
      snapshot refers to the object that was current when it was taken. `active` has the id of every
      operation that was admitted and has neither settled nor timed out. */
  datatype Gate<!Ref> = Gate(
    sets: map<Ref, set<string>>,
    current: Ref,
    snapshots: map<string, Ref>,
    active: map<nat, string>)

  predicate WellFormed<Ref>(g: Gate<Ref>) {
    g.current in g.sets && forall h | h in g.snapshots :: g.snapshots[h] in g.sets
  }

  function Pending<Ref>(g: Gate<Ref>): set<string>
    requires WellFormed(g)
  {
    g.sets[g.current]
  }

  datatype Verdict = Admitted | AlreadyInProgress | LimitReached

  /** `limit` 0 stands for no limit. */
  function Judge(limit: nat, pending: set<string>, id: string): Verdict {
    if id in pending then AlreadyInProgress
    else if limit > 0 && |pending| >= limit then LimitReached
    else Admitted
  }

  datatype Step<Ref> =
    | Start(ticket: nat, id: string)
    | Finish(ticket: nat)
    | Reset(ref: Ref)
    | Save(hash: string)
    | Resume(hash: string)

  /** A ticket names one call for ever, and a reset makes a new Set. */
  predicate Possible<Ref>(g: Gate<Ref>, s: Step<Ref>) {
    (s.Start? ==> s.ticket !in g.active) && (s.Reset? ==> s.ref !in g.sets)
  }

  /** Starts and settlements work on the Set that is current at that moment. */
  function Next<Ref>(limit: nat, g: Gate<Ref>, s: Step<Ref>): (r: Gate<Ref>)
    requires WellFormed(g)
    ensures WellFormed(r)
  {
    match s
    case Start(t, id) =>
      if Judge(limit, Pending(g), id) == Admitted
      then g.(sets := g.sets[g.current := Pending(g) + {id}], active := g.active[t := id]) else g
    case Finish(t) =>
      if t in g.active
      then g.(sets := g.sets[g.current := Pending(g) - {g.active[t]}], active := g.active - {t}) else g
    case Reset(ref) => g.(sets := g.sets[ref := {}], current := ref)
    case Save(h) => g.(snapshots := g.snapshots[h := g.current])
    case Resume(h) => if h in g.snapshots then g.(current := g.snapshots[h]) else g
  }

  predicate UniqueIds(active: map<nat, string>) {
    forall t, u | t in active && u in active && t != u :: active[t] != active[u]
  }

  /** A set is exactly the ids of the active operations, one each. */
  predicate Holds(pending: set<string>, active: map<nat, string>) {
    && |pending| == |active|
    && pending == active.Values
    && UniqueIds(active)
  }

  predicate Exact<Ref>(g: Gate<Ref>) {
    WellFormed(g) && Holds(Pending(g), g.active)
  }

  lemma HoldsStart(pending: set<string>, active: map<nat, string>, t: nat, id: string)
    requires Holds(pending, active) && t !in active && id !in pending
    ensures Holds(pending + {id}, active[t := id])
  {
    hide UniqueIds;
    AddedSize(active, t, id);
    AddedValues(active, t, id);
    AddedUnique(active, t, id);
  }

  lemma AddedSize(active: map<nat, string>, t: nat, id: string)
    requires t !in active
    ensures |active[t := id]| == |active| + 1
  {
    assert active[t := id].Keys == active.Keys + {t};
    assert |active.Keys + {t}| == |active.Keys| + 1;
  }

  lemma AddedValues(active: map<nat, string>, t: nat, id: string)
    requires t !in active
    ensures active[t := id].Values == active.Values + {id}
  {
    forall x ensures x in active[t := id].Values <==> x in active.Values + {id} {
      AddedValue(active, t, id, x);
    }
  }

  lemma AddedValue(active: map<nat, string>, t: nat, id: string, x: string)
    requires t !in active
    ensures x in active[t := id].Values <==> x in active.Values || x == id
  {
    var after := active[t := id];
    assert after[t] == id;
    if x in active.Values {
      var u :| u in active && active[u] == x;
      assert after[u] == x;
    }
  }

  lemma AddedUnique(active: map<nat, string>, t: nat, id: string)
    requires t !in active && UniqueIds(active) && id !in active.Values
    ensures UniqueIds(active[t := id])
  {
    var after := active[t := id];
    forall u, v | u in after && v in after && u != v ensures after[u] != after[v] {
      if u != t { assert active[u] in active.Values; }
      if v != t { assert active[v] in active.Values; }
    }
  }

  lemma HoldsFinish(pending: set<string>, active: map<nat, string>, t: nat)
    requires Holds(pending, active) && t in active
    ensures Holds(pending - {active[t]}, active - {t})
  {
    var after := active - {t};
    assert after.Keys == active.Keys - {t};
    forall id | id in pending && id != active[t] ensures id in after.Values {
      var u :| u in active && active[u] == id;
      assert after[u] == id;
    }
    assert after.Values == pending - {active[t]};
  }

  // ----- Resets and resumes

  /** The Sets that are not current are empty. */
  predicate Clean<Ref>(g: Gate<Ref>) {
    forall r | r in g.sets :: r != g.current ==> g.sets[r] == {}
  }

  /** A reset, or a resume of a snapshot with another Set, that meets no active operation. */
  predicate Harmless<Ref>(g: Gate<Ref>, s: Step<Ref>) {
    match s
    case Reset(_) => g.active == map[]
    case Resume(h) => h in g.snapshots && g.snapshots[h] != g.current ==> g.active == map[]
    case _ => true
  }

  /** In an exact state whose other Sets are empty, a step keeps exactness if and only if it is harmless. */
  lemma StepIsExact<Ref>(limit: nat, g: Gate<Ref>, s: Step<Ref>)
    requires Exact(g) && Clean(g) && Possible(g, s)
    ensures Exact(Next(limit, g, s)) <==> Harmless(g, s)
    ensures Harmless(g, s) ==> Clean(Next(limit, g, s))
  {
    hide Holds;
    EmptyHolds(g.active);
    if g.active == map[] {
      NothingHeld(Pending(g), g.active);
    }
    match s
    case Start(t, id) =>
      if Judge(limit, Pending(g), id) == Admitted { HoldsStart(Pending(g), g.active, t, id); }
    case Finish(t) =>
      if t in g.active { HoldsFinish(Pending(g), g.active, t); }
    case _ =>
  }

  lemma NothingHeld(pending: set<string>, active: map<nat, string>)
    requires Holds(pending, active) && active == map[]
    ensures pending == {}
  {
  }

  lemma EmptyHolds(active: map<nat, string>)
    ensures Holds({}, active) <==> active == map[]
  {
    if |active| == 0 {
      assert active == map[];
    }
  }

  /** A reset forgets the operations that are still running: it is harmless exactly when there are none. */
  lemma ResetIsExact<Ref>(limit: nat, g: Gate<Ref>, ref: Ref)
    requires Exact(g)
    ensures Exact(Next(limit, g, Reset(ref))) <==> g.active == map[]
  {
    hide Holds;
    EmptyHolds(g.active);
  }

  /** In an exact state an operation is turned away exactly if one with its id is active or the limit of
      active operations is reached. */
  lemma AdmissionIsExact<Ref>(limit: nat, g: Gate<Ref>, id: string)
    requires Exact(g)
    ensures Judge(limit, Pending(g), id) == Admitted
       <==> (forall t | t in g.active :: g.active[t] != id) && (limit > 0 ==> |g.active| < limit)
    ensures Judge(limit, Pending(g), id) == AlreadyInProgress <==> exists t | t in g.active :: g.active[t] == id
  {
  }

  // ----- Runs

  function Created<Ref>(ref: Ref): Gate<Ref> {
    Gate(map[ref := {}], ref, map[], map[])
  }

  function Run<Ref>(limit: nat, ref: Ref, steps: seq<Step<Ref>>): (g: Gate<Ref>)
    ensures WellFormed(g)
  {
    if steps == [] then Created(ref) else Next(limit, Run(limit, ref, steps[..|steps| - 1]), steps[|steps| - 1])
  }

  ghost predicate PossibleRun<Ref>(limit: nat, ref: Ref, steps: seq<Step<Ref>>) {
    steps == []
    || (PossibleRun(limit, ref, steps[..|steps| - 1])
        && Possible(Run(limit, ref, steps[..|steps| - 1]), steps[|steps| - 1]))
  }

  /** No reset and no resume of another Set meets an active operation. */
  ghost predicate HarmlessRun<Ref>(limit: nat, ref: Ref, steps: seq<Step<Ref>>) {
    steps == []
    || (HarmlessRun(limit, ref, steps[..|steps| - 1])
        && Harmless(Run(limit, ref, steps[..|steps| - 1]), steps[|steps| - 1]))
  }

  ghost predicate ExactThroughout<Ref>(limit: nat, ref: Ref, steps: seq<Step<Ref>>) {
    Exact(Run(limit, ref, steps)) && (steps != [] ==> ExactThroughout(limit, ref, steps[..|steps| - 1]))
  }

  /** Every Set within the limit. */
  ghost predicate Bounded<Ref>(limit: nat, g: Gate<Ref>) {
    limit > 0 ==> forall r | r in g.sets :: |g.sets[r]| <= limit
  }

  lemma BoundedNext<Ref>(limit: nat, g: Gate<Ref>, s: Step<Ref>)
    requires WellFormed(g) && Bounded(limit, g)
    ensures Bounded(limit, Next(limit, g, s))
  {
    if s.Finish? && s.ticket in g.active {
      SubsetSize(Pending(g) - {g.active[s.ticket]}, Pending(g));
    }
  }

  /** Whatever resets and resumes do, the pending set never outgrows the limit. */
  lemma {:induction false} NeverOverLimit<Ref>(limit: nat, ref: Ref, steps: seq<Step<Ref>>)
    ensures Bounded(limit, Run(limit, ref, steps))
    ensures limit > 0 ==> |Pending(Run(limit, ref, steps))| <= limit
  {
    if steps != [] {
      NeverOverLimit(limit, ref, steps[..|steps| - 1]);
      BoundedNext(limit, Run(limit, ref, steps[..|steps| - 1]), steps[|steps| - 1]);
    }
  }

  lemma {:induction false} SubsetSize<T>(a: set<T>, b: set<T>)
    requires a <= b
    ensures |a| <= |b|
  {
    if a != {} {
      var x :| x in a;
      SubsetSize(a - {x}, b - {x});
    }
  }

  lemma NewIsExact<Ref>(ref: Ref)
    ensures Exact(Created(ref)) && Clean(Created(ref))
  {
  }

  /** Under every interleaving of starts, settlements, timeouts, snapshots, resets and resumes the pending
      set is exact at every point if and only if no reset and no resume of another Set meets an active
      operation. */
  lemma {:induction false} ExactIffHarmless<Ref>(limit: nat, ref: Ref, steps: seq<Step<Ref>>)
    requires PossibleRun(limit, ref, steps)
    ensures ExactThroughout(limit, ref, steps) <==> HarmlessRun(limit, ref, steps)
    ensures HarmlessRun(limit, ref, steps) ==> Exact(Run(limit, ref, steps)) && Clean(Run(limit, ref, steps))
  {
    hide Next, Exact, Clean, Harmless;
    if steps == [] {
      NewIsExact(ref);
    } else {
      var before := steps[..|steps| - 1];
      ExactIffHarmless(limit, ref, before);
      if HarmlessRun(limit, ref, before) {
        StepIsExact(limit, Run(limit, ref, before), steps[|steps| - 1]);
      }
    }
  }

  /** So on such runs no two active operations share an id, at most `limit` are active, and when none is
      left the pending set is empty. */
  lemma Interleavings<Ref>(limit: nat, ref: Ref, steps: seq<Step<Ref>>)
    requires PossibleRun(limit, ref, steps) && HarmlessRun(limit, ref, steps)
    ensures var g := Run(limit, ref, steps);
            && Exact(g) && (limit > 0 ==> |g.active| <= limit)
            && (g.active == map[] ==> Pending(g) == {})
  {
    hide Run, PossibleRun, HarmlessRun;
    NeverOverLimit(limit, ref, steps);
    ExactIffHarmless(limit, ref, steps);
  }

  // ----- What goes wrong otherwise

  lemma StartsAlone<Ref>(limit: nat, g: Gate<Ref>, t: nat, id: string)
    requires WellFormed(g) && Pending(g) == {}
    ensures Next(limit, g, Start(t, id)) == g.(sets := g.sets[g.current := {id}], active := g.active[t := id])
  {
    assert {} + {id} == {id};
  }

  /** After a reset, an operation of before it removes the id of a running one, which can then start twice. */
  lemma ResetLosesId<Ref>(limit: nat, g: Gate<Ref>, ref: Ref, t: nat, u: nat, w: nat)
    requires WellFormed(g) && ref !in g.sets && t in g.active
    requires u !in g.active && w !in g.active && u != w
    ensures var id := g.active[t];
            var running := Next(limit, Next(limit, g, Reset(ref)), Start(u, id));
            var lost := Next(limit, running, Finish(t));
            var twice := Next(limit, lost, Start(w, id));
            && Pending(running) == {id} && running.active == g.active[u := id]
            && Pending(lost) == {} && twice.active == (g.active - {t})[u := id][w := id] && Pending(twice) == {id}
  {
    var id := g.active[t];
    var reset := Next(limit, g, Reset(ref));
    StartsAlone(limit, reset, u, id);
    var running := Next(limit, reset, Start(u, id));
    var lost := Next(limit, running, Finish(t));
    assert {id} - {id} == {} && g.active[u := id] - {t} == (g.active - {t})[u := id];
    StartsAlone(limit, lost, w, id);
  }

  /** Resuming a snapshot of before a reset, harmless as the reset was, makes the kernel forget what runs: a
      second operation with the id of a running one can start. */
  lemma ResumeForgets<Ref>(limit: nat, g: Gate<Ref>, hash: string, t: nat, u: nat, id: string)
    requires Exact(g) && Clean(g) && g.active == map[] && t != u
    requires hash in g.snapshots && g.snapshots[hash] != g.current
    ensures var running := Next(limit, g, Start(t, id));
            var resumed := Next(limit, running, Resume(hash));
            && running.active == map[t := id] && Pending(resumed) == {}
            && Next(limit, resumed, Start(u, id)).active == map[t := id, u := id]
  {
    NothingHeld(Pending(g), g.active);
    StartsAlone(limit, g, t, id);
    var resumed := Next(limit, Next(limit, g, Start(t, id)), Resume(hash));
    StartsAlone(limit, resumed, u, id);
  }

  // ----- The kernel's objects

  class PendingSet {
    var ids: set<string>

    constructor ()
      ensures ids == {}
    {
      ids := {};
    }
  }

  /** The kernel's pending set and those of its snapshots, with the active operations as a ghost. */
  class OperationGate {
    const maxConcurrentOperations: nat
    var pendingOperations: PendingSet
    /** The persistor's snapshots: each has the very Set object of the state it was taken of. */
    var snapshots: map<string, PendingSet>
    ghost var active: map<nat, string>
    /** Every Set object made so far. */
    ghost var objects: set<PendingSet>

    ghost predicate Valid()
      reads this
    {
      pendingOperations in objects && forall h | h in snapshots :: snapshots[h] in objects
    }

    ghost function State(): (g: Gate<PendingSet>)
      reads this, objects
      ensures Valid() ==> WellFormed(g) && Pending(g) == pendingOperations.ids
    {
      Gate(map o | o in objects :: o.ids, pendingOperations, snapshots, active)
    }

    constructor (limit: nat)
      ensures maxConcurrentOperations == limit && Valid() && State() == Run(limit, pendingOperations, [])
      ensures fresh(objects)
    {
      var o := new PendingSet();
      maxConcurrentOperations, pendingOperations, snapshots, active, objects := limit, o, map[], map[], {o};
    }

    /** The part of `executeAtomicOperation` before the operation is awaited. */
    method Begin(id: string, ghost ticket: nat) returns (verdict: Verdict)
      requires Valid() && ticket !in active
      modifies this`active, pendingOperations
      ensures Valid() && State() == Next(maxConcurrentOperations, old(State()), Start(ticket, id))
      ensures verdict == Judge(maxConcurrentOperations, old(pendingOperations.ids), id)
      ensures verdict == Admitted <==> ticket in active
    {
      if id in pendingOperations.ids {
        return AlreadyInProgress;
      }
      if maxConcurrentOperations > 0 && |pendingOperations.ids| >= maxConcurrentOperations {
        return LimitReached;
      }
      pendingOperations.ids := pendingOperations.ids + {id};
      active := active[ticket := id];
      return Admitted;
    }

    /** Its `finally`, when the race is over: on the Set that is current by then. */
    method End(id: string, ghost ticket: nat)
      requires Valid() && ticket in active && active[ticket] == id
      modifies this`active, pendingOperations
      ensures Valid() && State() == Next(maxConcurrentOperations, old(State()), Finish(ticket))
    {
      pendingOperations.ids := pendingOperations.ids - {id};
      active := active - {ticket};
    }

    /** `reset` and `clear` of the kernel put a new set in place. */
    method ResetPending()
      requires Valid()
      modifies this`pendingOperations, this`objects
      ensures Valid() && fresh(pendingOperations)
      ensures State() == Next(maxConcurrentOperations, old(State()), Reset(pendingOperations))
    {
      pendingOperations := new PendingSet();
      objects := objects + {pendingOperations};
    }

    /** The state copy in `createSnapshot` is shallow: it shares the Set. */
    method SaveSnapshot(hash: string)
      requires Valid()
      modifies this`snapshots
      ensures Valid() && State() == Next(maxConcurrentOperations, old(State()), Save(hash))
    {
      snapshots := snapshots[hash := pendingOperations];
    }

    /** `restoreFromSnapshot` puts the snapshot's Set back. */
    method RestoreFromSnapshot(hash: string) returns (found: bool)
      requires Valid()
      modifies this`pendingOperations
      ensures Valid() && found == (hash in snapshots)
      ensures State() == Next(maxConcurrentOperations, old(State()), Resume(hash))
    {
      found := hash in snapshots;
      if found {
        pendingOperations := snapshots[hash];
      }
    }
  }
}
