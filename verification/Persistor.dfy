/** The snapshot store: delta calculation, delta application, and the in-memory persistor. */
module Persistor {
  import opened Text
  import opened Json
  import opened Records

  datatype Snapshot = Snapshot(xcId: string, ts: int, events: seq<Value>, state: Value, hash: string)

  datatype StateDelta = StateDelta(changes: Fields, deletions: seq<string>)

  datatype Delta = Delta(eventsDelta: Option<seq<Value>>, stateDelta: Option<StateDelta>)

  /** What is stored under a hash. A delta record also carries a hollow snapshot: no events and an
      empty state. */
  datatype Record =
    | Full(snap: Snapshot)
    | Compressed(snap: Snapshot, baseHash: string, delta: Delta)

  /** The properties of a value of `typeof` "object" other than null. */
  function AsObject(v: Value): Option<Fields> {
    match v
    case Obj(fields) => Some(fields)
    case Arr(items) => Some(seq(|items|, i requires 0 <= i < |items| => Entry(Digits(i), items[i])))
    case _ => None
  }

  /** `JSON.stringify(old[key]) !== JSON.stringify(new[key])` */
  predicate Changed(old_: Fields, new_: Fields, key: string) {
    JsonText(Get(old_, key)) != JsonText(Get(new_, key))
  }

  /** The record of changed keys, for the keys visited so far. */
  function Changes(old_: Fields, new_: Fields, keys: seq<string>): Fields {
    if keys == [] then []
    else
      var before, key := Changes(old_, new_, keys[..|keys| - 1]), keys[|keys| - 1];
      if Changed(old_, new_, key) then Put(before, key, Get(new_, key)) else before
  }

  /** The keys of the old record that are not in the new one. */
  function Deletions(new_: Fields, keys: seq<string>): seq<string> {
    if keys == [] then []
    else
      var before, key := Deletions(new_, keys[..|keys| - 1]), keys[|keys| - 1];
      if key in Keys(new_) then before else before + [key]
  }

  function StateDeltaOf(old_: Fields, new_: Fields): Option<StateDelta> {
    var changes, deletions := Changes(old_, new_, Keys(new_)), Deletions(new_, Keys(old_));
    if changes != [] || deletions != [] then Some(StateDelta(changes, deletions)) else None
  }

  function DeltaOf(oldData: Value, newData: Value): Delta {
    var o, n := AsObject(oldData), AsObject(newData);
    Delta(
      if oldData.Arr? && newData.Arr? && |oldData.items| < |newData.items|
      then Some(newData.items[|oldData.items|..]) else None,
      if o.Some? && n.Some? then StateDeltaOf(o.value, n.value) else None)
  }

  method CalculateDelta(oldData: Value, newData: Value) returns (result: Delta)
    ensures result == DeltaOf(oldData, newData)
  {
    hide Changed, Put;
    result := Delta(None, None);
    if oldData.Arr? && newData.Arr? {
      var eventsAdded := if |oldData.items| <= |newData.items| then newData.items[|oldData.items|..] else [];
      if |eventsAdded| > 0 {
        result := result.(eventsDelta := Some(eventsAdded));
      }
    }
    var oldObj, newObj := AsObject(oldData), AsObject(newData);
    if oldObj.Some? && newObj.Some? {
      var changes: Fields := [];
      var deletions: seq<string> := [];
      var keys := Keys(newObj.value);
      for i := 0 to |keys|
        invariant changes == Changes(oldObj.value, newObj.value, keys[..i])
      {
        assert keys[..i + 1][..i] == keys[..i];
        if Changed(oldObj.value, newObj.value, keys[i]) {
          changes := Put(changes, keys[i], Get(newObj.value, keys[i]));
        }
      }
      assert keys[..|keys|] == keys;
      var oldKeys := Keys(oldObj.value);
      for i := 0 to |oldKeys|
        invariant deletions == Deletions(newObj.value, oldKeys[..i])
      {
        assert oldKeys[..i + 1][..i] == oldKeys[..i];
        if oldKeys[i] !in Keys(newObj.value) {
          deletions := deletions + [oldKeys[i]];
        }
      }
      assert oldKeys[..|oldKeys|] == oldKeys;
      if |changes| > 0 || |deletions| > 0 {
        result := result.(stateDelta := Some(StateDelta(changes, deletions)));
      }
    }
  }

  /** An object with the four keys of an event. */
  predicate IsEvent(v: Value) {
    v.Obj? && forall k | k in ["id", "type", "data", "ts"] :: k in Keys(v.fields)
  }

  predicate IsEventArray(events: seq<Value>) {
    forall e | e in events :: IsEvent(e)
  }

  /** `{...fields, ...changes}` without the deleted keys. */
  function PatchedState(base: Value, delta: Option<StateDelta>): Value {
    var copy := AsObject(base);
    if copy.None? then base
    else if delta.None? then Obj(copy.value)
    else Obj(RemoveAll(Spread(copy.value, delta.value.changes), delta.value.deletions))
  }

  function PatchedEvents(base: seq<Value>, added: Option<seq<Value>>): seq<Value> {
    if added.Some? && IsEventArray(added.value) then base + added.value else base
  }

  function Patched(base: Snapshot, rec: Record): Snapshot
    requires rec.Compressed?
  {
    Snapshot(rec.snap.xcId, rec.snap.ts,
             PatchedEvents(base.events, rec.delta.eventsDelta),
             PatchedState(base.state, rec.delta.stateDelta),
             rec.snap.hash)
  }

  method ApplyDelta(baseSnap: Snapshot, rec: Record) returns (r: Snapshot)
    requires rec.Compressed?
    ensures r == Patched(baseSnap, rec)
  {
    hide IsEvent, Put, Spread, Remove;
    var events := baseSnap.events;
    var copy := AsObject(baseSnap.state);
    var state := if copy.Some? then Obj(copy.value) else baseSnap.state;
    if rec.delta.eventsDelta.Some? && IsEventArray(rec.delta.eventsDelta.value) {
      events := events + rec.delta.eventsDelta.value;
    }
    if rec.delta.stateDelta.Some? {
      var StateDelta(changes, deletions) := rec.delta.stateDelta.value;
      if state.Obj? {
        state := Obj(Spread(state.fields, changes));
      }
      if state.Obj? {
        var newState := state.fields;
        for i := 0 to |deletions|
          invariant RemoveAll(newState, deletions[i..]) == RemoveAll(state.fields, deletions)
        {
          assert deletions[i..][1..] == deletions[i + 1..];
          newState := Remove(newState, deletions[i]);
        }
        state := Obj(newState);
      }
    }
    r := Snapshot(rec.snap.xcId, rec.snap.ts, events, state, rec.snap.hash);
  }

  // ----- The store

  datatype Store = Store(snapshots: map<string, Record>, hashes: map<string, seq<string>>)

  const EMPTY := Store(map[], map[])

  function HashesOf(store: Store, xcId: string): seq<string> {
    if xcId in store.hashes then store.hashes[xcId] else []
  }

  function Saved(store: Store, rec: Record): Store {
    Store(store.snapshots[rec.snap.hash := rec],
          store.hashes[rec.snap.xcId := HashesOf(store, rec.snap.xcId) + [rec.snap.hash]])
  }

  /** How `calculateDelta` is called: on `{events, state}` wrappers, as the source has it, or once on
      the events and once on the states, as `applyDelta` expects. */
  datatype DeltaCall = Wrapped | Componentwise

  function Wrapper(s: Snapshot): Value {
    Obj([Entry("events", Arr(s.events)), Entry("state", s.state)])
  }

  function CallDelta(call: DeltaCall, prev: Snapshot, snap: Snapshot): Delta {
    match call
    case Wrapped => DeltaOf(Wrapper(prev), Wrapper(snap))
    case Componentwise =>
      Delta(DeltaOf(Arr(prev.events), Arr(snap.events)).eventsDelta,
            DeltaOf(prev.state, snap.state).stateDelta)
  }

  /** The record that `append` stores; `saves` is the outcome of the 20% size test. The base is the
      raw record of the last hash, which may itself be a delta record. */
  function RecordFor(store: Store, snap: Snapshot, useDelta: bool, saves: bool, call: DeltaCall): Record {
    var hashes := HashesOf(store, snap.xcId);
    if useDelta && hashes != [] && saves then
      var prevHash := hashes[|hashes| - 1];
      if prevHash != "" && prevHash in store.snapshots then
        Compressed(Snapshot(snap.xcId, snap.ts, [], Obj([]), snap.hash), prevHash,
                   CallDelta(call, store.snapshots[prevHash].snap, snap))
      else Full(snap)
    else Full(snap)
  }

  function Appended(store: Store, snap: Snapshot, useDelta: bool, saves: bool, call: DeltaCall): Store {
    Saved(store, RecordFor(store, snap, useDelta, saves, call))
  }

  /** A stored record as `load` yields it. */
  function Restored(store: Store, rec: Record): Snapshot {
    if rec.Compressed? && rec.baseHash != "" && rec.baseHash in store.snapshots
    then Patched(store.snapshots[rec.baseHash].snap, rec)
    else rec.snap
  }

  function LoadHashes(store: Store, hashes: seq<string>): seq<Snapshot> {
    if hashes == [] then []
    else
      var before, hash := LoadHashes(store, hashes[..|hashes| - 1]), hashes[|hashes| - 1];
      if hash != "" && hash in store.snapshots then before + [Restored(store, store.snapshots[hash])]
      else before
  }

  function Load(store: Store, xcId: string): seq<Snapshot> {
    LoadHashes(store, HashesOf(store, xcId))
  }

  /** `MemoryPersistor` */
  class MemoryPersistor {
    var snapshots: map<string, Record>
    var xcIdToHashes: map<string, seq<string>>

    function Contents(): Store
      reads this
    {
      Store(snapshots, xcIdToHashes)
    }

    constructor ()
      ensures Contents() == EMPTY
    {
      snapshots, xcIdToHashes := map[], map[];
    }

    method GetByHash(hash: string) returns (r: Option<Record>)
      ensures r == if hash in snapshots then Some(snapshots[hash]) else None
    {
      r := if hash in snapshots then Some(snapshots[hash]) else None;
    }

    method ListHashes(xcId: string) returns (r: seq<string>)
      ensures r == HashesOf(Contents(), xcId)
    {
      r := if xcId in xcIdToHashes then xcIdToHashes[xcId] else [];
    }

    method SaveSnapshot(rec: Record)
      modifies this
      ensures Contents() == Saved(old(Contents()), rec)
    {
      snapshots := snapshots[rec.snap.hash := rec];
      var hashes := ListHashes(rec.snap.xcId);
      hashes := hashes + [rec.snap.hash];
      xcIdToHashes := xcIdToHashes[rec.snap.xcId := hashes];
    }

    method Append(snap: Snapshot, useDelta: bool, saves: bool)
      modifies this
      ensures Contents() == Appended(old(Contents()), snap, useDelta, saves, Wrapped)
    {
      if useDelta {
        var prevSnapshots := ListHashes(snap.xcId);
        if |prevSnapshots| > 0 {
          var prevHash := prevSnapshots[|prevSnapshots| - 1];
          var prev: Option<Record> := None;
          if prevHash != "" {
            prev := GetByHash(prevHash);
          }
          if prev.Some? {
            var delta := CalculateDelta(Wrapper(prev.value.snap), Wrapper(snap));
            if saves {
              var hollow := Snapshot(snap.xcId, snap.ts, [], Obj([]), snap.hash);
              SaveSnapshot(Compressed(hollow, prevHash, delta));
              return;
            }
          }
        }
      }
      SaveSnapshot(Full(snap));
    }

    method LoadAll(xcId: string) returns (r: seq<Snapshot>)
      ensures r == Load(Contents(), xcId)
    {
      hide Patched;
      var hashes := ListHashes(xcId);
      r := [];
      for i := 0 to |hashes|
        invariant r == LoadHashes(Contents(), hashes[..i])
      {
        assert hashes[..i + 1][..i] == hashes[..i];
        var snap: Option<Record> := None;
        if hashes[i] != "" {
          snap := GetByHash(hashes[i]);
        }
        if snap.Some? {
          if snap.value.Compressed? && snap.value.baseHash != "" {
            var base := GetByHash(snap.value.baseHash);
            if base.Some? {
              var fullSnap := ApplyDelta(base.value.snap, snap.value);
              r := r + [fullSnap];
              continue;
            }
          }
          r := r + [snap.value.snap];
        }
      }
      assert hashes[..|hashes|] == hashes;
    }
  }
}
