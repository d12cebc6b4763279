/** What comes back out of the snapshot store, for the delta call as written and for the
    component-wise call that `applyDelta` expects. */
module DeltaFidelity {
  import opened Text
  import opened Json
  import opened JsonInjective
  import opened Records
  import opened Persistor

  /** The same record: the same value under every key. */
  ghost predicate SameRecord(a: Fields, b: Fields) {
    forall k :: Lookup(a, k) == Lookup(b, k)
  }

  ghost predicate SameState(a: Value, b: Value) {
    if a.Obj? && b.Obj? then SameRecord(a.fields, b.fields) else a == b
  }

  ghost predicate SameSnapshot(a: Snapshot, b: Snapshot) {
    a.xcId == b.xcId && a.ts == b.ts && a.events == b.events && a.hash == b.hash
    && SameState(a.state, b.state)
  }

  /** A state that is a record of JSON values. */
  predicate RecordState(v: Value) {
    v.Obj? && IsJson(v)
  }

  // ----- Records and deltas, as their readers see them

  /** An event is an object with an id, a type, data and a time. */
  lemma EventShape(v: Value)
    ensures IsEvent(v) <==> v.Obj? && "id" in Keys(v.fields) && "type" in Keys(v.fields)
                            && "data" in Keys(v.fields) && "ts" in Keys(v.fields)
  {
  }

  /** A delta is stored only where one is asked for and worth it, and the last hash listed has a record: then
      it is against that record and has no events and no state of its own. */
  lemma RecordKind(store: Store, snap: Snapshot, useDelta: bool, saves: bool, how: DeltaCall)
    ensures var rec, hashes := RecordFor(store, snap, useDelta, saves, how), HashesOf(store, snap.xcId);
            && (rec.Compressed?
                <==> useDelta && saves && hashes != [] && hashes[|hashes| - 1] != ""
                     && hashes[|hashes| - 1] in store.snapshots)
            && (if rec.Full? then rec.snap == snap
                else rec.baseHash == hashes[|hashes| - 1] && rec.snap.events == [] && rec.snap.state == Obj([])
                     && rec.snap.xcId == snap.xcId && rec.snap.ts == snap.ts && rec.snap.hash == snap.hash)
  {
    hide CallDelta;
  }

  /** An events delta is what is new behind the old events, and is there only if something is. */
  lemma EventsDelta(base: Snapshot, snap: Snapshot)
    ensures var added := CallDelta(Componentwise, base, snap).eventsDelta;
            && (added.Some? <==> |base.events| < |snap.events|)
            && (added.Some? ==> |added.value| + |base.events| == |snap.events|
                                && forall i | 0 <= i < |added.value| ::
                                     added.value[i] == snap.events[|base.events| + i])
    ensures CallDelta(Wrapped, base, snap).eventsDelta == None
  {
    hide StateDeltaOf;
  }

  // ----- Deltas of records

  lemma {:induction false} ChangesLookup(o: Fields, n: Fields, keys: seq<string>, k: string)
    ensures Lookup(Changes(o, n, keys), k) == if k in keys && Changed(o, n, k) then Some(Get(n, k)) else None
    ensures Distinct(Keys(Changes(o, n, keys)))
  {
    hide Changed;
    if keys != [] {
      var init, key := keys[..|keys| - 1], keys[|keys| - 1];
      ChangesLookup(o, n, init, k);
      assert keys == init + [key];
      PutDistinct(Changes(o, n, init), key, Get(n, key));
    }
  }

  lemma {:induction false} DeletionsMembers(n: Fields, keys: seq<string>, k: string)
    ensures k in Deletions(n, keys) <==> k in keys && k !in Keys(n)
  {
    if keys != [] {
      var init, key := keys[..|keys| - 1], keys[|keys| - 1];
      DeletionsMembers(n, init, k);
      assert keys == init + [key];
    }
  }

  /** The deletions keep the order of the old record's keys. */
  lemma {:induction false} DeletionsAppend(n: Fields, a: seq<string>, b: seq<string>)
    ensures Deletions(n, a + b) == Deletions(n, a) + Deletions(n, b)
  {
    if b == [] {
      assert a + b == a;
    } else {
      assert (a + b)[..|a + b| - 1] == a + b[..|b| - 1];
      DeletionsAppend(n, a, b[..|b| - 1]);
    }
  }

  /** A state delta is stored exactly if a key's text changed or a key went. */
  lemma StateDeltaIff(o: Fields, n: Fields)
    ensures StateDeltaOf(o, n).Some?
            <==> (exists k | k in Keys(n) :: Changed(o, n, k)) || (exists k | k in Keys(o) :: k !in Keys(n))
  {
    hide Changed;
    var changes, deletions := Changes(o, n, Keys(n)), Deletions(n, Keys(o));
    if k :| k in Keys(n) && Changed(o, n, k) {
      ChangesLookup(o, n, Keys(n), k);
      assert changes != [];
    }
    if k :| k in Keys(o) && k !in Keys(n) {
      DeletionsMembers(n, Keys(o), k);
      assert deletions != [];
    }
    if changes != [] {
      ChangesLookup(o, n, Keys(n), changes[0].key);
      assert Lookup(changes, changes[0].key).Some?;
    }
    if deletions != [] {
      DeletionsMembers(n, Keys(o), deletions[0]);
      assert deletions[0] in deletions;
    }
  }

  /** An array restored through a delta comes back as an object, its items under their indices. */
  lemma ArrayBecomesObject(items: seq<Value>, i: nat)
    ensures var r := PatchedState(Arr(items), None);
            r.Obj? && Lookup(r.fields, Digits(i)) == if i < |items| then Some(items[i]) else None
  {
    var fields := AsObject(Arr(items)).value;
    assert forall j | 0 <= j < |items| :: fields[j] == Entry(Digits(j), items[j]);
    ItemLookup(fields, items, 0, i);
  }

  /** Looking an index up in the fields made of the items from `first` on. */
  lemma {:induction false} ItemLookup(fields: Fields, items: seq<Value>, first: nat, i: nat)
    requires first + |fields| == |items|
    requires forall j | 0 <= j < |fields| :: fields[j] == Entry(Digits(first + j), items[first + j])
    ensures Lookup(fields, Digits(i)) == if first <= i < |items| then Some(items[i]) else None
  {
    hide Digits;
    if fields != [] {
      ParseDigits(first);
      ParseDigits(i);
      ItemLookup(fields[1..], items, first + 1, i);
    }
  }

  /** For JSON records, a key whose text did not change has the same value. */
  lemma UnchangedSame(o: Fields, n: Fields, k: string)
    requires RecordState(Obj(o)) && RecordState(Obj(n)) && Lookup(n, k).Some?
    ensures Changed(o, n, k) <==> Lookup(o, k) != Lookup(n, k)
  {
    LookupJson(o, k);
    LookupJson(n, k);
    WireJson(Get(n, k));
    if Lookup(o, k).Some? {
      JsonTextInjective(Get(o, k), Get(n, k));
    }
  }

  /** Patching the old record with the delta gives the new record. */
  lemma PatchLookup(o: Fields, n: Fields, k: string)
    requires RecordState(Obj(o)) && RecordState(Obj(n))
    ensures PatchedState(Obj(o), StateDeltaOf(o, n)).Obj?
    ensures Lookup(PatchedState(Obj(o), StateDeltaOf(o, n)).fields, k) == Lookup(n, k)
  {
    hide Changed, IsJson;
    var changes, deletions := Changes(o, n, Keys(n)), Deletions(n, Keys(o));
    ChangesLookup(o, n, Keys(n), k);
    DeletionsMembers(n, Keys(o), k);
    LookupKeys(o, k);
    LookupKeys(n, k);
    if Lookup(n, k).Some? {
      UnchangedSame(o, n, k);
    }
    if StateDeltaOf(o, n).Some? {
      SpreadLookup(o, changes, k);
      assert PatchedState(Obj(o), StateDeltaOf(o, n)).fields == RemoveAll(Spread(o, changes), deletions);
    } else {
      assert changes == [] && deletions == [];
    }
  }

  lemma PatchSame(o: Fields, n: Fields)
    requires RecordState(Obj(o)) && RecordState(Obj(n))
    ensures SameState(PatchedState(Obj(o), StateDeltaOf(o, n)), Obj(n))
  {
    hide PatchedState, StateDeltaOf, IsJson;
    var patched := PatchedState(Obj(o), StateDeltaOf(o, n));
    PatchLookup(o, n, "");
    forall k ensures Lookup(patched.fields, k) == Lookup(n, k) {
      PatchLookup(o, n, k);
    }
    assert SameRecord(patched.fields, n);
  }

  // ----- Component-wise deltas

  /** What the component-wise call needs of a base and a new snapshot. */
  predicate Extends(base: Snapshot, snap: Snapshot) {
    && RecordState(base.state) && RecordState(snap.state)
    && base.events <= snap.events && IsEventArray(snap.events)
  }

  lemma ComponentwisePatch(base: Snapshot, snap: Snapshot, rec: Record)
    requires Extends(base, snap) && rec.Compressed?
    requires rec.snap.xcId == snap.xcId && rec.snap.ts == snap.ts && rec.snap.hash == snap.hash
    requires rec.delta == CallDelta(Componentwise, base, snap)
    ensures SameSnapshot(Patched(base, rec), snap)
  {
    hide IsEvent, IsJson, PatchedState, StateDeltaOf, SameState;
    PatchSame(base.state.fields, snap.state.fields);
    var k := |base.events|;
    assert snap.events == base.events + snap.events[k..];
    assert IsEventArray(snap.events[k..]);
    if k == |snap.events| {
      assert base.events == snap.events;
    }
  }

  // ----- The call as written

  /** As written, a restored delta equals what was appended exactly when nothing had changed. */
  lemma WrappedPatch(base: Snapshot, snap: Snapshot, rec: Record)
    requires RecordState(base.state) && RecordState(snap.state)
    requires IsJson(Arr(base.events)) && IsJson(Arr(snap.events))
    requires rec.Compressed?
    requires rec.snap.xcId == snap.xcId && rec.snap.ts == snap.ts && rec.snap.hash == snap.hash
    requires rec.delta == CallDelta(Wrapped, base, snap)
    ensures SameSnapshot(Patched(base, rec), snap) <==> base.events == snap.events && base.state == snap.state
  {
    hide IsJson;
    var o, n := Wrapper(base).fields, Wrapper(snap).fields;
    WrapperLookup(base);
    WrapperLookup(snap);
    JsonTextInjective(Arr(base.events), Arr(snap.events));
    JsonTextInjective(base.state, snap.state);
    assert Patched(base, rec).events == base.events;
    WrappedState(base, snap);
  }

  lemma WrapperLookup(s: Snapshot)
    ensures Get(Wrapper(s).fields, "events") == Arr(s.events)
    ensures Get(Wrapper(s).fields, "state") == s.state
    ensures Keys(Wrapper(s).fields) == ["events", "state"]
  {
    assert Wrapper(s).fields[1..] == [Entry("state", s.state)];
    assert "events"[0] != "state"[0];
    assert Lookup([Entry("state", s.state)], "state") == Some(s.state);
    assert Keys([Entry("state", s.state)]) == ["state"] + Keys([Entry("state", s.state)][1..]);
  }

  /** The delta as written is one change under the key "state", and perhaps one under "events". */
  lemma WrappedState(base: Snapshot, snap: Snapshot)
    requires RecordState(base.state) && RecordState(snap.state)
    requires JsonText(base.state) == JsonText(snap.state) <==> base.state == snap.state
    requires JsonText(Arr(base.events)) == JsonText(Arr(snap.events)) <==> base.events == snap.events
    ensures base.events == snap.events ==>
              (SameState(PatchedState(base.state, CallDelta(Wrapped, base, snap).stateDelta), snap.state)
               <==> base.state == snap.state)
  {
    hide IsJson, Changed;
    var o, n := Wrapper(base).fields, Wrapper(snap).fields;
    WrapperLookup(base);
    WrapperLookup(snap);
    var keys := ["events", "state"];
    assert Deletions(n, keys) == [] by {
      assert Deletions(n, keys) != [] ==> Deletions(n, keys)[0] in Deletions(n, keys);
      forall k ensures k !in Deletions(n, keys) {
        DeletionsMembers(n, keys, k);
      }
    }
    var changes := Changes(o, n, keys);
    assert changes != [] ==> Lookup(changes, changes[0].key).Some?;
    assert CallDelta(Wrapped, base, snap).stateDelta == StateDeltaOf(o, n);
    if base.events == snap.events {
      forall k
        ensures Lookup(changes, k) == if k == "state" && base.state != snap.state then Some(snap.state) else None
      {
        ChangesLookup(o, n, keys, k);
        ChangedPart(base, snap, k);
      }
      if base.state == snap.state {
        assert changes == [];
      } else {
        ChangesLookup(o, n, keys, "state");
        NestedState(base.state.fields, snap.state, changes);
      }
    }
  }

  lemma ChangedPart(base: Snapshot, snap: Snapshot, k: string)
    ensures k == "events" ==> (Changed(Wrapper(base).fields, Wrapper(snap).fields, k)
                               <==> JsonText(Arr(base.events)) != JsonText(Arr(snap.events)))
    ensures k == "state" ==> (Changed(Wrapper(base).fields, Wrapper(snap).fields, k)
                              <==> JsonText(base.state) != JsonText(snap.state))
  {
    WrapperLookup(base);
    WrapperLookup(snap);
  }

  /** No record is its own field. */
  lemma NestedState(o: Fields, state: Value, changes: Fields)
    requires state.Obj? && Distinct(Keys(changes)) && Lookup(changes, "state") == Some(state)
    ensures !SameRecord(RemoveAll(Spread(o, changes), []), state.fields)
  {
    SpreadLookup(o, changes, "state");
    var r := RemoveAll(Spread(o, changes), []);
    assert Lookup(r, "state") == Some(state);
    if Lookup(state.fields, "state").Some? {
      LookupSmaller(state, state.fields, "state");
    }
  }

  /** What a restored delta is in general, as written: the base's events, and the base's state with the new
      events and the new state written under "events" and "state" where they have changed. */
  lemma WrappedRestores(base: Snapshot, snap: Snapshot, rec: Record, k: string)
    requires RecordState(base.state) && RecordState(snap.state)
    requires IsJson(Arr(base.events)) && IsJson(Arr(snap.events))
    requires rec.Compressed? && rec.delta == CallDelta(Wrapped, base, snap)
    ensures var r := Patched(base, rec);
            && r.events == base.events && r.state.Obj?
            && Lookup(r.state.fields, k)
               == if k == "events" && base.events != snap.events then Some(Arr(snap.events))
                  else if k == "state" && base.state != snap.state then Some(snap.state)
                  else Lookup(base.state.fields, k)
  {
    WrapperRecord(base);
    WrapperRecord(snap);
    hide IsJson;
    var o, n := Wrapper(base).fields, Wrapper(snap).fields;
    var delta := StateDeltaOf(o, n);
    assert rec.delta.stateDelta == delta;
    WrapperLookup(base);
    WrapperLookup(snap);
    WrapperFields(base, k);
    WrapperFields(snap, k);
    WrapperChange(o, n, k);
    hide StateDeltaOf, PatchedState, Wrapper;
    PatchedLookup(base.state.fields, delta, k);
  }

  /** The fields that the delta of two records with the same keys writes. */
  lemma WrapperChange(o: Fields, n: Fields, k: string)
    requires RecordState(Obj(o)) && RecordState(Obj(n)) && Keys(o) == Keys(n)
    ensures OneChangePerKey(StateDeltaOf(o, n))
    ensures var delta := StateDeltaOf(o, n);
            && (Touched(delta, k) <==> Lookup(n, k).Some? && Lookup(o, k) != Lookup(n, k))
            && (Touched(delta, k) ==> k !in delta.value.deletions && Lookup(delta.value.changes, k) == Lookup(n, k))
  {
    hide Changed, IsJson;
    var keys := Keys(n);
    ChangesLookup(o, n, keys, k);
    DeletionsMembers(n, keys, k);
    LookupKeys(n, k);
    if Lookup(n, k).Some? {
      UnchangedSame(o, n, k);
    }
  }

  // ----- Whole runs of the store

  /** One call of `append`. */
  datatype Call = Call(snap: Snapshot, useDelta: bool, saves: bool)

  function Run(calls: seq<Call>, how: DeltaCall): Store {
    if calls == [] then EMPTY
    else
      var c := calls[|calls| - 1];
      Appended(Run(calls[..|calls| - 1], how), c.snap, c.useDelta, c.saves, how)
  }

  /** The snapshots appended for one execution context, in order. */
  function Log(calls: seq<Call>, xcId: string): seq<Snapshot> {
    if calls == [] then []
    else
      var before, snap := Log(calls[..|calls| - 1], xcId), calls[|calls| - 1].snap;
      if snap.xcId == xcId then before + [snap] else before
  }

  /** The raw record that a delta would be taken against, if any. */
  function RawBase(store: Store, xcId: string): Option<Snapshot> {
    var hashes := HashesOf(store, xcId);
    if hashes != [] && hashes[|hashes| - 1] in store.snapshots
    then Some(store.snapshots[hashes[|hashes| - 1]].snap) else None
  }

  /** Every hash is new and not empty; every appended snapshot is a JSON record whose events extend
      those of the raw record before it. */
  predicate ProperRun(calls: seq<Call>) {
    if calls == [] then true
    else
      var before, snap := calls[..|calls| - 1], calls[|calls| - 1].snap;
      var store := Run(before, Componentwise);
      && ProperRun(before)
      && snap.hash != "" && snap.hash !in store.snapshots
      && RecordState(snap.state) && IsEventArray(snap.events)
      && (RawBase(store, snap.xcId).Some? ==> RawBase(store, snap.xcId).value.events <= snap.events)
  }

  ghost predicate SameSnapshots(a: seq<Snapshot>, b: seq<Snapshot>) {
    |a| == |b| && forall i | 0 <= i < |a| :: SameSnapshot(a[i], b[i])
  }

  /** What every run keeps: listed hashes are stored, bases are stored under other hashes, and stored
      states are JSON records. */
  ghost predicate Sound(store: Store) {
    && (forall xc, h :: xc in store.hashes && h in store.hashes[xc] ==> h in store.snapshots)
    && (forall h | h in store.snapshots :: SoundRecord(store, h))
  }

  predicate SoundRecord(store: Store, h: string)
    requires h in store.snapshots
  {
    var rec := store.snapshots[h];
    h != "" && RecordState(rec.snap.state) && (rec.Compressed? ==> rec.baseHash in store.snapshots)
  }

  /** A record under a new hash does not change what older hashes restore to. */
  lemma {:induction false} LoadOld(store: Store, rec: Record, hashes: seq<string>)
    requires Sound(store) && rec.snap.hash !in store.snapshots
    requires forall h :: h in hashes ==> h in store.snapshots
    ensures LoadHashes(Saved(store, rec), hashes) == LoadHashes(store, hashes)
  {
    hide Patched, RecordState;
    if hashes != [] {
      var init, h := hashes[..|hashes| - 1], hashes[|hashes| - 1];
      assert h in hashes && forall g :: g in init ==> g in hashes;
      LoadOld(store, rec, init);
      assert SoundRecord(store, h);
    }
  }

  lemma LoadSaved(store: Store, rec: Record, xcId: string)
    requires Sound(store) && rec.snap.hash !in store.snapshots && rec.snap.hash != ""
    ensures Load(Saved(store, rec), xcId)
         == Load(store, xcId) + (if rec.snap.xcId == xcId then [Restored(Saved(store, rec), rec)] else [])
  {
    var hashes := HashesOf(store, xcId);
    LoadOld(store, rec, hashes);
    hide Sound, Restored, LoadHashes;
    if rec.snap.xcId == xcId {
      assert HashesOf(Saved(store, rec), xcId) == hashes + [rec.snap.hash];
      LoadSnoc(Saved(store, rec), hashes, rec.snap.hash);
    }
  }

  lemma LoadSnoc(store: Store, hashes: seq<string>, hash: string)
    requires hash != "" && hash in store.snapshots
    ensures LoadHashes(store, hashes + [hash])
         == LoadHashes(store, hashes) + [Restored(store, store.snapshots[hash])]
  {
    hide Restored;
    assert (hashes + [hash])[..|hashes|] == hashes;
  }

  lemma SoundSaved(store: Store, snap: Snapshot, useDelta: bool, saves: bool, how: DeltaCall)
    requires Sound(store) && snap.hash != "" && snap.hash !in store.snapshots && RecordState(snap.state)
    ensures Sound(Appended(store, snap, useDelta, saves, how))
  {
    hide CallDelta, IsJson;
    var rec := RecordFor(store, snap, useDelta, saves, how);
    var after := Saved(store, rec);
    assert RecordState(rec.snap.state) by {
      EmptyRecord();
    }
    forall h | h in after.snapshots ensures SoundRecord(after, h) {
      if h != snap.hash {
        assert SoundRecord(store, h);
      }
    }
  }

  lemma EmptyRecord()
    ensures RecordState(Obj([]))
  {
  }

  lemma {:induction false} RunSound(calls: seq<Call>)
    requires ProperRun(calls)
    ensures Sound(Run(calls, Componentwise))
  {
    hide Appended, RecordState, IsEventArray, Sound;
    if calls != [] {
      var c := calls[|calls| - 1];
      RunSound(calls[..|calls| - 1]);
      SoundSaved(Run(calls[..|calls| - 1], Componentwise), c.snap, c.useDelta, c.saves, Componentwise);
    } else {
      EmptySound();
    }
  }

  lemma EmptySound()
    ensures Sound(EMPTY)
  {
  }

  lemma RestoresAppended(store: Store, c: Call)
    requires Sound(store) && c.snap.hash != "" && c.snap.hash !in store.snapshots
    requires RecordState(c.snap.state) && IsEventArray(c.snap.events)
    requires RawBase(store, c.snap.xcId).Some? ==> RawBase(store, c.snap.xcId).value.events <= c.snap.events
    ensures var rec := RecordFor(store, c.snap, c.useDelta, c.saves, Componentwise);
            SameSnapshot(Restored(Saved(store, rec), rec), c.snap)
  {
    hide IsJson, IsEventArray, Patched, CallDelta;
    var rec := RecordFor(store, c.snap, c.useDelta, c.saves, Componentwise);
    if rec.Compressed? {
      var base := store.snapshots[rec.baseHash].snap;
      assert SoundRecord(store, rec.baseHash);
      ComponentwisePatch(base, c.snap, rec);
      assert Saved(store, rec).snapshots[rec.baseHash].snap == base;
    }
  }

  /** Any sequence of appends, with any mix of flags and any outcome of the size test, loads back as
      exactly the appended snapshots, in order, for every execution context. One level of patching
      is enough even when the base is itself a delta record. */
  lemma {:induction false} LoadIsLog(calls: seq<Call>, xcId: string)
    requires ProperRun(calls)
    ensures SameSnapshots(Load(Run(calls, Componentwise), xcId), Log(calls, xcId))
  {
    hide Load, Run, SameSnapshot, RecordState, IsEventArray;
    if calls == [] {
      assert Load(Run(calls, Componentwise), xcId) == [] by { NothingLoads(xcId); }
    } else {
      var before, snap := calls[..|calls| - 1], calls[|calls| - 1].snap;
      var loaded := LoadGrows(calls, xcId);
      LoadIsLog(before, xcId);
      hide ProperRun, SameSnapshots;
      LogGrows(calls, xcId);
      SameAppended(Load(Run(before, Componentwise), xcId), Log(before, xcId), loaded, snap);
    }
  }

  lemma NothingLoads(xcId: string)
    ensures Load(Run([], Componentwise), xcId) == []
  {
  }

  lemma LogGrows(calls: seq<Call>, xcId: string)
    requires calls != []
    ensures var before, snap := calls[..|calls| - 1], calls[|calls| - 1].snap;
            Log(calls, xcId) == Log(before, xcId) + if snap.xcId == xcId then [snap] else []
  {
  }

  lemma SameAppended(a: seq<Snapshot>, b: seq<Snapshot>, s: Snapshot, t: Snapshot)
    requires SameSnapshots(a, b) && SameSnapshot(s, t)
    ensures SameSnapshots(a + [s], b + [t]) && SameSnapshots(a + [], b + [])
  {
    hide SameSnapshot;
  }

  /** One more call adds what its snapshot restores to, where it was appended. */
  lemma LoadGrows(calls: seq<Call>, xcId: string) returns (loaded: Snapshot)
    requires calls != [] && ProperRun(calls)
    ensures var before, snap := calls[..|calls| - 1], calls[|calls| - 1].snap;
            && SameSnapshot(loaded, snap)
            && Load(Run(calls, Componentwise), xcId)
            == Load(Run(before, Componentwise), xcId) + if snap.xcId == xcId then [loaded] else []
  {
    hide RecordFor, RecordState, IsEventArray, Restored, Sound, SameSnapshot, Load, Saved;
    var before, c := calls[..|calls| - 1], calls[|calls| - 1];
    var store := Run(before, Componentwise);
    RunSound(before);
    RestoresAppended(store, c);
    var rec := RecordFor(store, c.snap, c.useDelta, c.saves, Componentwise);
    RecordNames(store, c);
    LoadSaved(store, rec, xcId);
    loaded := Restored(Saved(store, rec), rec);
  }

  lemma RecordNames(store: Store, c: Call)
    ensures var rec := RecordFor(store, c.snap, c.useDelta, c.saves, Componentwise);
            rec.snap.hash == c.snap.hash && rec.snap.xcId == c.snap.xcId
  {
  }

  /** A record just saved is the last to be loaded. */
  lemma LastLoaded(store: Store, rec: Record)
    requires rec.snap.hash != ""
    ensures var loaded := Load(Saved(store, rec), rec.snap.xcId);
            loaded != [] && loaded[|loaded| - 1] == Restored(Saved(store, rec), rec)
  {
    hide Restored, LoadHashes;
    var hashes := HashesOf(store, rec.snap.xcId);
    assert HashesOf(Saved(store, rec), rec.snap.xcId) == hashes + [rec.snap.hash];
    LoadSnoc(Saved(store, rec), hashes, rec.snap.hash);
  }

  // ----- Appending a stored hash again

  /** The last hash listed for the context is the snapshot's own, so a delta is taken against the record
      that it overwrites. */
  predicate Repeats(store: Store, snap: Snapshot) {
    var hashes := HashesOf(store, snap.xcId);
    hashes != [] && hashes[|hashes| - 1] == snap.hash && snap.hash != "" && snap.hash in store.snapshots
  }

  /** The snapshot as it loads after it was appended once more as a delta: the delta on the hollow record. */
  function Again(store: Store, snap: Snapshot, how: DeltaCall): Snapshot
    requires Repeats(store, snap)
  {
    var hollow := Snapshot(snap.xcId, snap.ts, [], Obj([]), snap.hash);
    Patched(hollow, Compressed(hollow, snap.hash, CallDelta(how, store.snapshots[snap.hash].snap, snap)))
  }

  /** With all hashes stored, every listing of a hash loads as its one record. */
  lemma {:induction false} LoadAt(store: Store, hashes: seq<string>, i: nat)
    requires i < |hashes| && forall h | h in hashes :: h != "" && h in store.snapshots
    ensures |LoadHashes(store, hashes)| == |hashes|
    ensures LoadHashes(store, hashes)[i] == Restored(store, store.snapshots[hashes[i]])
  {
    hide Restored;
    var last := |hashes| - 1;
    assert forall h | h in hashes[..last] :: h in hashes;
    assert hashes[last] in hashes;
    if last > 0 {
      LoadAt(store, hashes[..last], if i < last then i else 0);
    }
  }

  /** Every listing of a hash appended again loads as `Again`. */
  lemma RepeatedLoads(store: Store, snap: Snapshot, how: DeltaCall)
    requires Repeats(store, snap)
    ensures var loaded := Load(Appended(store, snap, true, true, how), snap.xcId);
            loaded != [] && loaded[|loaded| - 1] == Again(store, snap, how)
    ensures var after := Appended(store, snap, true, true, how);
            var hashes := HashesOf(after, snap.xcId);
            Sound(store) ==>
              |Load(after, snap.xcId)| == |hashes|
              && forall i | 0 <= i < |hashes| :: hashes[i] == snap.hash ==>
                   Load(after, snap.xcId)[i] == Again(store, snap, how)
  {
    hide Patched, CallDelta, RecordState;
    var rec := RecordFor(store, snap, true, true, how);
    var after := Saved(store, rec);
    LastLoaded(store, rec);
    assert Restored(after, rec) == Again(store, snap, how);
    if Sound(store) {
      var hashes := HashesOf(after, snap.xcId);
      forall h | h in hashes ensures h != "" && h in after.snapshots {
        assert h == snap.hash || h in store.hashes[snap.xcId];
        assert h in store.snapshots && SoundRecord(store, h);
      }
      forall i | 0 <= i < |hashes|
        ensures |Load(after, snap.xcId)| == |hashes|
        ensures Load(after, snap.xcId)[i] == Restored(after, after.snapshots[hashes[i]])
      {
        LoadAt(after, hashes, i);
      }
    }
  }

  /** Appending a stored hash again overwrites the base of its own delta. As written, all events are
      lost; component-wise they come back exactly if the overwritten record was hollow itself. */
  lemma RepeatedHashLosesEvents(store: Store, snap: Snapshot, how: DeltaCall)
    requires Repeats(store, snap)
    ensures var raw, again := store.snapshots[snap.hash].snap, Again(store, snap, how);
            && (how == Wrapped || |snap.events| <= |raw.events| ==> again.events == [])
            && (again.events == snap.events <==>
                snap.events == [] || (how == Componentwise && raw.events == [] && IsEventArray(snap.events)))
  {
    hide IsEvent, PatchedState, StateDeltaOf;
  }

  /** The same for the state, component-wise: only fields that differ from the overwritten record are
      in the delta, so the state comes back exactly if all of them differ. */
  lemma RepeatedHashState(store: Store, snap: Snapshot)
    requires Repeats(store, snap) && RecordState(snap.state) && RecordState(store.snapshots[snap.hash].snap.state)
    ensures var raw, again := store.snapshots[snap.hash].snap, Again(store, snap, Componentwise);
            SameState(again.state, snap.state) <==>
            forall k :: Lookup(snap.state.fields, k).Some? ==>
                          Lookup(raw.state.fields, k) != Lookup(snap.state.fields, k)
  {
    hide IsJson, StateDeltaOf, PatchedState;
    var o, n := store.snapshots[snap.hash].snap.state.fields, snap.state.fields;
    assert Again(store, snap, Componentwise).state == PatchedState(Obj([]), StateDeltaOf(o, n));
    HollowLookup(o, n, "");
    var r := PatchedState(Obj([]), StateDeltaOf(o, n)).fields;
    forall k ensures Lookup(r, k) == if Lookup(n, k).Some? && Lookup(o, k) != Lookup(n, k) then Lookup(n, k) else None {
      HollowLookup(o, n, k);
    }
    if SameRecord(r, n) {
      assert forall k :: Lookup(r, k) == Lookup(n, k);
    } else {
      var k :| Lookup(r, k) != Lookup(n, k);
      assert Lookup(n, k).Some? && Lookup(o, k) == Lookup(n, k);
    }
  }

  /** A delta on the empty record leaves the changed fields alone. */
  lemma HollowLookup(o: Fields, n: Fields, k: string)
    requires RecordState(Obj(o)) && RecordState(Obj(n))
    ensures PatchedState(Obj([]), StateDeltaOf(o, n)).Obj?
    ensures Lookup(PatchedState(Obj([]), StateDeltaOf(o, n)).fields, k)
         == if Lookup(n, k).Some? && Lookup(o, k) != Lookup(n, k) then Lookup(n, k) else None
  {
    hide Changed, IsJson;
    var changes, deletions := Changes(o, n, Keys(n)), Deletions(n, Keys(o));
    ChangesLookup(o, n, Keys(n), k);
    DeletionsMembers(n, Keys(o), k);
    LookupKeys(n, k);
    if Lookup(n, k).Some? {
      UnchangedSame(o, n, k);
    }
    if StateDeltaOf(o, n).Some? {
      SpreadLookup([], changes, k);
    } else {
      assert changes == [];
    }
  }

  // ----- Overwriting the base of other records

  /** The record under `g` is a delta on the record under `base`. */
  predicate BasedOn(store: Store, g: string, base: string) {
    && g in store.snapshots && base in store.snapshots && base != "" && g != base
    && store.snapshots[g].Compressed? && store.snapshots[g].baseHash == base
  }

  /** The delta writes or deletes the field. */
  predicate Touched(delta: Option<StateDelta>, k: string) {
    delta.Some? && (Lookup(delta.value.changes, k).Some? || k in delta.value.deletions)
  }

  predicate OneChangePerKey(delta: Option<StateDelta>) {
    delta.Some? ==> Distinct(Keys(delta.value.changes))
  }

  lemma PatchedLookup(o: Fields, delta: Option<StateDelta>, k: string)
    requires OneChangePerKey(delta)
    ensures PatchedState(Obj(o), delta).Obj?
    ensures Lookup(PatchedState(Obj(o), delta).fields, k)
         == if !Touched(delta, k) then Lookup(o, k)
            else if k in delta.value.deletions then None else Lookup(delta.value.changes, k)
  {
    if delta.Some? {
      SpreadLookup(o, delta.value.changes, k);
    }
  }

  /** Two states patched alike agree exactly if they agree where the patch leaves them alone. */
  lemma PatchedAlike(a: Fields, b: Fields, delta: Option<StateDelta>)
    requires OneChangePerKey(delta)
    ensures SameState(PatchedState(Obj(a), delta), PatchedState(Obj(b), delta))
       <==> forall k :: !Touched(delta, k) ==> Lookup(a, k) == Lookup(b, k)
  {
    PatchedLookup(a, delta, "");
    PatchedLookup(b, delta, "");
    hide PatchedState, Touched, Lookup, OneChangePerKey;
    var x, y := PatchedState(Obj(a), delta).fields, PatchedState(Obj(b), delta).fields;
    forall k ensures Lookup(x, k) == Lookup(y, k) <==> (!Touched(delta, k) ==> Lookup(a, k) == Lookup(b, k)) {
      PatchedLookup(a, delta, k);
      PatchedLookup(b, delta, k);
    }
    if SameRecord(x, y) {
      assert forall k :: Lookup(x, k) == Lookup(y, k);
    } else {
      var k :| Lookup(x, k) != Lookup(y, k);
      assert !Touched(delta, k) && Lookup(a, k) != Lookup(b, k);
    }
  }

  /** Saving a record under a stored hash leaves the restored snapshots of all records alone but those
      that are deltas on it, and these take it as their base. */
  lemma OverwrittenElsewhere(store: Store, rec: Record, g: string)
    requires g in store.snapshots && g != rec.snap.hash && rec.snap.hash in store.snapshots && rec.snap.hash != ""
    ensures var after, other := Saved(store, rec), store.snapshots[g];
            && after.snapshots[g] == other
            && Restored(after, other) == if BasedOn(store, g, rec.snap.hash) then Patched(rec.snap, other)
                                         else Restored(store, other)
  {
    hide Patched;
  }

  /** Appending a stored hash again, whether it is the last one or not, changes what the deltas on it
      restore to: events and state stay as they were exactly if the new raw record has the events of the
      old one and its value in every field that the delta leaves alone. A delta record has no events. */
  lemma OverwrittenBase(store: Store, c: Call, how: DeltaCall, g: string)
    requires BasedOn(store, g, c.snap.hash)
    requires c.snap.state.Obj? && store.snapshots[c.snap.hash].snap.state.Obj?
    requires OneChangePerKey(store.snapshots[g].delta.stateDelta)
    ensures var rec, other := RecordFor(store, c.snap, c.useDelta, c.saves, how), store.snapshots[g];
            var raw := store.snapshots[c.snap.hash].snap;
            var after := Appended(store, c.snap, c.useDelta, c.saves, how);
            var before, now := Restored(store, other), Restored(after, other);
            && (now.events == before.events <==> rec.snap.events == raw.events)
            && (rec.Compressed? ==> now.events == PatchedEvents([], other.delta.eventsDelta))
            && (SameState(now.state, before.state) <==>
                forall k :: !Touched(other.delta.stateDelta, k) ==>
                              Lookup(rec.snap.state.fields, k) == Lookup(raw.state.fields, k))
  {
    hide IsEventArray, PatchedState, Touched, Lookup, CallDelta, OneChangePerKey;
    var rec, other := RecordFor(store, c.snap, c.useDelta, c.saves, how), store.snapshots[g];
    var raw := store.snapshots[c.snap.hash].snap;
    OverwrittenElsewhere(store, rec, g);
    PatchedAlike(rec.snap.state.fields, raw.state.fields, other.delta.stateDelta);
    SameTail(rec.snap.events, raw.events, other.delta.eventsDelta);
  }

  lemma SameTail(a: seq<Value>, b: seq<Value>, added: Option<seq<Value>>)
    ensures PatchedEvents(a, added) == PatchedEvents(b, added) <==> a == b
  {
    hide IsEventArray;
    if added.Some? && a + added.value == b + added.value {
      assert |a| == |b| && a == (a + added.value)[..|a|] && b == (b + added.value)[..|b|];
    }
  }

  // ----- The call as written, on any store

  /** What the wrapper delta adds to the empty state of a snapshot without events. */
  function WrapperRest(raw: Snapshot): (r: Value)
    ensures r.Obj?
  {
    if raw.events == [] then Obj([]) else Obj([Entry("events", Arr([]))])
  }

  /** As written, a snapshot appended again comes back only if it has no events and its state is
      unchanged and, by chance, what the delta of the wrappers leaves on an empty record. */
  lemma WrappedAgain(store: Store, snap: Snapshot)
    requires Repeats(store, snap) && RecordState(snap.state) && IsJson(Arr(snap.events))
    requires RecordState(store.snapshots[snap.hash].snap.state) && IsJson(Arr(store.snapshots[snap.hash].snap.events))
    ensures var raw := store.snapshots[snap.hash].snap;
            SameSnapshot(Again(store, snap, Wrapped), snap) <==>
            snap.events == [] && raw.state == snap.state && SameState(WrapperRest(raw), snap.state)
  {
    var raw := store.snapshots[snap.hash].snap;
    RepeatedHashLosesEvents(store, snap, Wrapped);
    if snap.events == [] {
      WrapperRecord(raw);
      WrapperRecord(snap);
      hide IsJson, StateDeltaOf, PatchedState, Lookup;
      var o, n := Wrapper(raw).fields, Wrapper(snap).fields;
      assert Again(store, snap, Wrapped).state == PatchedState(Obj([]), StateDeltaOf(o, n));
      HollowLookup(o, n, "");
      var r := PatchedState(Obj([]), StateDeltaOf(o, n)).fields;
      forall k ensures Lookup(r, k) == if k == "state" && raw.state != snap.state then Some(snap.state)
                                       else Lookup(WrapperRest(raw).fields, k)
      {
        HollowLookup(o, n, k);
        RestLookup(raw, k);
        WrapperFields(raw, k);
        WrapperFields(snap, k);
      }
      WrappedRest(raw, snap, r);
    }
  }

  lemma WrapperRecord(s: Snapshot)
    requires RecordState(s.state) && IsJson(Arr(s.events))
    ensures RecordState(Wrapper(s))
  {
  }

  lemma RestLookup(raw: Snapshot, k: string)
    ensures Lookup(WrapperRest(raw).fields, k)
         == if k == "events" && raw.events != [] then Some(Arr([])) else None
  {
  }

  lemma WrapperFields(s: Snapshot, k: string)
    ensures Lookup(Wrapper(s).fields, k)
         == if k == "events" then Some(Arr(s.events)) else if k == "state" then Some(s.state) else None
  {
    WrapperLookup(s);
    LookupKeys(Wrapper(s).fields, k);
  }

  lemma WrappedRest(raw: Snapshot, snap: Snapshot, r: Fields)
    requires snap.state.Obj?
    requires forall k :: Lookup(r, k) == if k == "state" && raw.state != snap.state then Some(snap.state)
                                         else Lookup(WrapperRest(raw).fields, k)
    ensures SameRecord(r, snap.state.fields) <==>
            raw.state == snap.state && SameRecord(WrapperRest(raw).fields, snap.state.fields)
  {
    hide Lookup, WrapperRest;
    if raw.state != snap.state {
      assert Lookup(r, "state") == Some(snap.state);
      if Lookup(snap.state.fields, "state").Some? {
        LookupSmaller(snap.state, snap.state.fields, "state");
      }
    } else {
      var w := WrapperRest(raw).fields;
      assert forall k :: Lookup(r, k) == Lookup(w, k);
    }
  }

  /** The source's own call, on any store: the snapshot just appended loads back exactly when it was
      stored whole, or nothing had changed against the raw record before it, unless that record is its
      own. */
  lemma WrappedAppend(store: Store, c: Call)
    requires c.snap.hash != "" && RecordState(c.snap.state) && IsJson(Arr(c.snap.events))
    requires RawBase(store, c.snap.xcId).Some? ==>
               var raw := RawBase(store, c.snap.xcId).value;
               RecordState(raw.state) && IsJson(Arr(raw.events))
    ensures var rec := RecordFor(store, c.snap, c.useDelta, c.saves, Wrapped);
            var loaded := Load(Appended(store, c.snap, c.useDelta, c.saves, Wrapped), c.snap.xcId);
            && loaded != []
            && (SameSnapshot(loaded[|loaded| - 1], c.snap) <==>
                rec.Full?
                || (var raw := RawBase(store, c.snap.xcId).value;
                    raw.state == c.snap.state
                    && if Repeats(store, c.snap) then c.snap.events == [] && SameState(WrapperRest(raw), c.snap.state)
                       else raw.events == c.snap.events))
  {
    hide IsJson, Patched, CallDelta;
    var rec := RecordFor(store, c.snap, c.useDelta, c.saves, Wrapped);
    LastLoaded(store, rec);
    if rec.Compressed? {
      if Repeats(store, c.snap) {
        RepeatedLoads(store, c.snap, Wrapped);
        WrappedAgain(store, c.snap);
      } else {
        var base := store.snapshots[rec.baseHash].snap;
        WrappedPatch(base, c.snap, rec);
        assert Saved(store, rec).snapshots[rec.baseHash].snap == base;
      }
    }
  }
}
