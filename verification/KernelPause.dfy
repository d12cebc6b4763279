/** Pausing and resuming: the first resume of a snapshot brings back what the pause stored, whatever
    happened in between; a second one brings back what was written since. */
module KernelPause {
  import opened Text
  import opened Json
  import opened Records
  import opened LruCache
  import opened KernelState
  import opened KernelCells
  import opened KernelCoherence
  import opened KernelCaching

  // ----- The stored snapshot is left alone

  /** The snapshot `hash` is held by the object `ref`, which is nobody else's context. */
  predicate Holds<Ref>(k: Kernel<Ref>, hash: string, saved: Saved<Ref>, fields: Fields) {
    && WellFormed(k)
    && hash in k.snapshots && k.snapshots[hash] == saved
    && saved.context in k.heap && k.heap[saved.context] == fields
    && k.context != saved.context
    && forall h | h in k.snapshots && h != hash :: k.snapshots[h].context != saved.context
  }

  /** A step that neither resumes the snapshot nor stores another one under its hash. */
  predicate Spares<Ref>(s: Step<Ref>, hash: string) {
    match s
    case DoSend(_, _, _, h, _, _, _) => h != hash
    case DoPause(h, _, _, _) => h != hash
    case DoResume(h) => h != hash
    case _ => true
  }

  lemma HoldsPause<Ref>(k: Kernel<Ref>, hash: string, saved: Saved<Ref>, fields: Fields, h: string, ref: Ref,
                        persisted: bool, now: int)
    requires Holds(k, hash, saved, fields) && h != hash && ref !in k.heap
    ensures Holds(Pause(k, h, ref, persisted, now).0, hash, saved, fields)
  {
    hide FlushFields, FlushCache, WireFields;
  }

  lemma HoldsSend<Ref>(config: Config, k: Kernel<Ref>, hash: string, saved: Saved<Ref>, fields: Fields,
                       eventType: string, event: Value, emitted: bool, h: string, ref: Ref, persisted: bool, now: int)
    requires Holds(k, hash, saved, fields) && h != hash && ref !in k.heap
    ensures Holds(SendEvent(config, k, eventType, event, emitted, h, ref, persisted, now).0, hash, saved, fields)
  {
    hide PrepareContext, Pause;
    var k1 := WithContext(k, PrepareContext(config, Context(k), eventType, event, now).0);
    HoldsPause(k1.(eventCount := k1.eventCount + 1), hash, saved, fields, h, ref, persisted, now);
  }

  lemma HoldsContextCall<Ref>(config: Config, k: Kernel<Ref>, hash: string, saved: Saved<Ref>, fields: Fields,
                              c: Cell, v: Value, now: int)
    requires Holds(k, hash, saved, fields)
    ensures Holds(GetContext(config, k, c, now).0, hash, saved, fields)
    ensures Holds(SetContext(config, k, c, v, now).0, hash, saved, fields)
  {
    hide WriteCell, WithTenant, ReadCell, CacheKey, CacheSet, Put, Apply;
  }

  lemma HoldsInitialize<Ref>(config: Config, k: Kernel<Ref>, hash: string, saved: Saved<Ref>, fields: Fields,
                             result: InitResult, loaded: Fields, ref: Ref)
    requires Holds(k, hash, saved, fields) && ref !in k.heap
    ensures Holds(Initialize(config, k, result, loaded, ref).0, hash, saved, fields)
  {
  }

  lemma HoldsRecover<Ref>(config: Config, k: Kernel<Ref>, hash: string, saved: Saved<Ref>, fields: Fields,
                          cleaned: bool, result: InitResult, loaded: Fields, ref: Ref)
    requires Holds(k, hash, saved, fields) && ref !in k.heap
    ensures Holds(Recover(config, k, cleaned, result, loaded, ref).0, hash, saved, fields)
  {
    hide Initialize;
    var k1 := k.(hasRuntime := false, status := Initialized);
    assert Holds(k1, hash, saved, fields);
    HoldsInitialize(config, k1, hash, saved, fields, result, loaded, ref);
  }

  lemma HoldsNext<Ref>(config: Config, k: Kernel<Ref>, hash: string, saved: Saved<Ref>, fields: Fields, s: Step<Ref>)
    requires Holds(k, hash, saved, fields) && Fresh(k, s) && Spares(s, hash)
    ensures Holds(Next(config, k, s), hash, saved, fields)
  {
    hide GetContext, SetContext, Pause, SendEvent, Initialize, Recover, FlushFields, FlushCache;
    match s
    case DoGet(c, now) => HoldsContextCall(config, k, hash, saved, fields, c, Undefined, now);
    case DoSet(c, v, now) => HoldsContextCall(config, k, hash, saved, fields, c, v, now);
    case DoIncrement(c, plus, now) =>
      HoldsContextCall(config, k, hash, saved, fields, c, Undefined, now);
      var (k1, current) := GetContext(config, k, c, now);
      HoldsContextCall(config, k1, hash, saved, fields, c, plus(current), now);
    case DoPause(h, ref, persisted, now) => HoldsPause(k, hash, saved, fields, h, ref, persisted, now);
    case DoSend(t, e, emitted, h, ref, persisted, now) =>
      HoldsSend(config, k, hash, saved, fields, t, e, emitted, h, ref, persisted, now);
    case DoInitialize(result, loaded, ref) =>
      HoldsInitialize(config, k, hash, saved, fields, result, loaded, ref);
    case DoRecover(cleaned, result, loaded, ref) =>
      HoldsRecover(config, k, hash, saved, fields, cleaned, result, loaded, ref);
    case _ =>
  }

  predicate FreshRun<Ref>(config: Config, k: Kernel<Ref>, steps: seq<Step<Ref>>)
    requires WellFormed(k)
  {
    steps == []
    || (FreshRun(config, k, steps[..|steps| - 1])
        && Fresh(Run(config, k, steps[..|steps| - 1]), steps[|steps| - 1]))
  }

  lemma {:induction false} HoldsRun<Ref>(config: Config, k: Kernel<Ref>, hash: string, saved: Saved<Ref>,
                                         fields: Fields, steps: seq<Step<Ref>>)
    requires Holds(k, hash, saved, fields)
    requires FreshRun(config, k, steps) && forall s | s in steps :: Spares(s, hash)
    ensures Holds(Run(config, k, steps), hash, saved, fields)
  {
    hide Next, Fresh, Spares, Holds;
    assert WellFormed(k) by { HoldsWellFormed(k, hash, saved, fields); }
    if steps != [] {
      var s := steps[|steps| - 1];
      assert s in steps && forall t | t in steps[..|steps| - 1] :: t in steps;
      HoldsRun(config, k, hash, saved, fields, steps[..|steps| - 1]);
      HoldsNext(config, Run(config, k, steps[..|steps| - 1]), hash, saved, fields, s);
    }
  }

  lemma HoldsWellFormed<Ref>(k: Kernel<Ref>, hash: string, saved: Saved<Ref>, fields: Fields)
    requires Holds(k, hash, saved, fields)
    ensures WellFormed(k)
  {
  }

  // ----- What the JSON copy keeps

  /** A property's value after `JSON.parse(JSON.stringify(...))` of its object. */
  function Copied(v: Value): Value {
    match Wire(v) case Some(w) => w case None => Undefined
  }

  lemma {:induction false} WireLookup(fields: Fields, key: string)
    requires Distinct(Keys(fields))
    ensures Get(WireFields(fields), key) == Copied(Get(fields, key))
  {
    hide Wire;
    UndefinedWire();
    if fields != [] {
      DistinctRest(fields);
      WireLookup(fields[1..], key);
      var w, rest := Wire(fields[0].value), WireFields(fields[1..]);
      if w.Some? {
        assert WireFields(fields) == [Entry(fields[0].key, w.value)] + rest;
        assert ([Entry(fields[0].key, w.value)] + rest)[1..] == rest;
      } else {
        assert WireFields(fields) == [] + rest == rest;
      }
      if fields[0].key == key {
        assert Records.Lookup(fields[1..], key).None?;
        assert Get(rest, key) == Undefined;
      }
    }
  }

  lemma UndefinedWire()
    ensures Wire(Undefined) == None
  {
  }

  lemma CopiedProperty(v: Value, key: string)
    requires Valid(v)
    ensures Property(Copied(v), key) == Copied(Property(v, key))
  {
    if v.Obj? { WireLookup(v.fields, key); }
  }

  lemma GetValid(v: Value, key: string)
    requires Valid(v)
    ensures Valid(Property(v, key))
  {
    if v.Obj? { FieldValid(v.fields, key); }
  }

  lemma {:induction false} FieldValid(fields: Fields, key: string)
    requires forall f | f in fields :: Valid(f.value)
    ensures Valid(Get(fields, key))
  {
    hide Valid;
    assert Valid(Undefined) by { UndefinedValid(); }
    if fields != [] {
      assert fields[0] in fields && forall f | f in fields[1..] :: f in fields;
      FieldValid(fields[1..], key);
    }
  }

  lemma UndefinedValid()
    ensures Valid(Undefined)
  {
  }

  /** A cell of the copy of a context is the copy of the cell. */
  lemma CopiedCell(config: Config, context: Fields, c: Cell)
    requires Valid(Obj(context))
    ensures ReadCell(config, WireFields(context), c) == Copied(ReadCell(config, context, c))
  {
    hide Valid, ContextKey;
    var ck := ContextKey(config.tenant, c.thread);
    CopiedProperty(Obj(context), ck);
    GetValid(Obj(context), ck);
    var tenant := TenantContext(config, context, c.thread);
    assert TenantContext(config, WireFields(context), c.thread) == Copied(tenant);
    CopiedProperty(tenant, c.namespace);
    GetValid(tenant, c.namespace);
    CopiedProperty(Property(tenant, c.namespace), c.key);
  }

  // ----- The round trip

  /** The first resume of a snapshot, after any run that spares it, restores the paused event count and
      the paused cells: every `getContext` returns the JSON copy of what was stored when `pause` was
      called, which is that very value if it is a JSON value. */
  lemma PauseResume<Ref>(config: Config, k: Kernel<Ref>, hash: string, ref: Ref, now: int, steps: seq<Step<Ref>>,
                         c: Cell, later: int)
    requires Separate(config) && Plain(config.tenant) && Clean(c) && Coherent(config, k)
    requires k.status == Running && ref !in k.heap && Valid(Obj(Context(Flush(k, now))))
    requires var paused := Pause(k, hash, ref, true, now).0;
             && FreshRun(config, paused, steps) && (forall s | s in steps :: Spares(s, hash))
             && Run(config, paused, steps).status == Paused
    ensures var before := Run(config, Pause(k, hash, ref, true, now).0, steps);
            var (after, outcome) := Resume(before, hash);
            && outcome == Done && after.status == Running && after.eventCount == k.eventCount
            && GetContext(config, after, c, later).1 == Copied(ReadCell(config, Context(k), c))
            && (IsJson(ReadCell(config, Context(k), c))
                ==> GetContext(config, after, c, later).1 == ReadCell(config, Context(k), c))
  {
    hide ReadCell, Flush, Coherent, Run, FreshRun, SameReads, Valid, Copied, GetContext, WireFields;
    CoherentIsWellFormed(config, k);
    var stored := PauseHolds(config, k, hash, ref, now);
    var paused := Pause(k, hash, ref, true, now).0;
    CoherentFlush(config, k, now);
    HoldsRun(config, paused, hash, Saved(ref, k.eventCount), stored, steps);
    var after := Resume(Run(config, paused, steps), hash).0;
    assert Context(after) == stored && after.cache == [] && after.queue == [];
    ClearedCoherent(config, after);
    ReadsStore(config, after, c, later);
    ReadsAlike(config, Context(k), Context(Flush(k, now)), c);
    CopiedCell(config, Context(Flush(k, now)), c);
    if IsJson(ReadCell(config, Context(k), c)) {
      JsonCopied(ReadCell(config, Context(k), c));
    }
  }

  lemma JsonCopied(v: Value)
    requires IsJson(v)
    ensures Copied(v) == v
  {
    WireJson(v);
  }

  lemma PauseHolds<Ref>(config: Config, k: Kernel<Ref>, hash: string, ref: Ref, now: int) returns (stored: Fields)
    requires WellFormed(k) && k.status == Running && ref !in k.heap
    ensures stored == WireFields(Context(Flush(k, now)))
    ensures Holds(Pause(k, hash, ref, true, now).0, hash, Saved(ref, k.eventCount), stored)
  {
    hide FlushFields, FlushCache, WireFields;
    stored := WireFields(Context(Flush(k, now)));
  }

  // ----- The second resume

  /** The live context is the object of the stored snapshot. */
  predicate Live<Ref>(k: Kernel<Ref>, hash: string, saved: Saved<Ref>) {
    WellFormed(k) && hash in k.snapshots && k.snapshots[hash] == saved && k.context == saved.context
  }

  /** A step that neither replaces the live context nor stores another snapshot under the hash. */
  predicate LeavesLive<Ref>(config: Config, s: Step<Ref>, hash: string) {
    match s
    case DoSend(_, _, _, h, _, _, _) => h != hash
    case DoPause(h, _, _, _) => h != hash
    case DoResume(h) => h == hash
    case DoInitialize(_, _, _) => config.lazyLoading
    case DoRecover(_, _, _, _) => config.lazyLoading
    case DoReset(_, _) => false
    case DoClear(_, _) => false
    case _ => true
  }

  lemma LiveContextCall<Ref>(config: Config, k: Kernel<Ref>, hash: string, saved: Saved<Ref>, c: Cell, v: Value,
                             now: int)
    requires Live(k, hash, saved)
    ensures Live(GetContext(config, k, c, now).0, hash, saved)
    ensures Live(SetContext(config, k, c, v, now).0, hash, saved)
  {
    hide WriteCell, WithTenant, ReadCell, CacheKey, CacheSet, Put, Apply;
  }

  lemma LivePause<Ref>(k: Kernel<Ref>, hash: string, saved: Saved<Ref>, h: string, ref: Ref, persisted: bool, now: int)
    requires Live(k, hash, saved) && h != hash && ref !in k.heap
    ensures Live(Pause(k, h, ref, persisted, now).0, hash, saved)
  {
    hide FlushFields, FlushCache, WireFields;
  }

  lemma LiveSend<Ref>(config: Config, k: Kernel<Ref>, hash: string, saved: Saved<Ref>, eventType: string, event: Value,
                      emitted: bool, h: string, ref: Ref, persisted: bool, now: int)
    requires Live(k, hash, saved) && h != hash && ref !in k.heap
    ensures Live(SendEvent(config, k, eventType, event, emitted, h, ref, persisted, now).0, hash, saved)
  {
    hide PrepareContext, Pause;
    var k1 := WithContext(k, PrepareContext(config, Context(k), eventType, event, now).0);
    LivePause(k1.(eventCount := k1.eventCount + 1), hash, saved, h, ref, persisted, now);
  }

  lemma LiveNext<Ref>(config: Config, k: Kernel<Ref>, hash: string, saved: Saved<Ref>, s: Step<Ref>)
    requires Live(k, hash, saved) && Fresh(k, s) && LeavesLive(config, s, hash)
    ensures Live(Next(config, k, s), hash, saved)
  {
    hide GetContext, SetContext, Pause, SendEvent, FlushFields, FlushCache;
    match s
    case DoGet(c, now) => LiveContextCall(config, k, hash, saved, c, Undefined, now);
    case DoSet(c, v, now) => LiveContextCall(config, k, hash, saved, c, v, now);
    case DoIncrement(c, plus, now) =>
      LiveContextCall(config, k, hash, saved, c, Undefined, now);
      var (k1, current) := GetContext(config, k, c, now);
      LiveContextCall(config, k1, hash, saved, c, plus(current), now);
    case DoPause(h, ref, persisted, now) => LivePause(k, hash, saved, h, ref, persisted, now);
    case DoSend(t, e, emitted, h, ref, persisted, now) =>
      LiveSend(config, k, hash, saved, t, e, emitted, h, ref, persisted, now);
    case _ =>
  }

  lemma {:induction false} LiveRun<Ref>(config: Config, k: Kernel<Ref>, hash: string, saved: Saved<Ref>,
                                        steps: seq<Step<Ref>>)
    requires Live(k, hash, saved)
    requires FreshRun(config, k, steps) && forall s | s in steps :: LeavesLive(config, s, hash)
    ensures Live(Run(config, k, steps), hash, saved)
  {
    hide Next, Fresh, LeavesLive;
    if steps != [] {
      var s := steps[|steps| - 1];
      assert s in steps && forall t | t in steps[..|steps| - 1] :: t in steps;
      LiveRun(config, k, hash, saved, steps[..|steps| - 1]);
      LiveNext(config, Run(config, k, steps[..|steps| - 1]), hash, saved, s);
    }
  }

  /** A resumed context is the snapshot's own object: after any run that leaves it in place, a second
      resume of the same hash finds the context of that moment, beside the event count of the snapshot. */
  lemma SecondResume<Ref>(config: Config, k: Kernel<Ref>, hash: string, steps: seq<Step<Ref>>, c: Cell, later: int)
    requires Separate(config) && Plain(config.tenant) && Clean(c)
    requires WellFormed(k) && k.status == Paused && hash in k.snapshots
    requires var resumed := Resume(k, hash).0;
             && FreshRun(config, resumed, steps) && (forall s | s in steps :: LeavesLive(config, s, hash))
             && Run(config, resumed, steps).status == Paused
    ensures var before := Run(config, Resume(k, hash).0, steps);
            var (after, outcome) := Resume(before, hash);
            && outcome == Done && after.eventCount == k.snapshots[hash].eventCount
            && Context(after) == Context(before)
            && GetContext(config, after, c, later).1 == ReadCell(config, Context(before), c)
  {
    hide ReadCell, Coherent, Run, FreshRun, GetContext;
    var resumed, saved := Resume(k, hash).0, k.snapshots[hash];
    assert Live(resumed, hash, saved);
    LiveRun(config, resumed, hash, saved, steps);
    var after := Resume(Run(config, resumed, steps), hash).0;
    ClearedCoherent(config, after);
    ReadsStore(config, after, c, later);
  }

  /** So a value written between two resumes of one snapshot is there after the second. */
  lemma SecondResumeFindsWrite<Ref>(config: Config, k: Kernel<Ref>, hash: string, c: Cell, v: Value, other: string,
                                    ref: Ref, now: int)
    requires config.isolation && Plain(config.tenant) && Clean(c) && Separate(config)
    requires WellFormed(k) && k.status == Paused && hash in k.snapshots && other != hash && ref !in k.heap
    requires WriteCell(config, k.heap[k.snapshots[hash].context], c, v).1 == Done
    ensures var k1 := Resume(k, hash).0;
            var k2 := SetContext(config, k1, c, v, now).0;
            var k3 := Pause(k2, other, ref, true, now).0;
            var (k4, outcome) := Resume(k3, hash);
            && outcome == Done && k4.eventCount == k.snapshots[hash].eventCount
            && Context(k4) == Context(Flush(k2, now))
            && GetContext(config, k4, c, now).1 == v
  {
    hide ReadCell, WriteCell, Coherent, SameReads, GetContext, CacheKey, CacheSet, Flush, WireFields, Put;
    var k1 := Resume(k, hash).0;
    ClearedCoherent(config, k1);
    CoherentIsWellFormed(config, k1);
    CoherentSet(config, k1, c, v, now);
    var k2 := SetContext(config, k1, c, v, now).0;
    WriteCellReads(config, Context(k1), c, v);
    UpdatedRead(config, Context(k1), Context(k2), c, v);
    FlushKeeps(k2, now);
    CoherentFlush(config, k2, now);
    ReadsAlike(config, Context(k2), Context(Flush(k2, now)), c);
    var k3 := Pause(k2, other, ref, true, now).0;
    var k4 := Resume(k3, hash).0;
    ClearedCoherent(config, k4);
    ReadsStore(config, k4, c, now);
  }

  lemma FlushKeeps<Ref>(k: Kernel<Ref>, now: int)
    requires WellFormed(k)
    ensures var r := Flush(k, now);
            r == k.(heap := r.heap, cache := r.cache, queue := r.queue, timer := r.timer)
            && r.heap.Keys == k.heap.Keys
  {
  }
}
