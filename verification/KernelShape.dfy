/** Under tenant isolation a tenant's record only ever holds namespaces, so `setContext` never throws. */
module KernelShape {
  import opened Text
  import opened Json
  import opened Records
  import opened KernelState
  import opened KernelCells
  import opened KernelCoherence

  ghost predicate NamesRecord(config: Config, key: string) {
    exists thread: string :: Plain(thread) && ContextKey(config.tenant, thread) == key
  }

  /** A tenant's record: an object of namespaces. */
  predicate Spaces(v: Value) {
    v.Obj? && forall f | f in v.fields :: f.value.Obj?
  }

  ghost predicate Shaped(config: Config, context: Fields) {
    forall e | e in context :: NamesRecord(config, e.key) ==> Spaces(e.value)
  }

  ghost predicate HeapShaped<Ref>(config: Config, k: Kernel<Ref>) {
    WellFormed(k) && forall r | r in k.heap :: Shaped(config, k.heap[r])
  }

  lemma {:induction false} PutField(fields: Fields, key: string, v: Value, e: Entry<Value>)
    requires e in Put(fields, key, v)
    ensures e == Entry(key, v) || e in fields
  {
    if fields != [] && fields[0].key != key && e != fields[0] {
      PutField(fields[1..], key, v, e);
    }
  }

  lemma {:induction false} LookupMember(fields: Fields, key: string)
    requires Lookup(fields, key).Some?
    ensures Entry(key, Get(fields, key)) in fields
  {
    if fields[0].key != key {
      LookupMember(fields[1..], key);
    } else {
      assert fields[0] == Entry(key, Get(fields, key));
    }
  }

  lemma PutShaped(config: Config, context: Fields, key: string, v: Value)
    requires Shaped(config, context)
    requires NamesRecord(config, key) ==> Spaces(v)
    ensures Shaped(config, Put(context, key, v))
  {
    hide NamesRecord, Spaces, Put;
    forall e | e in Put(context, key, v) ensures NamesRecord(config, e.key) ==> Spaces(e.value) {
      PutField(context, key, v, e);
    }
  }

  lemma NamedRecord(config: Config, thread: string)
    requires Plain(thread)
    ensures NamesRecord(config, ContextKey(config.tenant, thread))
  {
  }

  /** The tenant's record that `getTenantContext` returns. */
  lemma TenantShaped(config: Config, context: Fields, thread: string)
    requires config.isolation && Plain(thread) && Shaped(config, context)
    ensures var ctx := WithTenant(config, context, thread);
            Shaped(config, ctx) && Spaces(Get(ctx, ContextKey(config.tenant, thread)))
  {
    hide ContextKey, Shaped, NamesRecord;
    var ck := ContextKey(config.tenant, thread);
    NamedRecord(config, thread);
    PutShaped(config, context, ck, Obj([]));
    if Lookup(context, ck).Some? {
      LookupMember(context, ck);
      ShapedAt(config, context, ck);
    }
  }

  lemma ShapedAt(config: Config, context: Fields, key: string)
    requires Shaped(config, context) && NamesRecord(config, key)
    requires Entry(key, Get(context, key)) in context
    ensures Spaces(Get(context, key))
  {
    hide NamesRecord, Spaces, Get;
    assert Entry(key, Get(context, key)).key == key;
  }

  lemma WrittenSpacesShaped(fields: Fields, namespace: string, key: string, v: Value)
    requires Spaces(Obj(fields))
    ensures var (after, outcome) := WrittenSpaces(fields, namespace, key, v); outcome == Done && Spaces(Obj(after))
  {
    hide Put;
    var spaces := if Falsy(Get(fields, namespace)) then Put(fields, namespace, Obj([])) else fields;
    forall f | f in spaces ensures f.value.Obj? {
      if spaces != fields { PutField(fields, namespace, Obj([]), f); }
    }
    if Lookup(fields, namespace).Some? { LookupMember(fields, namespace); }
    assert Get(spaces, namespace).Obj?;
    var space := Obj(Put(Get(spaces, namespace).fields, key, v));
    forall f | f in Put(spaces, namespace, space) ensures f.value.Obj? {
      PutField(spaces, namespace, space, f);
    }
  }

  /** A write into a well-shaped context succeeds. */
  lemma WriteShaped(config: Config, context: Fields, c: Cell, v: Value)
    requires config.isolation && Clean(c) && Shaped(config, context)
    ensures WriteCell(config, context, c, v).1 == Done && Shaped(config, WriteCell(config, context, c, v).0)
  {
    hide WriteCell, WithTenant, ContextKey, Shaped, WrittenSpaces;
    WriteCellParts(config, context, c, v);
    TenantShaped(config, context, c.thread);
    var ctx := WithTenant(config, context, c.thread);
    var tenant := Get(ctx, ContextKey(config.tenant, c.thread));
    WrittenSpacesShaped(tenant.fields, c.namespace, c.key, v);
    var (after, _) := WrittenSpaces(tenant.fields, c.namespace, c.key, v);
    PutShaped(config, ctx, ContextKey(config.tenant, c.thread), Obj(after));
  }

  lemma PlainNamesNoRecord(config: Config, key: string)
    requires Plain(config.tenant) && Plain(key)
    ensures !NamesRecord(config, key)
  {
    hide ContextKey;
    forall thread: string | Plain(thread) ensures key != ContextKey(config.tenant, thread) {
      PlainIsNoContextKey(config.tenant, thread, key);
    }
  }

  lemma PrepareShaped(config: Config, context: Fields, eventType: string, event: Value, now: int)
    requires Plain(config.tenant) && Shaped(config, context)
    ensures Shaped(config, PrepareContext(config, context, eventType, event, now).0)
  {
    hide Shaped, NamesRecord, Put, Get, IntText;
    PlainNamesNoRecord(config, "lastEvent");
    PlainNamesNoRecord(config, "lastEventTime");
    PlainNamesNoRecord(config, "eventHistory");
    var c1 := Put(context, "lastEvent", Str(eventType));
    PutShaped(config, context, "lastEvent", Str(eventType));
    PutShaped(config, c1, "lastEventTime", Num(IntText(now)));
    var c2 := Put(c1, "lastEventTime", Num(IntText(now)));
    var history := if Falsy(Get(c2, "eventHistory")) then Arr([]) else Get(c2, "eventHistory");
    PutShaped(config, c2, "eventHistory", history);
    if history.Arr? {
      PutShaped(config, c2, "eventHistory", Arr(history.items + [event]));
    }
  }

  lemma {:induction false} WireMember(fields: Fields, e: Entry<Value>)
    requires e in WireFields(fields)
    ensures exists f | f in fields :: f.key == e.key && Wire(f.value) == Some(e.value)
  {
    hide Wire;
    if fields != [] {
      if e in WireFields(fields[1..]) {
        WireMember(fields[1..], e);
        var f :| f in fields[1..] && f.key == e.key && Wire(f.value) == Some(e.value);
        assert f in fields;
      } else {
        assert fields[0] in fields;
      }
    }
  }

  lemma WireSpaces(v: Value)
    requires Spaces(v)
    ensures Wire(v).Some? && Spaces(Wire(v).value)
  {
    forall e | e in WireFields(v.fields) ensures e.value.Obj? {
      WireMember(v.fields, e);
    }
  }

  /** The JSON copy of a context keeps its shape. */
  lemma WireShaped(config: Config, context: Fields)
    requires Shaped(config, context)
    ensures Shaped(config, WireFields(context))
  {
    hide NamesRecord, Spaces, Wire;
    forall e | e in WireFields(context) ensures NamesRecord(config, e.key) ==> Spaces(e.value) {
      WireMember(context, e);
      var f :| f in context && f.key == e.key && Wire(f.value) == Some(e.value);
      if NamesRecord(config, e.key) { WireSpaces(f.value); }
    }
  }

  lemma {:induction false} FlushShaped(config: Config, context: Fields, queue: Fields)
    requires config.tenant != "tenant" && Plain(config.tenant) && Shaped(config, context)
    requires forall e | e in queue :: NamesCell(config, e.key)
    ensures Shaped(config, FlushFields(context, queue))
    decreases |queue|
  {
    hide Shaped, NamesCell, Put, Spaces;
    if queue != [] {
      var e := queue[0];
      assert e in queue && forall x | x in queue[1..] :: x in queue;
      NamesNoRecord(config, e.key);
      PutShaped(config, context, e.key, e.value);
      FlushShaped(config, Put(context, e.key, e.value), queue[1..]);
    }
  }

  // ----- Steps

  /** Loaded contexts have plain keys: eventHistory, metrics, user and system. */
  predicate LoadsPlain<Ref>(s: Step<Ref>) {
    match s
    case DoInitialize(_, loaded, _) => forall e | e in loaded :: Plain(e.key)
    case DoRecover(_, _, loaded, _) => forall e | e in loaded :: Plain(e.key)
    case _ => true
  }

  lemma PlainLoadShaped(config: Config, loaded: Fields)
    requires Plain(config.tenant) && forall e | e in loaded :: Plain(e.key)
    ensures Shaped(config, loaded)
  {
    hide NamesRecord, Plain;
    forall e | e in loaded ensures !NamesRecord(config, e.key) {
      PlainNamesNoRecord(config, e.key);
    }
  }

  lemma AddShaped<Ref>(config: Config, k: Kernel<Ref>, r: Kernel<Ref>, ref: Ref, fields: Fields)
    requires HeapShaped(config, k) && Shaped(config, fields) && WellFormed(r)
    requires r.heap == k.heap || r.heap == k.heap[ref := fields]
    ensures HeapShaped(config, r)
  {
    hide Shaped, WellFormed;
  }

  lemma ShapedFlush<Ref>(config: Config, k: Kernel<Ref>, now: int)
    requires Separate(config) && Plain(config.tenant) && Coherent(config, k) && HeapShaped(config, k)
    ensures HeapShaped(config, Flush(k, now))
  {
    hide Shaped, NamesCell, CacheFits, FlushFields, FlushCache, Fits;
    if k.queue != [] {
      FlushShaped(config, Context(k), k.queue);
    }
  }

  lemma ShapedContextCall<Ref>(config: Config, k: Kernel<Ref>, c: Cell, v: Value, now: int)
    requires config.isolation && Clean(c) && HeapShaped(config, k)
    ensures HeapShaped(config, GetContext(config, k, c, now).0)
    ensures HeapShaped(config, SetContext(config, k, c, v, now).0) && SetContext(config, k, c, v, now).1 == Done
  {
    hide Shaped, WriteCell, WithTenant, ReadCell, CacheKey, CacheSet, Put;
    TenantShaped(config, Context(k), c.thread);
    WriteShaped(config, Context(k), c, v);
  }

  lemma ShapedIncrement<Ref>(config: Config, k: Kernel<Ref>, c: Cell, plus: Value -> Value, now: int)
    requires config.isolation && Clean(c) && HeapShaped(config, k)
    ensures HeapShaped(config, IncrementContext(config, k, c, plus, now).0)
  {
    hide GetContext, SetContext;
    ShapedContextCall(config, k, c, Undefined, now);
    var (k1, current) := GetContext(config, k, c, now);
    ShapedContextCall(config, k1, c, plus(current), now);
  }

  lemma ShapedPause<Ref>(config: Config, k: Kernel<Ref>, hash: string, ref: Ref, persisted: bool, now: int)
    requires Separate(config) && Plain(config.tenant) && Coherent(config, k) && HeapShaped(config, k)
    ensures HeapShaped(config, Pause(k, hash, ref, persisted, now).0)
  {
    hide Flush, Shaped, CacheFits, QueueFits, WireFields;
    ShapedFlush(config, k, now);
    var k1 := Flush(k, now);
    WireShaped(config, Context(k1));
    if k.status == Running && persisted {
      AddShaped(config, k1, Pause(k, hash, ref, persisted, now).0, ref, WireFields(Context(k1)));
    }
  }

  lemma ShapedSend<Ref>(config: Config, k: Kernel<Ref>, eventType: string, event: Value, emitted: bool, hash: string,
                        ref: Ref, persisted: bool, now: int)
    requires Separate(config) && Plain(config.tenant) && Coherent(config, k) && HeapShaped(config, k)
    ensures HeapShaped(config, SendEvent(config, k, eventType, event, emitted, hash, ref, persisted, now).0)
  {
    hide Shaped, CacheFits, QueueFits, PrepareContext, Pause, SameReads;
    PrepareShaped(config, Context(k), eventType, event, now);
    PrepareReads(config, Context(k), eventType, event, now);
    var k1 := WithContext(k, PrepareContext(config, Context(k), eventType, event, now).0);
    ReplaceContext(config, k, k1);
    var k2 := k1.(eventCount := k1.eventCount + 1);
    assert Coherent(config, k2) && HeapShaped(config, k2);
    ShapedPause(config, k2, hash, ref, persisted, now);
  }

  lemma ShapedInitialize<Ref>(config: Config, k: Kernel<Ref>, result: InitResult, loaded: Fields, ref: Ref)
    requires HeapShaped(config, k) && Shaped(config, loaded)
    ensures HeapShaped(config, Initialize(config, k, result, loaded, ref).0)
  {
    hide Shaped;
  }

  lemma ShapedRecover<Ref>(config: Config, k: Kernel<Ref>, cleaned: bool, result: InitResult, loaded: Fields, ref: Ref)
    requires HeapShaped(config, k) && Shaped(config, loaded)
    ensures HeapShaped(config, Recover(config, k, cleaned, result, loaded, ref).0)
  {
    hide Shaped, Initialize;
    ShapedInitialize(config, k.(hasRuntime := false, status := Initialized), result, loaded, ref);
  }

  lemma ShapedRestart<Ref>(config: Config, k: Kernel<Ref>, cleaned: bool, ref: Ref)
    requires HeapShaped(config, k)
    ensures HeapShaped(config, Reset(k, cleaned, ref).0)
    ensures HeapShaped(config, Cleanup(k, cleaned).0)
    ensures HeapShaped(config, Clear(k, cleaned, ref).0)
  {
    EmptyShaped(config);
    hide Shaped;
  }

  lemma EmptyShaped(config: Config)
    ensures Shaped(config, [])
  {
  }

  lemma ShapedNext<Ref>(config: Config, k: Kernel<Ref>, s: Step<Ref>)
    requires Separate(config) && Plain(config.tenant) && Coherent(config, k) && HeapShaped(config, k)
    requires Admissible(config, k, s) && LoadsPlain(s)
    ensures HeapShaped(config, Next(config, k, s))
  {
    hide GetContext, SetContext, IncrementContext, Flush, Initialize, Pause, SendEvent, Reset, Cleanup, Clear, Recover;
    hide CacheFits, QueueFits, Grown, Quiet, Clean, Plain, Shaped;
    match s
    case DoGet(c, now) => ShapedContextCall(config, k, c, Undefined, now);
    case DoSet(c, v, now) => ShapedContextCall(config, k, c, v, now);
    case DoIncrement(c, plus, now) => ShapedIncrement(config, k, c, plus, now);
    case DoTimer(now) => ShapedFlush(config, k.(timer := Stale), now);
    case DoInitialize(result, loaded, ref) =>
      PlainLoadShaped(config, loaded);
      ShapedInitialize(config, k, result, loaded, ref);
    case DoSend(t, e, emitted, hash, ref, persisted, now) =>
      ShapedSend(config, k, t, e, emitted, hash, ref, persisted, now);
    case DoPause(hash, ref, persisted, now) => ShapedPause(config, k, hash, ref, persisted, now);
    case DoResume(hash) =>
    case DoComplete(now) => ShapedFlush(config, k, now);
    case DoReset(cleaned, ref) =>
      ShapedRestart(config, k, cleaned, ref);
    case DoCleanup(cleaned) =>
      ShapedRestart(config, k, cleaned, k.context);
    case DoClear(cleaned, ref) =>
      ShapedRestart(config, k, cleaned, ref);
    case DoRecover(cleaned, result, loaded, ref) =>
      PlainLoadShaped(config, loaded);
      ShapedRecover(config, k, cleaned, result, loaded, ref);
  }

  /** `setContext` succeeds after every admissible run. */
  lemma {:induction false} SetNeverThrows<Ref>(config: Config, ref: Ref, steps: seq<Step<Ref>>, c: Cell, v: Value,
                                               now: int)
    requires Separate(config) && Plain(config.tenant) && Clean(c)
    requires AdmissibleRun(config, Created(config, ref), steps) && forall s | s in steps :: LoadsPlain(s)
    ensures var k := Run(config, Created(config, ref), steps);
            HeapShaped(config, k) && SetContext(config, k, c, v, now).1 == Done
  {
    hide Next, Admissible, LoadsPlain, Shaped, SetContext, CacheFits, QueueFits;
    if steps == [] {
      EmptyShaped(config);
    } else {
      var before, s := Run(config, Created(config, ref), steps[..|steps| - 1]), steps[|steps| - 1];
      assert s in steps && forall t | t in steps[..|steps| - 1] :: t in steps;
      SetNeverThrows(config, ref, steps[..|steps| - 1], c, v, now);
      CoherentRun(config, ref, steps[..|steps| - 1]);
      ShapedNext(config, before, s);
    }
    ShapedContextCall(config, Run(config, Created(config, ref), steps), c, v, now);
  }
}
