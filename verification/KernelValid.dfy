/** Whatever is stored stays a JavaScript value: objects keep one field per key, through every run; and
    the pause-and-resume round trip from a new kernel on. */
module KernelValid {
  import opened Text
  import opened Json
  import opened Records
  import opened LruCache
  import opened KernelState
  import opened KernelCells
  import opened KernelCoherence
  import opened KernelShape
  import opened KernelPause

  /** An object whose fields are values. */
  predicate Sane(fields: Fields) {
    Distinct(Keys(fields)) && forall f | f in fields :: Valid(f.value)
  }

  ghost predicate HeapSane<Ref>(k: Kernel<Ref>) {
    && WellFormed(k)
    && (forall r | r in k.heap :: Sane(k.heap[r]))
    && forall e | e in k.queue :: Valid(e.value)
  }

  lemma SaneIsValid(fields: Fields)
    ensures Sane(fields) <==> Valid(Obj(fields))
  {
  }

  lemma PutSane(fields: Fields, key: string, v: Value)
    requires Sane(fields) && Valid(v)
    ensures Sane(Put(fields, key, v))
  {
    hide Distinct, Put, Valid;
    PutDistinct(fields, key, v);
    forall f | f in Put(fields, key, v) ensures Valid(f.value) {
      PutField(fields, key, v, f);
    }
  }

  lemma GetSane(fields: Fields, key: string)
    requires Sane(fields)
    ensures Valid(Get(fields, key))
  {
    FieldValid(fields, key);
  }

  lemma EmptySane()
    ensures Sane([])
  {
  }

  // ----- Writing

  lemma WithTenantSane(config: Config, context: Fields, thread: string)
    requires Sane(context)
    ensures Sane(WithTenant(config, context, thread))
  {
    hide Sane, ContextKey, Put;
    EmptySane();
    SaneIsValid([]);
    PutSane(context, ContextKey(config.tenant, thread), Obj([]));
  }

  lemma SpacesSane(fields: Fields, namespace: string, key: string, v: Value)
    requires Sane(fields) && Valid(v)
    ensures Sane(WrittenSpaces(fields, namespace, key, v).0)
  {
    hide Sane, Put, Valid;
    EmptySane();
    SaneIsValid([]);
    PutSane(fields, namespace, Obj([]));
    var spaces := if Falsy(Get(fields, namespace)) then Put(fields, namespace, Obj([])) else fields;
    GetSane(spaces, namespace);
    var space := Get(spaces, namespace);
    if space.Obj? {
      SaneIsValid(space.fields);
      PutSane(space.fields, key, v);
      SaneIsValid(Put(space.fields, key, v));
      PutSane(spaces, namespace, Obj(Put(space.fields, key, v)));
    }
  }

  lemma WriteSane(config: Config, context: Fields, c: Cell, v: Value)
    requires config.isolation && Sane(context) && Valid(v)
    ensures Sane(WriteCell(config, context, c, v).0)
  {
    hide Sane, WriteCell, WithTenant, WrittenSpaces, ContextKey, Valid;
    WriteCellParts(config, context, c, v);
    WithTenantSane(config, context, c.thread);
    var ctx := WithTenant(config, context, c.thread);
    GetSane(ctx, ContextKey(config.tenant, c.thread));
    var tenant := Get(ctx, ContextKey(config.tenant, c.thread));
    if tenant.Obj? {
      SaneIsValid(tenant.fields);
      SpacesSane(tenant.fields, c.namespace, c.key, v);
      var after := WrittenSpaces(tenant.fields, c.namespace, c.key, v).0;
      SaneIsValid(after);
      PutSane(ctx, ContextKey(config.tenant, c.thread), Obj(after));
    }
  }

  lemma NumberSane(now: int)
    ensures Valid(Num(IntText(now)))
  {
  }

  lemma PrepareSane(config: Config, context: Fields, eventType: string, event: Value, now: int)
    requires Sane(context) && Valid(event)
    ensures Sane(PrepareContext(config, context, eventType, event, now).0)
  {
    NumberSane(now);
    hide Sane, Put, IntText;
    var c1 := Put(context, "lastEvent", Str(eventType));
    PutSane(context, "lastEvent", Str(eventType));
    var c2 := Put(c1, "lastEventTime", Num(IntText(now)));
    PutSane(c1, "lastEventTime", Num(IntText(now)));
    GetSane(c2, "eventHistory");
    var history := if Falsy(Get(c2, "eventHistory")) then Arr([]) else Get(c2, "eventHistory");
    PutSane(c2, "eventHistory", history);
    if history.Arr? {
      PutSane(c2, "eventHistory", Arr(history.items + [event]));
    }
  }

  lemma {:induction false} FlushSane(context: Fields, queue: Fields)
    requires Sane(context) && forall e | e in queue :: Valid(e.value)
    ensures Sane(FlushFields(context, queue))
    decreases |queue|
  {
    hide Sane, Put, Valid;
    if queue != [] {
      assert queue[0] in queue && forall e | e in queue[1..] :: e in queue;
      PutSane(context, queue[0].key, queue[0].value);
      FlushSane(Put(context, queue[0].key, queue[0].value), queue[1..]);
    }
  }

  // ----- The JSON copy

  lemma {:induction false} WireValid(v: Value)
    requires Valid(v)
    ensures Wire(v).Some? ==> Valid(Wire(v).value)
    decreases v
  {
    match v
    case Arr(items) => WireItemsValid(v, items);
    case Obj(fields) => WireFieldsSane(v, fields);
    case _ =>
  }

  lemma {:induction false} WireItemsValid(v: Value, items: seq<Value>)
    requires forall x | x in items :: x < v && Valid(x)
    ensures forall x | x in WireItems(items) :: Valid(x)
    decreases v, |items|
  {
    if items != [] {
      assert items[0] in items && forall x | x in items[1..] :: x in items;
      WireValid(items[0]);
      WireItemsValid(v, items[1..]);
    }
  }

  lemma {:induction false} WireKeys(fields: Fields)
    ensures forall k | k in Keys(WireFields(fields)) :: k in Keys(fields)
  {
    hide Wire;
    if fields != [] {
      WireKeys(fields[1..]);
      var w, rest := Wire(fields[0].value), WireFields(fields[1..]);
      if w.Some? {
        assert ([Entry(fields[0].key, w.value)] + rest)[1..] == rest;
      } else {
        assert [] + rest == rest;
      }
    }
  }

  lemma ConsSane(f: Entry<Value>, rest: Fields)
    requires Sane(rest) && Valid(f.value) && f.key !in Keys(rest)
    ensures Sane([f] + rest)
  {
    hide Valid;
    var keys := Keys(rest);
    assert ([f] + rest)[1..] == rest && Keys([f] + rest) == [f.key] + keys;
    forall i, j | 0 <= i < j < |[f.key] + keys| ensures ([f.key] + keys)[i] != ([f.key] + keys)[j] {
      if i == 0 { assert ([f.key] + keys)[j] == keys[j - 1]; }
    }
  }

  lemma {:induction false} WireFieldsSane(v: Value, fields: Fields)
    requires Sane(fields) && forall f | f in fields :: f.value < v
    ensures Sane(WireFields(fields))
    decreases v, |fields|
  {
    if fields != [] {
      var f, rest := fields[0], fields[1..];
      assert f in fields && forall g | g in rest :: g in fields;
      DistinctRest(fields);
      WireValid(f.value);
      WireFieldsSane(v, rest);
      hide Sane, Valid, Distinct;
      WireKeys(rest);
      LookupKeys(rest, f.key);
      var w := Wire(f.value);
      if w.Some? {
        ConsSane(Entry(f.key, w.value), WireFields(rest));
      } else {
        assert WireFields(fields) == [] + WireFields(rest) == WireFields(rest);
      }
    }
  }

  // ----- Steps

  /** The values a step brings in are JavaScript values. */
  predicate Brings<Ref>(k: Kernel<Ref>, config: Config, s: Step<Ref>)
    requires WellFormed(k)
  {
    match s
    case DoSet(_, v, _) => Valid(v)
    case DoIncrement(c, plus, now) => Valid(plus(GetContext(config, k, c, now).1))
    case DoInitialize(_, loaded, _) => Sane(loaded)
    case DoSend(_, event, _, _, _, _, _) => Valid(event)
    case DoRecover(_, _, loaded, _) => Sane(loaded)
    case _ => true
  }

  lemma WithContextSane<Ref>(k: Kernel<Ref>, context: Fields)
    requires HeapSane(k) && Sane(context)
    ensures HeapSane(WithContext(k, context))
  {
    hide Sane, Valid;
  }

  lemma GetContextSane<Ref>(config: Config, k: Kernel<Ref>, c: Cell, now: int)
    requires HeapSane(k)
    ensures HeapSane(GetContext(config, k, c, now).0)
  {
    hide Sane, Valid, WithTenant, ReadCell, CacheKey, CacheSet, Apply;
    WithTenantSane(config, Context(k), c.thread);
    WithContextSane(k, WithTenant(config, Context(k), c.thread));
  }

  lemma SetContextSane<Ref>(config: Config, k: Kernel<Ref>, c: Cell, v: Value, now: int)
    requires config.isolation && HeapSane(k) && Valid(v)
    ensures HeapSane(SetContext(config, k, c, v, now).0)
  {
    hide Sane, Valid, WriteCell, CacheKey, CacheSet, Put;
    WriteSane(config, Context(k), c, v);
    var k1 := WithContext(k, WriteCell(config, Context(k), c, v).0);
    WithContextSane(k, WriteCell(config, Context(k), c, v).0);
    var key := CacheKey(config.tenant, c);
    forall e | e in Put(k.queue, key, v) ensures Valid(e.value) {
      PutField(k.queue, key, v, e);
    }
  }

  lemma FlushHeapSane<Ref>(k: Kernel<Ref>, now: int)
    requires HeapSane(k)
    ensures HeapSane(Flush(k, now))
  {
    hide Sane, Valid, FlushFields, FlushCache;
    if k.queue != [] {
      FlushSane(Context(k), k.queue);
    }
  }

  lemma PauseSane<Ref>(k: Kernel<Ref>, hash: string, ref: Ref, persisted: bool, now: int)
    requires HeapSane(k)
    ensures HeapSane(Pause(k, hash, ref, persisted, now).0)
  {
    FlushHeapSane(k, now);
    hide Sane, Valid, Flush, WireFields;
    var k1 := Flush(k, now);
    assert Sane(WireFields(Context(k1))) by { CopySane(Context(k1)); }
  }

  lemma CopySane(fields: Fields)
    requires Sane(fields)
    ensures Sane(WireFields(fields))
  {
    WireFieldsSane(Obj(fields), fields);
  }

  lemma SendSane<Ref>(config: Config, k: Kernel<Ref>, eventType: string, event: Value, emitted: bool, hash: string,
                      ref: Ref, persisted: bool, now: int)
    requires HeapSane(k) && Valid(event)
    ensures HeapSane(SendEvent(config, k, eventType, event, emitted, hash, ref, persisted, now).0)
  {
    hide Sane, Valid, PrepareContext, Pause;
    PrepareSane(config, Context(k), eventType, event, now);
    var context := PrepareContext(config, Context(k), eventType, event, now).0;
    WithContextSane(k, context);
    var k1 := WithContext(k, context);
    PauseSane(k1.(eventCount := k1.eventCount + 1), hash, ref, persisted, now);
  }

  lemma InitializeSane<Ref>(config: Config, k: Kernel<Ref>, result: InitResult, loaded: Fields, ref: Ref)
    requires HeapSane(k) && Sane(loaded)
    ensures HeapSane(Initialize(config, k, result, loaded, ref).0)
  {
    hide Sane, Valid;
  }

  lemma RecoverSane<Ref>(config: Config, k: Kernel<Ref>, cleaned: bool, result: InitResult, loaded: Fields, ref: Ref)
    requires HeapSane(k) && Sane(loaded)
    ensures HeapSane(Recover(config, k, cleaned, result, loaded, ref).0)
  {
    hide Sane, Valid, Initialize;
    InitializeSane(config, k.(hasRuntime := false, status := Initialized), result, loaded, ref);
  }

  lemma ResetSane<Ref>(k: Kernel<Ref>, cleaned: bool, ref: Ref, now: int)
    requires HeapSane(k)
    ensures HeapSane(Reset(k, cleaned, ref).0) && HeapSane(Cleanup(k, cleaned).0)
    ensures HeapSane(Clear(k, cleaned, ref).0)
  {
    EmptySane();
    hide Sane, Valid;
  }

  lemma SaneNext<Ref>(config: Config, k: Kernel<Ref>, s: Step<Ref>)
    requires config.isolation && HeapSane(k) && Brings(k, config, s)
    ensures HeapSane(Next(config, k, s))
  {
    hide GetContext, SetContext, Flush, Initialize, Pause, SendEvent, Reset, Cleanup, Clear, Recover;
    hide Sane, Valid, Grown;
    match s
    case DoGet(c, now) => GetContextSane(config, k, c, now);
    case DoSet(c, v, now) => SetContextSane(config, k, c, v, now);
    case DoIncrement(c, plus, now) =>
      GetContextSane(config, k, c, now);
      var (k1, current) := GetContext(config, k, c, now);
      SetContextSane(config, k1, c, plus(current), now);
    case DoTimer(now) => FlushHeapSane(k.(timer := Stale), now);
    case DoInitialize(result, loaded, ref) => InitializeSane(config, k, result, loaded, ref);
    case DoSend(t, e, emitted, hash, ref, persisted, now) =>
      SendSane(config, k, t, e, emitted, hash, ref, persisted, now);
    case DoPause(hash, ref, persisted, now) => PauseSane(k, hash, ref, persisted, now);
    case DoResume(hash) =>
    case DoComplete(now) => FlushHeapSane(k, now);
    case DoReset(cleaned, ref) => ResetSane(k, cleaned, ref, 0);
    case DoCleanup(cleaned) => ResetSane(k, cleaned, k.context, 0);
    case DoClear(cleaned, ref) => ResetSane(k, cleaned, ref, 0);
    case DoRecover(cleaned, result, loaded, ref) => RecoverSane(config, k, cleaned, result, loaded, ref);
  }

  predicate BringsRun<Ref>(config: Config, k: Kernel<Ref>, steps: seq<Step<Ref>>)
    requires WellFormed(k)
  {
    steps == []
    || (BringsRun(config, k, steps[..|steps| - 1])
        && Brings(Run(config, k, steps[..|steps| - 1]), config, steps[|steps| - 1]))
  }

  lemma {:induction false} SaneRun<Ref>(config: Config, ref: Ref, steps: seq<Step<Ref>>)
    requires config.isolation && BringsRun(config, Created(config, ref), steps)
    ensures HeapSane(Run(config, Created(config, ref), steps))
  {
    hide Next, Brings, Sane, Valid;
    if steps == [] {
      EmptySane();
    } else {
      SaneRun(config, ref, steps[..|steps| - 1]);
      SaneNext(config, Run(config, Created(config, ref), steps[..|steps| - 1]), steps[|steps| - 1]);
    }
  }

  // ----- From a new kernel to the resume

  /** Any admissible run of a new kernel that leaves it running, a pause, any run that spares the snapshot
      and leaves the kernel paused, and the resume: the event count is back, and every cell reads as the
      JSON copy of what was stored when `pause` was called, which is that very value if it is JSON. */
  lemma PauseResumeRun<Ref>(config: Config, first: Ref, before: seq<Step<Ref>>, hash: string, ref: Ref, now: int,
                            between: seq<Step<Ref>>, c: Cell, later: int)
    requires Separate(config) && Plain(config.tenant) && Clean(c)
    requires AdmissibleRun(config, Created(config, first), before) && BringsRun(config, Created(config, first), before)
    requires var k := Run(config, Created(config, first), before);
             var paused := Pause(k, hash, ref, true, now).0;
             && k.status == Running && ref !in k.heap
             && FreshRun(config, paused, between) && (forall s | s in between :: Spares(s, hash))
             && Run(config, paused, between).status == Paused
    ensures var k := Run(config, Created(config, first), before);
            var (after, outcome) := Resume(Run(config, Pause(k, hash, ref, true, now).0, between), hash);
            var stored := ReadCell(config, Context(k), c);
            && outcome == Done && after.status == Running && after.eventCount == k.eventCount
            && GetContext(config, after, c, later).1 == Copied(stored)
            && (IsJson(stored) ==> GetContext(config, after, c, later).1 == stored)
  {
    hide Run, Pause, Resume, FreshRun, Spares, Coherent, ReadCell, GetContext, Copied, Flush, Valid, Sane;
    var k := Run(config, Created(config, first), before);
    CoherentRun(config, first, before);
    SaneRun(config, first, before);
    FlushHeapSane(k, now);
    SaneIsValid(Context(Flush(k, now)));
    PauseResume(config, k, hash, ref, now, between, c, later);
  }
}
