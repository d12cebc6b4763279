/** Coherence of the context cache with the store behind the write-behind queue, over every run. */
module KernelCoherence {
  import opened Text
  import opened Json
  import opened Records
  import opened LruCache
  import opened KernelState
  import opened KernelCells

  // ----- The invariant

  /** `v` is the stored value of the cell that `key` names. */
  ghost predicate Fits(config: Config, context: Fields, key: string, v: Value) {
    forall c: Cell | Clean(c) && CacheKey(config.tenant, c) == key :: v == ReadCell(config, context, c)
  }

  ghost predicate NamesCell(config: Config, key: string) {
    exists c: Cell :: Clean(c) && CacheKey(config.tenant, c) == key
  }

  /** Each cached value is the stored one, or its key is queued. */
  ghost predicate CacheFits(config: Config, context: Fields, cache: seq<Slot<Value>>, queue: Fields) {
    && UniqueKeys(cache)
    && forall s | s in cache :: Fits(config, context, s.key, s.value) || s.key in Keys(queue)
  }

  /** Each queued value is the stored one. */
  ghost predicate QueueFits(config: Config, context: Fields, queue: Fields) {
    && Distinct(Keys(queue))
    && forall e | e in queue :: Fits(config, context, e.key, e.value) && NamesCell(config, e.key)
  }

  ghost predicate Coherent<Ref>(config: Config, k: Kernel<Ref>) {
    && WellFormed(k)
    && CacheFits(config, Context(k), k.cache, k.queue)
    && QueueFits(config, Context(k), k.queue)
    && (!config.batching ==> k.queue == [])
  }

  /** Without lazy loading nothing is cached before `initialize` replaces the context. */
  predicate Quiet<Ref>(config: Config, k: Kernel<Ref>) {
    k.status == Initialized && !config.lazyLoading ==> k.cache == [] && k.queue == []
  }

  /** Calls with plain identifiers, no context call before an `initialize` that replaces the context, and
      no recovery that replaces it under a filled cache. */
  predicate Admissible<Ref>(config: Config, k: Kernel<Ref>, s: Step<Ref>) {
    && Fresh(k, s)
    && match s
       case DoGet(c, _) => Clean(c) && (k.status == Initialized ==> config.lazyLoading)
       case DoSet(c, _, _) => Clean(c) && (k.status == Initialized ==> config.lazyLoading)
       case DoIncrement(c, _, _) => Clean(c) && (k.status == Initialized ==> config.lazyLoading)
       case DoRecover(_, _, _, _) => config.lazyLoading || (k.cache == [] && k.queue == [])
       case _ => true
  }

  // ----- The cache's entries

  lemma GetMembers(cache: seq<Slot<Value>>, key: string, now: int)
    requires UniqueKeys(cache)
    ensures var after := Apply(cache, CACHE_SIZE, GetOp(key), now).0;
            UniqueKeys(after)
            && forall s | s in after :: exists t | t in cache :: t.key == s.key && t.value == s.value
  {
    var i := Index(cache, key);
    if i < |cache| {
      var s := Slot(key, cache[i].value, now);
      UpdateUnique(cache, i, s);
      forall x | x in cache[i := s] ensures exists t | t in cache :: t.key == x.key && t.value == x.value {
        if x == s { assert cache[i] in cache; }
      }
    }
  }

  lemma SetMembers(cache: seq<Slot<Value>>, key: string, v: Value, now: int)
    requires UniqueKeys(cache)
    ensures UniqueKeys(CacheSet(cache, key, v, now))
    ensures forall s | s in CacheSet(cache, key, v, now) ::
              (s.key == key && s.value == v) || (s in cache && s.key != key)
  {
    hide Evicted, DropAt;
    var i, slot := Index(cache, key), Slot(key, v, now);
    if i < |cache| {
      UpdateUnique(cache, i, slot);
      forall x | x in cache[i := slot] ensures x == slot || (x in cache && x.key != key) {
        UpdateMembers(cache, i, slot, x);
        DropAtMembers(cache, i, x);
      }
    } else {
      var room := if |cache| >= CACHE_SIZE then Evicted(cache) else cache;
      EvictedMembers(cache);
      assert forall x | x in cache :: x.key != key;
      AppendUnique(room, slot);
    }
  }

  /** Eviction only forgets. */
  lemma EvictedMembers(cache: seq<Slot<Value>>)
    requires UniqueKeys(cache)
    ensures UniqueKeys(Evicted(cache)) && forall s | s in Evicted(cache) :: s in cache
  {
    if cache != [] {
      WithoutMembers(cache, cache[Oldest(cache)].key);
    }
  }

  lemma AppendUnique(slots: seq<Slot<Value>>, s: Slot<Value>)
    requires UniqueKeys(slots) && forall x | x in slots :: x.key != s.key
    ensures UniqueKeys(slots + [s])
  {
    forall i, j | 0 <= i < j < |slots + [s]| ensures (slots + [s])[i].key != (slots + [s])[j].key {
      if j == |slots| { assert slots[i] in slots; }
    }
  }

  lemma KeyOfMember(fields: Fields, e: Entry<Value>)
    requires e in fields
    ensures e.key in Keys(fields)
  {
    if fields[0] != e { KeyOfMember(fields[1..], e); }
  }

  /** The fields of an object after an assignment. */
  lemma PutMembers(fields: Fields, key: string, v: Value)
    requires Distinct(Keys(fields))
    ensures forall e | e in Put(fields, key, v) :: e == Entry(key, v) || (e in fields && e.key != key)
    ensures forall k :: k in Keys(Put(fields, key, v)) <==> k == key || k in Keys(fields)
  {
    forall e | e in Put(fields, key, v) ensures e == Entry(key, v) || (e in fields && e.key != key) {
      PutMember(fields, key, v, e);
    }
    forall k ensures k in Keys(Put(fields, key, v)) <==> k == key || k in Keys(fields) {
      LookupKeys(fields, k);
      LookupKeys(Put(fields, key, v), k);
    }
  }

  lemma {:induction false} PutMember(fields: Fields, key: string, v: Value, e: Entry<Value>)
    requires Distinct(Keys(fields)) && e in Put(fields, key, v)
    ensures e == Entry(key, v) || (e in fields && e.key != key)
  {
    if fields != [] {
      DistinctRest(fields);
      if fields[0].key == key {
        if e in fields[1..] {
          KeyOfMember(fields[1..], e);
          LookupKeys(fields[1..], key);
        }
      } else if e != fields[0] {
        PutMember(fields[1..], key, v, e);
      }
    }
  }

  // ----- Contexts that read alike

  lemma FitsAlike(config: Config, a: Fields, b: Fields)
    requires SameReads(config, a, b)
    ensures forall key, v :: Fits(config, a, key, v) <==> Fits(config, b, key, v)
  {
    hide ReadCell, CacheKey;
  }

  lemma ReplaceContext<Ref>(config: Config, k: Kernel<Ref>, r: Kernel<Ref>)
    requires Coherent(config, k) && WellFormed(r)
    requires SameReads(config, Context(k), Context(r)) && r.cache == k.cache && r.queue == k.queue
    ensures Coherent(config, r)
  {
    hide SameReads, Fits;
    FitsAlike(config, Context(k), Context(r));
  }

  lemma ClearedCoherent<Ref>(config: Config, k: Kernel<Ref>)
    requires WellFormed(k) && k.cache == [] && k.queue == []
    ensures Coherent(config, k)
  {
  }

  // ----- Context calls

  /** Caching the stored value of a cell. */
  lemma CacheStored(config: Config, context: Fields, cache: seq<Slot<Value>>, queue: Fields, c: Cell, now: int)
    requires Plain(config.tenant) && Clean(c)
    requires CacheFits(config, context, cache, queue)
    ensures var after := CacheSet(cache, CacheKey(config.tenant, c), ReadCell(config, context, c), now);
            CacheFits(config, context, after, queue)
  {
    hide ReadCell, CacheKey, CacheSet, UniqueKeys, Keys;
    SetMembers(cache, CacheKey(config.tenant, c), ReadCell(config, context, c), now);
    StoredFits(config, context, c);
  }

  lemma StoredFits(config: Config, context: Fields, c: Cell)
    requires Plain(config.tenant) && Clean(c)
    ensures Fits(config, context, CacheKey(config.tenant, c), ReadCell(config, context, c))
  {
    hide ReadCell, CacheKey;
    forall d: Cell | Clean(d) && CacheKey(config.tenant, d) == CacheKey(config.tenant, c) ensures d == c {
      CacheKeyInjective(config.tenant, d, c);
    }
  }

  lemma CoherentGet<Ref>(config: Config, k: Kernel<Ref>, c: Cell, now: int)
    requires Plain(config.tenant) && Clean(c) && Coherent(config, k)
    ensures Coherent(config, GetContext(config, k, c, now).0)
  {
    hide ReadCell, WithTenant, CacheKey, CacheSet, Apply, SameReads, Fits, NamesCell, UniqueKeys, Keys;
    var k1 := WithContext(k, WithTenant(config, Context(k), c.thread));
    WithTenantReads(config, Context(k), c.thread);
    ReplaceContext(config, k, k1);
    GetMembers(k.cache, CacheKey(config.tenant, c), now);
    CacheStored(config, Context(k1), k.cache, k.queue, c, now);
  }

  /** What still fits after a write: everything but the written cell's own key. */
  lemma FitsUpdated(config: Config, a: Fields, b: Fields, c: Cell, v: Value, key: string, w: Value)
    requires Updates(config, a, b, c, v) && key != CacheKey(config.tenant, c)
    requires Fits(config, a, key, w)
    ensures Fits(config, b, key, w)
  {
    hide ReadCell, CacheKey;
  }

  lemma CacheWritten(config: Config, a: Fields, b: Fields, cache: seq<Slot<Value>>, c: Cell, v: Value, now: int)
    requires Plain(config.tenant) && Clean(c) && Updates(config, a, b, c, v)
    requires CacheFits(config, a, cache, [])
    ensures CacheFits(config, b, CacheSet(cache, CacheKey(config.tenant, c), v, now), [])
  {
    hide ReadCell, CacheKey, CacheSet, UniqueKeys, Fits, Updates;
    var key := CacheKey(config.tenant, c);
    SetMembers(cache, key, v, now);
    assert ReadCell(config, b, c) == v by { UpdatedRead(config, a, b, c, v); }
    StoredFits(config, b, c);
    forall s | s in CacheSet(cache, key, v, now) ensures Fits(config, b, s.key, s.value) {
      if s.key != key { FitsUpdated(config, a, b, c, v, s.key, s.value); }
    }
  }

  lemma UpdatedRead(config: Config, a: Fields, b: Fields, c: Cell, v: Value)
    requires Updates(config, a, b, c, v)
    ensures ReadCell(config, b, c) == v
  {
  }

  /** Queueing a written value; what the cache holds for its key no longer matters. */
  lemma QueueWritten(config: Config, a: Fields, b: Fields, cache: seq<Slot<Value>>, queue: Fields, c: Cell, v: Value)
    requires Plain(config.tenant) && Clean(c) && Updates(config, a, b, c, v)
    requires CacheFits(config, a, cache, queue) && QueueFits(config, a, queue)
    ensures var queued := Put(queue, CacheKey(config.tenant, c), v);
            CacheFits(config, b, cache, queued) && QueueFits(config, b, queued)
  {
    hide ReadCell, CacheKey, UniqueKeys, Fits, Updates, Keys, Distinct, NamesCell, Put;
    var key := CacheKey(config.tenant, c);
    var queued := Put(queue, key, v);
    PutMembers(queue, key, v);
    PutDistinct(queue, key, v);
    UpdatedRead(config, a, b, c, v);
    StoredFits(config, b, c);
    NamedCell(config, c);
    forall s | s in cache ensures Fits(config, b, s.key, s.value) || s.key in Keys(queued) {
      if s.key !in Keys(queued) { FitsUpdated(config, a, b, c, v, s.key, s.value); }
    }
    forall e | e in queued ensures Fits(config, b, e.key, e.value) && NamesCell(config, e.key) {
      if e.key != key { FitsUpdated(config, a, b, c, v, e.key, e.value); }
    }
  }

  lemma NamedCell(config: Config, c: Cell)
    requires Clean(c)
    ensures NamesCell(config, CacheKey(config.tenant, c))
  {
  }

  lemma CoherentSet<Ref>(config: Config, k: Kernel<Ref>, c: Cell, v: Value, now: int)
    requires config.isolation && Plain(config.tenant) && Clean(c) && Coherent(config, k)
    ensures Coherent(config, SetContext(config, k, c, v, now).0)
  {
    hide ReadCell, WriteCell, CacheKey, CacheSet, Updates, SameReads, CacheFits, QueueFits, Put, Grown;
    WriteCellReads(config, Context(k), c, v);
    var (context, outcome) := WriteCell(config, Context(k), c, v);
    if outcome == Threw {
      ReplaceContext(config, k, WithContext(k, context));
    } else if config.batching {
      QueueWritten(config, Context(k), context, k.cache, k.queue, c, v);
    } else {
      CacheWritten(config, Context(k), context, k.cache, c, v, now);
      EmptyQueueFits(config, context);
    }
  }

  lemma EmptyQueueFits(config: Config, context: Fields)
    ensures QueueFits(config, context, [])
  {
  }

  lemma CoherentIncrement<Ref>(config: Config, k: Kernel<Ref>, c: Cell, plus: Value -> Value, now: int)
    requires config.isolation && Plain(config.tenant) && Clean(c) && Coherent(config, k)
    ensures Coherent(config, IncrementContext(config, k, c, plus, now).0)
  {
    hide GetContext, SetContext, Coherent;
    CoherentIsWellFormed(config, k);
    CoherentGet(config, k, c, now);
    var (k1, current) := GetContext(config, k, c, now);
    CoherentSet(config, k1, c, plus(current), now);
  }

  lemma CoherentIsWellFormed<Ref>(config: Config, k: Kernel<Ref>)
    requires Coherent(config, k)
    ensures WellFormed(k)
  {
  }

  // ----- Flushing

  /** Where flushed updates cannot touch a tenant's record. */
  predicate Separate(config: Config) {
    config.isolation && (!config.batching || config.tenant != "tenant")
  }

  /** The flush writes beside the cells. */
  lemma {:induction false} FlushReads(config: Config, context: Fields, queue: Fields)
    requires config.isolation && config.tenant != "tenant" && Plain(config.tenant)
    requires forall e | e in queue :: NamesCell(config, e.key)
    ensures SameReads(config, context, FlushFields(context, queue))
    decreases |queue|
  {
    hide ReadCell, CacheKey, ContextKey, Put, NamesCell;
    if queue != [] {
      var e := queue[0];
      assert e in queue && forall x | x in queue[1..] :: x in queue;
      NamesNoRecord(config, e.key);
      PutElsewhere(config, context, e.key, e.value);
      FlushReads(config, Put(context, e.key, e.value), queue[1..]);
    }
  }

  lemma NamesNoRecord(config: Config, key: string)
    requires config.tenant != "tenant" && Plain(config.tenant) && NamesCell(config, key)
    ensures forall thread: string | Plain(thread) :: key != ContextKey(config.tenant, thread)
  {
    hide CacheKey, ContextKey;
    var c: Cell :| Clean(c) && CacheKey(config.tenant, c) == key;
    forall thread: string | Plain(thread) ensures key != ContextKey(config.tenant, thread) {
      CacheKeyIsNoContextKey(config.tenant, c, thread);
    }
  }

  /** Emptying the queue into the cache leaves nothing stale. */
  lemma {:induction false} FlushCacheFits(config: Config, context: Fields, cache: seq<Slot<Value>>, queue: Fields,
                                          now: int)
    requires CacheFits(config, context, cache, queue) && QueueFits(config, context, queue)
    ensures CacheFits(config, context, FlushCache(cache, queue, now), [])
    decreases |queue|
  {
    hide Fits, NamesCell, CacheSet, UniqueKeys;
    if queue != [] {
      var e, rest := queue[0], queue[1..];
      assert e in queue && forall x | x in rest :: x in queue;
      var next := CacheSet(cache, e.key, e.value, now);
      DistinctRest(queue);
      SetMembers(cache, e.key, e.value, now);
      assert forall s | s in next :: Fits(config, context, s.key, s.value) || s.key in Keys(rest);
      FlushCacheFits(config, context, next, rest, now);
    }
  }

  lemma CoherentFlush<Ref>(config: Config, k: Kernel<Ref>, now: int)
    requires Separate(config) && Plain(config.tenant) && Coherent(config, k)
    ensures Coherent(config, Flush(k, now)) && Flush(k, now).queue == []
    ensures SameReads(config, Context(k), Context(Flush(k, now)))
  {
    if k.queue != [] {
      hide ReadCell, SameReads, CacheFits, NamesCell, Fits;
      var context := FlushFields(Context(k), k.queue);
      FlushReads(config, Context(k), k.queue);
      FlushCacheFits(config, Context(k), k.cache, k.queue, now);
      FlushedAlike(config, Context(k), context, FlushCache(k.cache, k.queue, now));
    }
  }

  lemma FlushedAlike(config: Config, a: Fields, b: Fields, cache: seq<Slot<Value>>)
    requires SameReads(config, a, b) && CacheFits(config, a, cache, [])
    ensures CacheFits(config, b, cache, [])
  {
    hide SameReads, Fits;
    FitsAlike(config, a, b);
  }

  // ----- Lifecycle calls

  lemma CoherentPause<Ref>(config: Config, k: Kernel<Ref>, hash: string, ref: Ref, persisted: bool, now: int)
    requires Separate(config) && Plain(config.tenant) && Coherent(config, k) && ref !in k.heap
    ensures Coherent(config, Pause(k, hash, ref, persisted, now).0)
  {
    hide CacheFits, QueueFits, FlushFields, FlushCache, WireFields, SameReads, Flush;
    CoherentFlush(config, k, now);
    assert Flush(k, now).heap.Keys == k.heap.Keys by { FlushHeap(k, now); }
  }

  lemma FlushHeap<Ref>(k: Kernel<Ref>, now: int)
    requires WellFormed(k)
    ensures Flush(k, now).heap.Keys == k.heap.Keys && Flush(k, now).context == k.context
  {
  }

  lemma PrepareReads(config: Config, context: Fields, eventType: string, event: Value, now: int)
    requires config.isolation && Plain(config.tenant)
    ensures SameReads(config, context, PrepareContext(config, context, eventType, event, now).0)
  {
    hide SameReads, ReadCell, ContextKey, Put, Get, IntText;
    var c1 := Put(context, "lastEvent", Str(eventType));
    var c2 := Put(c1, "lastEventTime", Num(IntText(now)));
    PlainElsewhere(config, context, "lastEvent", Str(eventType));
    PlainElsewhere(config, c1, "lastEventTime", Num(IntText(now)));
    SameReadsChain(config, context, c1, c2);
    var after := PrepareContext(config, context, eventType, event, now).0;
    if !config.lazyLoading {
      var v: Value :| after == Put(c2, "eventHistory", v);
      PlainElsewhere(config, c2, "eventHistory", v);
      SameReadsChain(config, context, c2, after);
    }
  }

  lemma PlainElsewhere(config: Config, context: Fields, key: string, v: Value)
    requires config.isolation && Plain(config.tenant) && Plain(key)
    ensures SameReads(config, context, Put(context, key, v))
  {
    hide ReadCell, ContextKey;
    forall thread: string | Plain(thread) ensures key != ContextKey(config.tenant, thread) {
      PlainIsNoContextKey(config.tenant, thread, key);
    }
    PutElsewhere(config, context, key, v);
  }

  lemma SameReadsChain(config: Config, a: Fields, b: Fields, c: Fields)
    requires SameReads(config, a, b) && SameReads(config, b, c)
    ensures SameReads(config, a, c)
  {
    hide ReadCell;
  }

  lemma CoherentSend<Ref>(config: Config, k: Kernel<Ref>, eventType: string, event: Value, emitted: bool, hash: string,
                          ref: Ref, persisted: bool, now: int)
    requires Separate(config) && Plain(config.tenant) && Coherent(config, k) && ref !in k.heap
    ensures Coherent(config, SendEvent(config, k, eventType, event, emitted, hash, ref, persisted, now).0)
  {
    hide CacheFits, QueueFits, PrepareContext, SameReads, Pause;
    var (context, outcome) := PrepareContext(config, Context(k), eventType, event, now);
    var k1 := WithContext(k, context);
    PrepareReads(config, Context(k), eventType, event, now);
    ReplaceContext(config, k, k1);
    var k2 := k1.(eventCount := k1.eventCount + 1);
    assert Coherent(config, k2);
    CoherentPause(config, k2, hash, ref, persisted, now);
  }

  lemma CoherentInitialize<Ref>(config: Config, k: Kernel<Ref>, result: InitResult, loaded: Fields, ref: Ref)
    requires Coherent(config, k) && Quiet(config, k)
    ensures Coherent(config, Initialize(config, k, result, loaded, ref).0)
  {
    hide CacheFits, QueueFits;
    var r := Initialize(config, k, result, loaded, ref).0;
    if k.cache == [] && k.queue == [] {
      ClearedCoherent(config, r);
    }
  }

  lemma CoherentComplete<Ref>(config: Config, k: Kernel<Ref>, now: int)
    requires Coherent(config, k)
    ensures Coherent(config, Complete(k, now))
  {
    hide CacheFits, QueueFits, Flush;
    if k.status != Completed {
      ClearedCoherent(config, Complete(k, now));
    }
  }

  lemma CoherentReset<Ref>(config: Config, k: Kernel<Ref>, cleaned: bool, ref: Ref)
    requires Coherent(config, k)
    ensures Coherent(config, Reset(k, cleaned, ref).0)
    ensures Coherent(config, Cleanup(k, cleaned).0)
    ensures Coherent(config, Clear(k, cleaned, ref).0)
  {
    hide CacheFits, QueueFits;
    ClearedCoherent(config, Reset(k, cleaned, ref).0);
    if !k.hasRuntime || cleaned {
      ClearedCoherent(config, Cleanup(k, cleaned).0);
      ClearedCoherent(config, Clear(k, cleaned, ref).0);
    }
  }

  lemma CoherentRecover<Ref>(config: Config, k: Kernel<Ref>, cleaned: bool, result: InitResult, loaded: Fields,
                             ref: Ref)
    requires Coherent(config, k) && (config.lazyLoading || (k.cache == [] && k.queue == []))
    ensures Coherent(config, Recover(config, k, cleaned, result, loaded, ref).0)
  {
    hide CacheFits, QueueFits, Initialize;
    var k1 := k.(hasRuntime := false, status := Initialized);
    assert Coherent(config, k1);
    CoherentInitialize(config, k1, result, loaded, ref);
  }

  // ----- Runs

  /** Every admissible step keeps the cache coherent. */
  lemma CoherentNext<Ref>(config: Config, k: Kernel<Ref>, s: Step<Ref>)
    requires Separate(config) && Plain(config.tenant)
    requires Coherent(config, k) && Quiet(config, k) && Admissible(config, k, s)
    ensures Coherent(config, Next(config, k, s))
  {
    hide GetContext, SetContext, IncrementContext, Flush, Initialize, Pause, SendEvent, Reset, Cleanup, Clear, Recover;
    hide Complete;
    hide CacheFits, QueueFits, Grown, Quiet, Clean, Plain;
    match s
    case DoGet(c, now) => CoherentGet(config, k, c, now);
    case DoSet(c, v, now) => CoherentSet(config, k, c, v, now);
    case DoIncrement(c, plus, now) => CoherentIncrement(config, k, c, plus, now);
    case DoTimer(now) =>
      assert Coherent(config, k.(timer := Stale));
      CoherentFlush(config, k.(timer := Stale), now);
    case DoInitialize(result, loaded, ref) => CoherentInitialize(config, k, result, loaded, ref);
    case DoSend(t, e, emitted, hash, ref, persisted, now) =>
      CoherentSend(config, k, t, e, emitted, hash, ref, persisted, now);
    case DoPause(hash, ref, persisted, now) => CoherentPause(config, k, hash, ref, persisted, now);
    case DoResume(hash) =>
      var r := Resume(k, hash).0;
      if r != k { ClearedCoherent(config, r); }
    case DoComplete(now) =>
      CoherentComplete(config, k, now);
    case DoReset(cleaned, ref) => CoherentReset(config, k, cleaned, ref);
    case DoCleanup(cleaned) => CoherentReset(config, k, cleaned, k.context);
    case DoClear(cleaned, ref) => CoherentReset(config, k, cleaned, ref);
    case DoRecover(cleaned, result, loaded, ref) => CoherentRecover(config, k, cleaned, result, loaded, ref);
  }

  lemma QuietNext<Ref>(config: Config, k: Kernel<Ref>, s: Step<Ref>)
    requires WellFormed(k) && Quiet(config, k) && Admissible(config, k, s)
    ensures Quiet(config, Next(config, k, s))
  {
    hide WriteCell, WithTenant, ReadCell, FlushFields, FlushCache, CacheSet, PrepareContext, WireFields, Apply, Index;
    hide CacheKey, WellFormed, Grown, Put, Clean, Fresh;
  }

  predicate AdmissibleRun<Ref>(config: Config, k: Kernel<Ref>, steps: seq<Step<Ref>>)
    requires WellFormed(k)
  {
    steps == []
    || (AdmissibleRun(config, k, steps[..|steps| - 1])
        && Admissible(config, Run(config, k, steps[..|steps| - 1]), steps[|steps| - 1]))
  }

  lemma {:induction false} CoherentRun<Ref>(config: Config, ref: Ref, steps: seq<Step<Ref>>)
    requires Separate(config) && Plain(config.tenant)
    requires AdmissibleRun(config, Created(config, ref), steps)
    ensures var k := Run(config, Created(config, ref), steps); Coherent(config, k) && Quiet(config, k)
  {
    hide Next, Admissible, CacheFits, QueueFits;
    if steps == [] {
      ClearedCoherent(config, Created(config, ref));
    } else {
      var before := Run(config, Created(config, ref), steps[..|steps| - 1]);
      CoherentRun(config, ref, steps[..|steps| - 1]);
      CoherentNext(config, before, steps[|steps| - 1]);
      QuietNext(config, before, steps[|steps| - 1]);
    }
  }
}
