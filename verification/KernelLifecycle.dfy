/** Lifecycle safety over whole runs: status and runtime never disagree, the cache stays within its
    capacity, when the event quota holds, and when the debounce timer is there to flush the queue. */
module KernelLifecycle {
  import opened Json
  import opened Records
  import opened LruCache
  import opened KernelState

  /** A context call or the debounce timer. */
  predicate ContextCall<Ref>(s: Step<Ref>) {
    s.DoGet? || s.DoSet? || s.DoIncrement? || s.DoTimer?
  }

  /** The parts of the kernel that context calls leave alone. */
  predicate SameLifecycle<Ref>(k: Kernel<Ref>, r: Kernel<Ref>) {
    && r.status == k.status && r.hasRuntime == k.hasRuntime
    && r.eventCount == k.eventCount && r.snapshots == k.snapshots
  }

  lemma GetFrame<Ref>(config: Config, k: Kernel<Ref>, c: Cell, now: int)
    requires WellFormed(k)
    ensures SameLifecycle(k, GetContext(config, k, c, now).0)
  {
    hide WithTenant, ReadCell, CacheSet, CacheKey, Apply, Index, Grown;
  }

  lemma SetFrame<Ref>(config: Config, k: Kernel<Ref>, c: Cell, v: Value, now: int)
    requires WellFormed(k)
    ensures SameLifecycle(k, SetContext(config, k, c, v, now).0)
  {
    hide WriteCell, CacheSet, CacheKey, Put, Grown;
  }

  lemma ContextCallFrame<Ref>(config: Config, k: Kernel<Ref>, s: Step<Ref>)
    requires WellFormed(k) && ContextCall(s)
    ensures SameLifecycle(k, Next(config, k, s))
  {
    hide GetContext, SetContext, FlushFields, FlushCache;
    match s
    case DoGet(c, now) => GetFrame(config, k, c, now);
    case DoSet(c, v, now) => SetFrame(config, k, c, v, now);
    case DoIncrement(c, plus, now) =>
      GetFrame(config, k, c, now);
      var (k1, current) := GetContext(config, k, c, now);
      SetFrame(config, k1, c, plus(current), now);
    case DoTimer(now) =>
  }

  // ----- Status and runtime

  /** Running or paused kernels have a runtime, initialized ones have none. */
  predicate Synchronized<Ref>(k: Kernel<Ref>) {
    && (k.status == Running || k.status == Paused ==> k.hasRuntime)
    && (k.status == Initialized ==> !k.hasRuntime)
  }

  /** Every step keeps status and runtime in agreement, however its environment behaves. */
  lemma SynchronizedNext<Ref>(config: Config, k: Kernel<Ref>, s: Step<Ref>)
    requires WellFormed(k) && Synchronized(k)
    ensures Synchronized(Next(config, k, s))
  {
    hide FlushFields, FlushCache, PrepareContext, WireFields, IncrementContext, TimerFires, GetContext, SetContext;
    hide WellFormed, Grown;
    if ContextCall(s) {
      ContextCallFrame(config, k, s);
    }
  }

  /** `synchronizeStates` never has anything to repair at a method boundary. */
  lemma {:induction false} SynchronizedRun<Ref>(config: Config, ref: Ref, steps: seq<Step<Ref>>)
    ensures Synchronized(Run(config, Created(config, ref), steps))
    ensures var k := Run(config, Created(config, ref), steps); SynchronizeStates(k) == k
  {
    hide Next;
    if steps != [] {
      SynchronizedRun(config, ref, steps[..|steps| - 1]);
      SynchronizedNext(config, Run(config, Created(config, ref), steps[..|steps| - 1]), steps[|steps| - 1]);
    }
  }

  // ----- The cache's capacity

  /** The cache is within its capacity, and no key in use is empty. */
  ghost predicate WithinCapacity<Ref>(k: Kernel<Ref>) {
    Bounded(k.cache, CACHE_SIZE) && Records.Lookup(k.queue, "").None?
  }

  lemma CacheKeyNotEmpty(tenant: string, c: Cell)
    ensures CacheKey(tenant, c) != ""
  {
  }

  lemma BoundedSet(cache: seq<Slot<Value>>, key: string, v: Value, now: int)
    requires Bounded(cache, CACHE_SIZE) && key != ""
    ensures Bounded(CacheSet(cache, key, v, now), CACHE_SIZE)
  {
    SizeBound(cache, CACHE_SIZE, SetOp(key, v), now);
  }

  lemma {:induction false} BoundedFlushCache(cache: seq<Slot<Value>>, queue: Fields, now: int)
    requires Bounded(cache, CACHE_SIZE) && Records.Lookup(queue, "").None?
    ensures Bounded(FlushCache(cache, queue, now), CACHE_SIZE)
    decreases |queue|
  {
    hide CacheSet, Bounded;
    if queue != [] {
      BoundedSet(cache, queue[0].key, queue[0].value, now);
      BoundedFlushCache(CacheSet(cache, queue[0].key, queue[0].value, now), queue[1..], now);
    }
  }

  lemma BoundedGet<Ref>(config: Config, k: Kernel<Ref>, c: Cell, now: int)
    requires WellFormed(k) && WithinCapacity(k)
    ensures WithinCapacity(GetContext(config, k, c, now).0)
  {
    hide Bounded, Apply, WithTenant, ReadCell, CacheKey;
    var key := CacheKey(config.tenant, c);
    CacheKeyNotEmpty(config.tenant, c);
    SizeBound(k.cache, CACHE_SIZE, GetOp(key), now);
    BoundedSet(k.cache, key, GetContext(config, k, c, now).1, now);
  }

  lemma BoundedSetContext<Ref>(config: Config, k: Kernel<Ref>, c: Cell, v: Value, now: int)
    requires WellFormed(k) && WithinCapacity(k)
    ensures WithinCapacity(SetContext(config, k, c, v, now).0)
  {
    hide Bounded, Apply, WriteCell, CacheKey, CacheSet;
    CacheKeyNotEmpty(config.tenant, c);
    BoundedSet(k.cache, CacheKey(config.tenant, c), v, now);
  }

  lemma BoundedFlush<Ref>(k: Kernel<Ref>, now: int)
    requires WellFormed(k) && WithinCapacity(k)
    ensures WithinCapacity(Flush(k, now))
  {
    hide Bounded, FlushFields, FlushCache;
    BoundedFlushCache(k.cache, k.queue, now);
  }

  lemma CapacityContextCall<Ref>(config: Config, k: Kernel<Ref>, s: Step<Ref>)
    requires WellFormed(k) && WithinCapacity(k) && ContextCall(s)
    ensures WithinCapacity(Next(config, k, s))
  {
    hide Flush, Records.Lookup, GetContext, SetContext, Bounded;
    match s
    case DoGet(c, now) => BoundedGet(config, k, c, now);
    case DoSet(c, v, now) => BoundedSetContext(config, k, c, v, now);
    case DoIncrement(c, plus, now) =>
      BoundedGet(config, k, c, now);
      var (k1, current) := GetContext(config, k, c, now);
      BoundedSetContext(config, k1, c, plus(current), now);
    case DoTimer(now) => BoundedFlush(k.(timer := Stale), now);
  }

  lemma EmptyWithinCapacity<Ref>(k: Kernel<Ref>)
    ensures WithinCapacity(ClearedCaches(k))
  {
  }

  lemma CapacityPause<Ref>(k: Kernel<Ref>, hash: string, ref: Ref, persisted: bool, now: int)
    requires WellFormed(k) && WithinCapacity(k)
    ensures WithinCapacity(Pause(k, hash, ref, persisted, now).0)
  {
    hide Bounded, Flush, WireFields, Records.Lookup;
    BoundedFlush(k, now);
  }

  lemma CapacitySend<Ref>(config: Config, k: Kernel<Ref>, eventType: string, event: Value, emitted: bool, hash: string,
                          ref: Ref, persisted: bool, now: int)
    requires WellFormed(k) && WithinCapacity(k)
    ensures WithinCapacity(SendEvent(config, k, eventType, event, emitted, hash, ref, persisted, now).0)
  {
    hide Bounded, Pause, PrepareContext, Records.Lookup;
    var k1 := WithContext(k, PrepareContext(config, Context(k), eventType, event, now).0);
    CapacityPause(k1.(eventCount := k.eventCount + 1), hash, ref, persisted, now);
  }

  /** Every step keeps the cache within its capacity, whatever the clock does. */
  lemma CapacityNext<Ref>(config: Config, k: Kernel<Ref>, s: Step<Ref>)
    requires WellFormed(k) && WithinCapacity(k)
    ensures WithinCapacity(Next(config, k, s))
  {
    hide IncrementContext, TimerFires, GetContext, SetContext, Pause, SendEvent, Flush, Bounded, Records.Lookup;
    if ContextCall(s) {
      CapacityContextCall(config, k, s);
    } else {
      EmptyWithinCapacity(k);
      match s
      case DoSend(eventType, event, emitted, hash, ref, persisted, now) =>
        CapacitySend(config, k, eventType, event, emitted, hash, ref, persisted, now);
      case DoPause(hash, ref, persisted, now) => CapacityPause(k, hash, ref, persisted, now);
      case _ =>
    }
  }

  /** After every run, and for every choice of its environment, the cache holds at most `CACHE_SIZE`
      entries, none of them twice. */
  lemma {:induction false} CapacityRun<Ref>(config: Config, ref: Ref, steps: seq<Step<Ref>>)
    ensures WithinCapacity(Run(config, Created(config, ref), steps))
    ensures |Run(config, Created(config, ref), steps).cache| <= 1000
  {
    hide Next;
    if steps != [] {
      CapacityRun(config, ref, steps[..|steps| - 1]);
      CapacityNext(config, Run(config, Created(config, ref), steps[..|steps| - 1]), steps[|steps| - 1]);
    }
  }

  // ----- The event quota

  predicate OverQuota(config: Config, count: nat) {
    config.maxEvents > 0 && count >= config.maxEvents
  }

  /** A kernel that runs or may start has quota left. */
  predicate QuotaKept<Ref>(config: Config, k: Kernel<Ref>) {
    k.status == Running || k.status == Initialized ==> !OverQuota(config, k.eventCount)
  }

  /** The steps that could break the quota: an event that uses it up but whose pause cannot be stored,
      the resumption of a snapshot taken at the quota, and restarts that keep the event count. */
  predicate QuotaSafe<Ref>(config: Config, k: Kernel<Ref>, s: Step<Ref>)
    requires WellFormed(k)
  {
    match s
    case DoSend(eventType, event, emitted, hash, ref, persisted, now) =>
      (k.status == Running && k.hasRuntime && emitted && OverQuota(config, k.eventCount + 1)
       && PrepareContext(config, Context(k), eventType, event, now).1 == Done) ==> persisted
    case DoResume(hash) =>
      k.status == Paused && hash in k.snapshots ==> !OverQuota(config, k.snapshots[hash].eventCount)
    case DoCleanup(cleaned) => (k.hasRuntime ==> cleaned) ==> !OverQuota(config, k.eventCount)
    case DoRecover(cleaned, result, _, _) =>
      ((k.hasRuntime ==> cleaned) && result == Succeeds) ==> !OverQuota(config, k.eventCount)
    case _ => true
  }

  /** One step keeps the quota exactly if it is none of those. */
  lemma QuotaNext<Ref>(config: Config, k: Kernel<Ref>, s: Step<Ref>)
    requires WellFormed(k) && Synchronized(k) && QuotaKept(config, k)
    ensures QuotaKept(config, Next(config, k, s)) <==> QuotaSafe(config, k, s)
  {
    hide FlushFields, FlushCache, PrepareContext, WireFields, IncrementContext, TimerFires, GetContext, SetContext;
    hide WellFormed, Grown;
    if ContextCall(s) {
      ContextCallFrame(config, k, s);
    }
  }

  predicate QuotaSafeRun<Ref>(config: Config, k: Kernel<Ref>, steps: seq<Step<Ref>>)
    requires WellFormed(k)
  {
    steps == []
    || (QuotaSafeRun(config, k, steps[..|steps| - 1])
        && QuotaSafe(config, Run(config, k, steps[..|steps| - 1]), steps[|steps| - 1]))
  }

  /** A running kernel has quota left at every boundary of a run of safe steps. */
  lemma {:induction false} QuotaRun<Ref>(config: Config, ref: Ref, steps: seq<Step<Ref>>)
    requires QuotaSafeRun(config, Created(config, ref), steps)
    ensures QuotaKept(config, Run(config, Created(config, ref), steps))
  {
    hide Next, QuotaSafe;
    if steps != [] {
      var before := Run(config, Created(config, ref), steps[..|steps| - 1]);
      QuotaRun(config, ref, steps[..|steps| - 1]);
      SynchronizedRun(config, ref, steps[..|steps| - 1]);
      QuotaNext(config, before, steps[|steps| - 1]);
    }
  }

  /** Calls that the quota survives whenever snapshots can be stored. */
  predicate Ordinary<Ref>(s: Step<Ref>) {
    match s
    case DoSend(_, _, _, _, _, persisted, _) => persisted
    case DoResume(_) => false
    case DoCleanup(_) => false
    case DoRecover(_, _, _, _) => false
    case _ => true
  }

  lemma {:induction false} OrdinaryRun<Ref>(config: Config, ref: Ref, steps: seq<Step<Ref>>)
    requires forall s | s in steps :: Ordinary(s)
    ensures var k := Run(config, Created(config, ref), steps);
            k.status == Running && config.maxEvents > 0 ==> k.eventCount < config.maxEvents
  {
    OrdinaryIsSafe(config, ref, steps);
    QuotaRun(config, ref, steps);
  }

  lemma {:induction false} OrdinaryIsSafe<Ref>(config: Config, ref: Ref, steps: seq<Step<Ref>>)
    requires forall s | s in steps :: Ordinary(s)
    ensures QuotaSafeRun(config, Created(config, ref), steps)
  {
    hide Run, PrepareContext;
    if steps != [] {
      assert steps[|steps| - 1] in steps;
      OrdinaryIsSafe(config, ref, steps[..|steps| - 1]);
    }
  }

  /** The snapshot of a quota pause can never be resumed within the quota. */
  lemma QuotaPauseResumesOverQuota<Ref>(config: Config, k: Kernel<Ref>, eventType: string, event: Value, hash: string,
                                        ref: Ref, now: int)
    requires WellFormed(k) && Synchronized(k) && k.status == Running
    requires OverQuota(config, k.eventCount + 1)
    requires PrepareContext(config, Context(k), eventType, event, now).1 == Done
    ensures var (paused, _) := SendEvent(config, k, eventType, event, true, hash, ref, true, now);
            paused.status == Paused
            && var (resumed, outcome) := Resume(paused, hash);
               outcome == Done && resumed.status == Running && OverQuota(config, resumed.eventCount)
  {
    hide PrepareContext, FlushFields, FlushCache, WireFields, WellFormed, Grown;
  }

  // ----- The debounce timer

  /** A flush is scheduled exactly while there is something to flush. */
  predicate Scheduled<Ref>(k: Kernel<Ref>) {
    if k.queue == [] then k.timer == NoTimer else k.timer == Armed
  }

  lemma PutNonEmpty(fields: Fields, key: string, v: Value)
    ensures Put(fields, key, v) != []
  {
  }

  lemma ScheduledSet<Ref>(config: Config, k: Kernel<Ref>, c: Cell, v: Value, now: int)
    requires WellFormed(k) && Scheduled(k)
    ensures Scheduled(SetContext(config, k, c, v, now).0)
  {
    hide WriteCell, CacheSet, CacheKey, WellFormed, Grown, Put;
    PutNonEmpty(k.queue, CacheKey(config.tenant, c), v);
  }

  lemma ScheduledContextCall<Ref>(config: Config, k: Kernel<Ref>, s: Step<Ref>)
    requires WellFormed(k) && Scheduled(k) && ContextCall(s)
    ensures Scheduled(Next(config, k, s))
  {
    hide WithTenant, ReadCell, FlushFields, FlushCache, CacheSet, Apply, Index, CacheKey, SetContext;
    match s
    case DoSet(c, v, now) => ScheduledSet(config, k, c, v, now);
    case DoIncrement(c, plus, now) =>
      var (k1, current) := GetContext(config, k, c, now);
      ScheduledSet(config, k1, c, plus(current), now);
    case _ =>
  }

  /** Only a resume that drops queued updates breaks the schedule: it clears the queue and leaves the
      timer set. */
  lemma ScheduledNext<Ref>(config: Config, k: Kernel<Ref>, s: Step<Ref>)
    requires WellFormed(k) && Scheduled(k)
    ensures Scheduled(Next(config, k, s))
       <==> !(s.DoResume? && k.status == Paused && s.hash in k.snapshots && k.queue != [])
  {
    hide FlushFields, FlushCache, PrepareContext, WireFields, IncrementContext, TimerFires, GetContext, SetContext;
    hide WellFormed, Grown;
    if ContextCall(s) {
      ScheduledContextCall(config, k, s);
    }
  }

  lemma PutKeys(fields: Fields, key: string, v: Value)
    ensures forall k | k in Keys(fields) :: k in Keys(Put(fields, key, v))
  {
    forall k | k in Keys(fields) ensures k in Keys(Put(fields, key, v)) {
      LookupKeys(fields, k);
      LookupKeys(Put(fields, key, v), k);
    }
  }

  /** Once the timer has fired on the queue that a resume emptied, no context call starts it again: what
      is queued from then on stays queued. */
  lemma {:induction false} StrandedRun<Ref>(config: Config, k: Kernel<Ref>, steps: seq<Step<Ref>>)
    requires WellFormed(k) && k.timer == Stale
    requires forall s | s in steps :: ContextCall(s)
    ensures Run(config, k, steps).timer == Stale
    ensures forall key | key in Keys(k.queue) :: key in Keys(Run(config, k, steps).queue)
  {
    hide Next, ContextCall;
    if steps != [] {
      var before, s := Run(config, k, steps[..|steps| - 1]), steps[|steps| - 1];
      assert s in steps && forall t | t in steps[..|steps| - 1] :: t in steps;
      StrandedRun(config, k, steps[..|steps| - 1]);
      StrandedNext(config, before, s);
    }
  }

  lemma StrandedNext<Ref>(config: Config, k: Kernel<Ref>, s: Step<Ref>)
    requires WellFormed(k) && k.timer == Stale && ContextCall(s)
    ensures Next(config, k, s).timer == Stale
    ensures forall key | key in Keys(k.queue) :: key in Keys(Next(config, k, s).queue)
  {
    hide WriteCell, WithTenant, ReadCell, FlushFields, FlushCache, CacheSet, PrepareContext, WireFields, Apply, Index;
    hide CacheKey, WellFormed, Grown, Put;
    match s
    case DoSet(c, v, _) => PutKeys(k.queue, CacheKey(config.tenant, c), v);
    case DoIncrement(c, plus, now) =>
      var (k1, current) := GetContext(config, k, c, now);
      PutKeys(k1.queue, CacheKey(config.tenant, c), plus(current));
    case _ =>
  }

  /** A resume that drops queued updates does lead there. */
  lemma ResumeStrands<Ref>(config: Config, k: Kernel<Ref>, hash: string, now: int)
    requires WellFormed(k) && Scheduled(k) && k.queue != []
    requires k.status == Paused && hash in k.snapshots
    ensures var r := Run(config, k, [DoResume(hash), DoTimer(now)]);
            r.status == Running && r.queue == [] && r.timer == Stale
  {
    var steps: seq<Step<Ref>> := [DoResume(hash), DoTimer(now)];
    assert steps[..1] == [DoResume(hash)] && steps[..1][..0] == [];
    assert Run(config, k, steps[..1]) == Next(config, Run(config, k, []), DoResume(hash));
  }
}
