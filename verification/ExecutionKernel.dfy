/** The execution kernel as an object whose methods update its fields, each proved to make the step that
    the state machine describes. */
module ExecutionKernel {
  import opened Text
  import opened Json
  import opened Records
  import opened LruCache
  import M = KernelState

  /** A `contextData` object: the live context and a stored snapshot may share one. */
  class ContextObject {
    var fields: Fields

    constructor (fields: Fields)
      ensures this.fields == fields
    {
      this.fields := fields;
    }
  }

  class ExecutionKernel {
    const config: M.Config
    var status: M.Status
    var hasRuntime: bool
    var eventCount: nat
    var contextData: ContextObject
    const contextCache: LRUCache<Value>
    var contextUpdateQueue: Fields
    var contextUpdateTimer: M.Timer
    /** The persistor's snapshots. */
    var snapshots: map<string, M.Saved<ContextObject>>
    /** Every context object made so far. */
    ghost var objects: set<ContextObject>

    ghost predicate Valid()
      reads this
    {
      && contextCache.maxSize == M.CACHE_SIZE
      && contextData in objects
      && forall h | h in snapshots :: snapshots[h].context in objects
    }

    ghost function Heap(): map<ContextObject, Fields>
      reads this`objects, objects
    {
      map o | o in objects :: o.fields
    }

    ghost function State(): (k: M.Kernel<ContextObject>)
      reads this, contextCache, objects
      ensures Valid() ==> M.WellFormed(k)
    {
      M.Kernel(status, hasRuntime, eventCount, Heap(), contextData,
               contextCache.entries, contextUpdateQueue, contextUpdateTimer, snapshots)
    }

    constructor (config: M.Config)
      ensures Valid() && this.config == config
      ensures fresh(contextCache) && fresh(objects)
      ensures State() == M.Created(config, contextData)
    {
      this.config := config;
      status, hasRuntime, eventCount := M.Initialized, false, 0;
      contextUpdateQueue, contextUpdateTimer, snapshots := [], M.NoTimer, map[];
      var context := new ContextObject([]);
      var cache := new LRUCache(M.CACHE_SIZE);
      contextData, contextCache := context, cache;
      objects := {context};
    }

    // ----- Context

    method GetTenantContext(thread: string) returns (tenant: Value)
      requires Valid()
      modifies contextData
      ensures contextData.fields == M.WithTenant(config, old(contextData.fields), thread)
      ensures Heap() == old(Heap())[contextData := contextData.fields]
      ensures tenant == M.TenantContext(config, contextData.fields, thread)
    {
      if !config.isolation {
        return Obj(contextData.fields);
      }
      var contextKey := M.ContextKey(config.tenant, thread);
      if M.Falsy(Get(contextData.fields, contextKey)) {
        contextData.fields := Put(contextData.fields, contextKey, Obj([]));
      }
      tenant := Get(contextData.fields, contextKey);
    }

    method GetContext(c: M.Cell, now: int) returns (v: Value)
      requires Valid()
      modifies this, contextCache, contextData
      ensures Valid() && objects == old(objects) && contextData == old(contextData)
      ensures (State(), v) == M.GetContext(config, old(State()), c, now)
    {
      hide M.CacheKey, M.ContextKey, M.WithTenant, Put, Evicted;
      var tenant := GetTenantContext(c.thread);
      var cacheKey := M.CacheKey(config.tenant, c);
      if config.caching {
        var hit := contextCache.Has(cacheKey);
        if hit {
          var cached := contextCache.Get(cacheKey, now);
          return cached.value;
        }
      }
      var namespaceData := M.Property(tenant, c.namespace);
      v := M.Property(namespaceData, c.key);
      if config.caching && v != Undefined {
        contextCache.Set(cacheKey, v, now);
      }
    }

    method SetContext(c: M.Cell, v: Value, now: int) returns (outcome: M.Outcome)
      requires Valid()
      modifies this, contextCache, contextData
      ensures Valid() && objects == old(objects)
      ensures (State(), outcome) == M.SetContext(config, old(State()), c, v, now)
    {
      hide M.CacheKey, M.ContextKey, Put, Apply, M.CacheSet;
      outcome := WriteCell(c, v);
      if outcome == M.Threw {
        return;
      }
      var cacheKey := M.CacheKey(config.tenant, c);
      if config.batching {
        contextUpdateQueue := Put(contextUpdateQueue, cacheKey, v);
        if contextUpdateTimer == M.NoTimer {
          contextUpdateTimer := M.Armed;
        }
      } else {
        CacheSet(cacheKey, v, now);
      }
    }

    method CacheSet(key: string, v: Value, now: int)
      requires Valid()
      modifies contextCache
      ensures contextCache.entries == M.CacheSet(old(contextCache.entries), key, v, now)
    {
      contextCache.Set(key, v, now);
    }

    /** `namespaceData[key] = value` in the tenant's record. */
    method WriteCell(c: M.Cell, v: Value) returns (outcome: M.Outcome)
      requires Valid()
      modifies contextData
      ensures Heap() == old(Heap())[contextData := contextData.fields]
      ensures (contextData.fields, outcome) == M.WriteCell(config, old(contextData.fields), c, v)
    {
      hide M.ContextKey, M.WithTenant, Put;
      var tenant := GetTenantContext(c.thread);
      if !tenant.Obj? {
        return M.Threw;
      }
      var spaces := tenant.fields;
      if M.Falsy(Get(spaces, c.namespace)) {
        spaces := Put(spaces, c.namespace, Obj([]));
      }
      var namespaceData := Get(spaces, c.namespace);
      outcome := M.Threw;
      if namespaceData.Obj? {
        spaces := Put(spaces, c.namespace, Obj(Put(namespaceData.fields, c.key, v)));
        outcome := M.Done;
      }
      contextData.fields :=
        if config.isolation then Put(contextData.fields, M.ContextKey(config.tenant, c.thread), Obj(spaces))
        else spaces;
    }

    method IncrementContext(c: M.Cell, plus: Value -> Value, now: int) returns (v: Value)
      requires Valid()
      modifies this, contextCache, contextData
      ensures Valid() && objects == old(objects)
      ensures (State(), v) == M.IncrementContext(config, old(State()), c, plus, now)
    {
      hide M.GetContext, M.SetContext;
      var current := GetContext(c, now);
      v := plus(current);
      var _ := SetContext(c, v, now);
    }

    method FlushContextUpdates(now: int)
      requires Valid()
      modifies this, contextCache, contextData
      ensures Valid() && objects == old(objects) && contextData == old(contextData)
      ensures State() == M.Flush(old(State()), now)
    {
      hide M.CacheSet, Put, Apply;
      if |contextUpdateQueue| == 0 {
        return;
      }
      var updates := contextUpdateQueue;
      contextUpdateQueue := [];
      contextUpdateTimer := M.NoTimer;
      for i := 0 to |updates|
        modifies contextData, contextCache
        invariant M.FlushFields(old(contextData.fields), updates) == M.FlushFields(contextData.fields, updates[i..])
        invariant M.FlushCache(old(contextCache.entries), updates, now)
               == M.FlushCache(contextCache.entries, updates[i..], now)
      {
        assert updates[i..][1..] == updates[i + 1..];
        contextData.fields := Put(contextData.fields, updates[i].key, updates[i].value);
        CacheSet(updates[i].key, updates[i].value, now);
      }
    }

    /** The debounce timer's callback. */
    method OnUpdateTimer(now: int)
      requires Valid() && contextUpdateTimer == M.Armed
      modifies this, contextCache, contextData
      ensures Valid() && objects == old(objects)
      ensures State() == M.TimerFires(old(State()), now)
    {
      hide M.FlushFields, M.FlushCache;
      contextUpdateTimer := M.Stale;
      FlushContextUpdates(now);
    }

    // ----- Lifecycle

    method SynchronizeStates()
      requires Valid()
      modifies this`status
      ensures Valid() && objects == old(objects)
      ensures State() == M.SynchronizeStates(old(State()))
    {
      if hasRuntime && status == M.Initialized {
        status := M.Running;
      } else if !hasRuntime && status == M.Running {
        status := M.Failed;
      }
    }

    method Allocate(fields: Fields) returns (o: ContextObject)
      requires Valid()
      modifies this`objects
      ensures Valid() && fresh(o) && objects == old(objects) + {o}
      ensures Heap() == old(Heap())[o := fields]
    {
      o := new ContextObject(fields);
      objects := objects + {o};
    }

    /** A new object becomes the live context. */
    method ReplaceContext(fields: Fields)
      requires Valid()
      modifies this`contextData, this`objects
      ensures Valid() && fresh(contextData) && objects == old(objects) + {contextData}
      ensures State() == var k := old(State()); k.(heap := k.heap[contextData := fields], context := contextData)
    {
      contextData := Allocate(fields);
    }

    method Initialize(result: M.InitResult, loaded: Fields) returns (outcome: M.Outcome, ghost ref: ContextObject)
      requires Valid()
      modifies this
      ensures Valid() && objects <= old(objects) + {ref} && (ref == old(contextData) || fresh(ref))
      ensures (State(), outcome) == M.Initialize(config, old(State()), result, loaded, ref)
    {
      hide M.SynchronizeStates, M.Grown;
      ref := contextData;
      if status == M.Running && hasRuntime {
        return M.Done, ref;
      }
      if result == M.Refused || status != M.Initialized {
        return M.Threw, ref;
      }
      hasRuntime := true;
      if result != M.FailsEarly && !config.lazyLoading {
        ReplaceContext(loaded);
        ref := contextData;
      }
      if result == M.FailsEarly || result == M.FailsLate {
        status, hasRuntime := M.Failed, false;
        return M.Threw, ref;
      }
      status := M.Running;
      SynchronizeStates();
      return M.Done, ref;
    }

    /** `hash` is the snapshot's stable hash, and `persisted` whether the persistor accepts it. */
    method Pause(hash: string, persisted: bool, now: int) returns (outcome: M.Outcome, ghost ref: ContextObject)
      requires Valid()
      modifies this, contextCache, contextData
      ensures Valid() && contextData == old(contextData)
      ensures objects <= old(objects) + {ref} && (ref == old(contextData) || fresh(ref))
      ensures (State(), outcome) == M.Pause(old(State()), hash, ref, persisted, now)
    {
      hide M.Flush, WireFields;
      ref := contextData;
      if status != M.Running {
        return M.Threw, ref;
      }
      FlushContextUpdates(now);
      if !persisted {
        return M.Threw, ref;
      }
      var copy := Allocate(WireFields(contextData.fields));
      ref := copy;
      snapshots := snapshots[hash := M.Saved(copy, eventCount)];
      status := M.Paused;
      return M.Done, ref;
    }

    method Resume(hash: string) returns (outcome: M.Outcome)
      requires Valid()
      modifies this, contextCache
      ensures Valid() && objects == old(objects)
      ensures (State(), outcome) == M.Resume(old(State()), hash)
    {
      if status != M.Paused || hash !in snapshots {
        return M.Threw;
      }
      var restored := snapshots[hash];
      contextData, eventCount, status := restored.context, restored.eventCount, M.Running;
      contextCache.Clear();
      contextUpdateQueue := [];
      return M.Done;
    }

    method PrepareContextForEvent(eventType: string, event: Value, now: int) returns (outcome: M.Outcome)
      requires Valid()
      modifies contextData
      ensures Heap() == old(Heap())[contextData := contextData.fields]
      ensures (contextData.fields, outcome)
           == M.PrepareContext(config, old(contextData.fields), eventType, event, now)
    {
      hide Put, IntText;
      contextData.fields := Put(contextData.fields, "lastEvent", Str(eventType));
      contextData.fields := Put(contextData.fields, "lastEventTime", Num(IntText(now)));
      outcome := M.Done;
      if !config.lazyLoading {
        var history := Get(contextData.fields, "eventHistory");
        if M.Falsy(history) {
          history := Arr([]);
        }
        if history.Arr? {
          history := Arr(history.items + [event]);
        } else {
          outcome := M.Threw;
        }
        contextData.fields := Put(contextData.fields, "eventHistory", history);
      }
    }

    /** `updateStateFromEvent` and `checkQuotas` */
    method CountEvent(hash: string, persisted: bool, now: int)
      returns (outcome: M.Outcome, ghost ref: ContextObject)
      requires Valid()
      modifies this, contextCache, contextData
      ensures Valid() && objects <= old(objects) + {ref} && (ref == old(contextData) || fresh(ref))
      ensures (State(), outcome) == M.CountEvent(config, old(State()), hash, ref, persisted, now)
    {
      hide M.Pause;
      outcome, ref := M.Done, contextData;
      eventCount := eventCount + 1;
      if config.maxEvents > 0 && eventCount >= config.maxEvents {
        outcome, ref := Pause(hash, persisted, now);
      }
    }

    /** `emitted` tells whether the runtime accepts the event. */
    method SendEvent(eventType: string, event: Value, emitted: bool, hash: string, persisted: bool, now: int)
      returns (outcome: M.Outcome, ghost ref: ContextObject)
      requires Valid()
      modifies this, contextCache, contextData
      ensures Valid() && objects <= old(objects) + {ref} && (ref == old(contextData) || fresh(ref))
      ensures (State(), outcome)
           == M.SendEvent(config, old(State()), eventType, event, emitted, hash, ref, persisted, now)
    {
      hide M.PrepareContext, M.CountEvent;
      ref := contextData;
      if !hasRuntime {
        return M.Threw, ref;
      }
      outcome := PrepareContextForEvent(eventType, event, now);
      if outcome == M.Threw || !emitted {
        return M.Threw, ref;
      }
      outcome, ref := CountEvent(hash, persisted, now);
    }

    method CleanupPerformanceOptimizations()
      requires Valid()
      modifies this, contextCache
      ensures Valid() && objects == old(objects)
      ensures State() == M.ClearedCaches(old(State()))
    {
      contextUpdateTimer := M.NoTimer;
      contextUpdateQueue := [];
      contextCache.Clear();
    }

    method Complete(now: int)
      requires Valid()
      modifies this, contextCache, contextData
      ensures Valid() && objects == old(objects)
      ensures State() == M.Complete(old(State()), now)
    {
      hide M.Flush;
      if status == M.Completed {
        return;
      }
      FlushContextUpdates(now);
      status := M.Completed;
      CleanupPerformanceOptimizations();
    }

    /** `cleaned` tells whether the runtime's clean-up succeeds. */
    method Reset(cleaned: bool) returns (outcome: M.Outcome, ghost ref: ContextObject)
      requires Valid()
      modifies this, contextCache
      ensures Valid() && objects <= old(objects) + {ref} && (ref == old(contextData) || fresh(ref))
      ensures (State(), outcome) == M.Reset(old(State()), cleaned, ref)
    {
      hide M.WellFormed, M.Grown;
      ref := contextData;
      CleanupPerformanceOptimizations();
      if hasRuntime && !cleaned {
        status, hasRuntime := M.Failed, false;
        return M.Threw, ref;
      }
      hasRuntime := false;
      ReplaceContext([]);
      ref := contextData;
      status, eventCount := M.Initialized, 0;
      SynchronizeStates();
      return M.Done, ref;
    }

    method EnhancedCleanup(cleaned: bool) returns (outcome: M.Outcome)
      requires Valid()
      modifies this, contextCache
      ensures Valid() && objects == old(objects) && contextData == old(contextData)
      ensures (State(), outcome) == M.Cleanup(old(State()), cleaned)
    {
      if hasRuntime && !cleaned {
        return M.Threw;
      }
      hasRuntime := false;
      CleanupPerformanceOptimizations();
      status := M.Initialized;
      return M.Done;
    }

    method Clear(cleaned: bool) returns (outcome: M.Outcome, ghost ref: ContextObject)
      requires Valid()
      modifies this, contextCache
      ensures Valid() && objects <= old(objects) + {ref} && (ref == old(contextData) || fresh(ref))
      ensures (State(), outcome) == M.Clear(old(State()), cleaned, ref)
    {
      hide M.Cleanup, M.Grown;
      ref := contextData;
      outcome := EnhancedCleanup(cleaned);
      if outcome == M.Threw {
        return;
      }
      ReplaceContext([]);
      ref := contextData;
      eventCount := 0;
      contextCache.Clear();
      contextUpdateQueue := [];
    }

    method RecoverFromError(cleaned: bool, result: M.InitResult, loaded: Fields)
      returns (recovered: bool, ghost ref: ContextObject)
      requires Valid()
      modifies this
      ensures Valid() && objects <= old(objects) + {ref} && (ref == old(contextData) || fresh(ref))
      ensures (State(), recovered) == M.Recover(config, old(State()), cleaned, result, loaded, ref)
    {
      hide M.Initialize, M.WellFormed, M.Grown;
      ref := contextData;
      if hasRuntime && !cleaned {
        status := M.Failed;
        return false, ref;
      }
      hasRuntime := false;
      status := M.Initialized;
      var outcome;
      outcome, ref := Initialize(result, loaded);
      if outcome == M.Threw {
        status := M.Failed;
      }
      return outcome == M.Done, ref;
    }
  }
}
