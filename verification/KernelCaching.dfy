/** What coherence is worth to callers, and the configurations that lose it. */
module KernelCaching {
  import opened Text
  import opened Json
  import opened Records
  import opened LruCache
  import opened KernelState
  import opened KernelCells
  import opened KernelCoherence
  import opened KernelShape

  // ----- Reading a coherent kernel

  lemma CachedFits<Ref>(config: Config, k: Kernel<Ref>, c: Cell)
    requires Clean(c) && Coherent(config, k)
    ensures var key := CacheKey(config.tenant, c); var i := Index(k.cache, key);
            i < |k.cache| && k.cache[i].value != ReadCell(config, Context(k), c) ==> key in Keys(k.queue)
  {
    hide ReadCell, CacheKey, UniqueKeys, NamesCell;
    var i := Index(k.cache, CacheKey(config.tenant, c));
    if i < |k.cache| {
      assert k.cache[i] in k.cache;
    }
  }

  /** `getContext` returns the stored value, unless an update of that very cell is still queued. */
  lemma ReadsStore<Ref>(config: Config, k: Kernel<Ref>, c: Cell, now: int)
    requires Plain(config.tenant) && Clean(c) && Coherent(config, k)
    ensures GetContext(config, k, c, now).1 == ReadCell(config, Context(k), c)
         || (config.caching && CacheKey(config.tenant, c) in Keys(k.queue))
  {
    hide ReadCell, CacheKey, Coherent, WithTenant, SameReads, CacheSet, Apply;
    CoherentIsWellFormed(config, k);
    CachedFits(config, k, c);
    WithTenantReads(config, Context(k), c.thread);
    ReadsAlike(config, Context(k), WithTenant(config, Context(k), c.thread), c);
  }

  lemma ReadsAlike(config: Config, a: Fields, b: Fields, c: Cell)
    requires SameReads(config, a, b) && Clean(c)
    ensures ReadCell(config, a, c) == ReadCell(config, b, c)
  {
  }

  /** After a flush a cached read and an uncached one agree, on what was stored before it. */
  lemma FlushedReads<Ref>(config: Config, k: Kernel<Ref>, c: Cell, now: int, later: int)
    requires Separate(config) && Plain(config.tenant) && Clean(c) && Coherent(config, k)
    ensures GetContext(config, Flush(k, now), c, later).1 == ReadCell(config, Context(k), c)
  {
    hide ReadCell, CacheKey, Coherent, Flush, GetContext, SameReads;
    CoherentIsWellFormed(config, k);
    CoherentFlush(config, k, now);
    ReadsStore(config, Flush(k, now), c, later);
    ReadsAlike(config, Context(k), Context(Flush(k, now)), c);
  }

  // ----- Caching is transparent without batching

  /** The same kernel but for what is cached. */
  predicate SameButCache<Ref>(a: Kernel<Ref>, b: Kernel<Ref>) {
    a == b.(cache := a.cache)
  }

  function Uncached(config: Config): Config {
    config.(caching := false)
  }

  lemma SameCell(config: Config, context: Fields, c: Cell, v: Value)
    ensures ReadCell(Uncached(config), context, c) == ReadCell(config, context, c)
    ensures WithTenant(Uncached(config), context, c.thread) == WithTenant(config, context, c.thread)
    ensures WriteCell(Uncached(config), context, c, v) == WriteCell(config, context, c, v)
  {
  }

  lemma SameGet<Ref>(config: Config, a: Kernel<Ref>, b: Kernel<Ref>, c: Cell, now: int)
    requires config.isolation && !config.batching && Plain(config.tenant) && Clean(c)
    requires Coherent(config, a) && SameButCache(a, b)
    ensures WellFormed(b)
    ensures var (a1, v) := GetContext(config, a, c, now); var (b1, w) := GetContext(Uncached(config), b, c, now);
            v == w && SameButCache(a1, b1)
  {
    hide ReadCell, CacheKey, WithTenant, CacheSet, Apply, SameReads, CacheFits, QueueFits, WriteCell;
    ReadsStore(config, a, c, now);
    SameCell(config, Context(a), c, Undefined);
    WithTenantReads(config, Context(a), c.thread);
    ReadsAlike(config, Context(a), WithTenant(config, Context(a), c.thread), c);
    SameCell(config, WithTenant(config, Context(a), c.thread), c, Undefined);
  }

  lemma SameSet<Ref>(config: Config, a: Kernel<Ref>, b: Kernel<Ref>, c: Cell, v: Value, now: int)
    requires !config.batching && WellFormed(a) && SameButCache(a, b)
    ensures WellFormed(b)
    ensures var (a1, x) := SetContext(config, a, c, v, now); var (b1, y) := SetContext(Uncached(config), b, c, v, now);
            x == y && SameButCache(a1, b1)
  {
    hide WriteCell, CacheKey, CacheSet, Put, ReadCell, WithTenant;
    SameCell(config, Context(a), c, v);
  }

  lemma SameIncrement<Ref>(config: Config, a: Kernel<Ref>, b: Kernel<Ref>, c: Cell, plus: Value -> Value, now: int)
    requires config.isolation && !config.batching && Plain(config.tenant) && Clean(c)
    requires Coherent(config, a) && SameButCache(a, b)
    ensures WellFormed(b)
    ensures var (a1, v) := IncrementContext(config, a, c, plus, now);
            var (b1, w) := IncrementContext(Uncached(config), b, c, plus, now);
            v == w && SameButCache(a1, b1)
  {
    hide GetContext, SetContext, CacheFits, QueueFits;
    SameGet(config, a, b, c, now);
    var (a1, v) := GetContext(config, a, c, now);
    var (b1, w) := GetContext(Uncached(config), b, c, now);
    SameSet(config, a1, b1, c, plus(v), now);
  }

  lemma SamePause<Ref>(config: Config, a: Kernel<Ref>, b: Kernel<Ref>, hash: string, ref: Ref, persisted: bool,
                       now: int)
    requires WellFormed(a) && a.queue == [] && SameButCache(a, b)
    ensures WellFormed(b)
    ensures SameButCache(Pause(a, hash, ref, persisted, now).0, Pause(b, hash, ref, persisted, now).0)
  {
    hide WireFields;
  }

  lemma SamePrepare(config: Config, context: Fields, eventType: string, event: Value, now: int)
    ensures PrepareContext(config, context, eventType, event, now)
         == PrepareContext(Uncached(config), context, eventType, event, now)
  {
    hide Put, Get, Falsy, IntText;
  }

  lemma SameCount<Ref>(config: Config, a: Kernel<Ref>, b: Kernel<Ref>, hash: string, ref: Ref, persisted: bool,
                       now: int)
    requires WellFormed(a) && a.queue == [] && SameButCache(a, b)
    ensures WellFormed(b)
    ensures SameButCache(CountEvent(config, a, hash, ref, persisted, now).0,
                         CountEvent(Uncached(config), b, hash, ref, persisted, now).0)
  {
    hide Pause;
    SamePause(config, a.(eventCount := a.eventCount + 1), b.(eventCount := b.eventCount + 1), hash, ref, persisted,
              now);
  }

  lemma SameSend<Ref>(config: Config, a: Kernel<Ref>, b: Kernel<Ref>, eventType: string, event: Value, emitted: bool,
                      hash: string, ref: Ref, persisted: bool, now: int)
    requires WellFormed(a) && a.queue == [] && SameButCache(a, b)
    ensures WellFormed(b)
    ensures SameButCache(SendEvent(config, a, eventType, event, emitted, hash, ref, persisted, now).0,
                         SendEvent(Uncached(config), b, eventType, event, emitted, hash, ref, persisted, now).0)
  {
    SamePrepare(config, Context(a), eventType, event, now);
    hide PrepareContext, CountEvent;
    var context := PrepareContext(config, Context(a), eventType, event, now).0;
    SameCount(config, WithContext(a, context), WithContext(b, context), hash, ref, persisted, now);
  }

  lemma SameInitialize<Ref>(config: Config, a: Kernel<Ref>, b: Kernel<Ref>, result: InitResult, loaded: Fields,
                            ref: Ref)
    requires WellFormed(a) && SameButCache(a, b)
    ensures WellFormed(b)
    ensures var (a1, x) := Initialize(config, a, result, loaded, ref);
            var (b1, y) := Initialize(Uncached(config), b, result, loaded, ref);
            x == y && SameButCache(a1, b1)
  {
  }

  lemma SameRecover<Ref>(config: Config, a: Kernel<Ref>, b: Kernel<Ref>, cleaned: bool, result: InitResult,
                         loaded: Fields, ref: Ref)
    requires WellFormed(a) && SameButCache(a, b)
    ensures WellFormed(b)
    ensures SameButCache(Recover(config, a, cleaned, result, loaded, ref).0,
                         Recover(Uncached(config), b, cleaned, result, loaded, ref).0)
  {
    hide Initialize;
    var a1 := a.(hasRuntime := false, status := Initialized);
    var b1 := b.(hasRuntime := false, status := Initialized);
    SameInitialize(config, a1, b1, result, loaded, ref);
  }

  lemma SameLifecycleCall<Ref>(config: Config, a: Kernel<Ref>, b: Kernel<Ref>, s: Step<Ref>)
    requires WellFormed(a) && SameButCache(a, b)
    requires s.DoTimer? || s.DoResume? || s.DoComplete? || s.DoReset? || s.DoCleanup? || s.DoClear?
    ensures WellFormed(b) && SameButCache(Next(config, a, s), Next(Uncached(config), b, s))
  {
    hide GetContext, SetContext, FlushFields, FlushCache, Pause, SendEvent, Initialize, Recover;
  }

  /** One step leads from kernels that differ only in their cache to kernels that do. */
  lemma SameNext<Ref>(config: Config, a: Kernel<Ref>, b: Kernel<Ref>, s: Step<Ref>)
    requires config.isolation && !config.batching && Plain(config.tenant)
    requires Coherent(config, a) && SameButCache(a, b) && Admissible(config, a, s)
    ensures WellFormed(b) && SameButCache(Next(config, a, s), Next(Uncached(config), b, s))
  {
    hide GetContext, SetContext, IncrementContext, CacheFits, QueueFits, Clean, Plain, Put, FlushFields;
    hide Pause, SendEvent, Initialize, Recover, TimerFires, Resume, Complete, Reset, Cleanup, Clear, SameButCache;
    match s
    case DoGet(c, now) => SameGet(config, a, b, c, now);
    case DoSet(c, v, now) => SameSet(config, a, b, c, v, now);
    case DoIncrement(c, plus, now) => SameIncrement(config, a, b, c, plus, now);
    case DoPause(hash, ref, persisted, now) => SamePause(config, a, b, hash, ref, persisted, now);
    case DoSend(t, e, emitted, hash, ref, persisted, now) =>
      SameSend(config, a, b, t, e, emitted, hash, ref, persisted, now);
    case DoInitialize(result, loaded, ref) => SameInitialize(config, a, b, result, loaded, ref);
    case DoRecover(cleaned, result, loaded, ref) => SameRecover(config, a, b, cleaned, result, loaded, ref);
    case _ => SameLifecycleCall(config, a, b, s);
  }

  /** What the caller sees of a step. */
  function Seen<Ref>(config: Config, k: Kernel<Ref>, s: Step<Ref>): Option<Value>
    requires WellFormed(k)
  {
    match s
    case DoGet(c, now) => Some(GetContext(config, k, c, now).1)
    case DoIncrement(c, plus, now) => Some(IncrementContext(config, k, c, plus, now).1)
    case _ => None
  }

  /** Everything the callers of a run see, in order. */
  function Observed<Ref>(config: Config, k: Kernel<Ref>, steps: seq<Step<Ref>>): seq<Option<Value>>
    requires WellFormed(k)
  {
    if steps == [] then []
    else Observed(config, k, steps[..|steps| - 1])
         + [Seen(config, Run(config, k, steps[..|steps| - 1]), steps[|steps| - 1])]
  }

  /** Unbatched, no caller can tell a kernel with a cache from one without, over any admissible run. */
  lemma {:induction false} CachingIsTransparent<Ref>(config: Config, ref: Ref, steps: seq<Step<Ref>>)
    requires config.isolation && !config.batching && Plain(config.tenant)
    requires AdmissibleRun(config, Created(config, ref), steps)
    ensures var k := Created(config, ref);
            && SameButCache(Run(config, k, steps), Run(Uncached(config), k, steps))
            && Observed(config, k, steps) == Observed(Uncached(config), k, steps)
  {
    hide Next, Admissible, GetContext, IncrementContext, Coherent;
    if steps != [] {
      var k, init, s := Created(config, ref), steps[..|steps| - 1], steps[|steps| - 1];
      CachingIsTransparent(config, ref, init);
      CoherentRun(config, ref, init);
      var a, b := Run(config, k, init), Run(Uncached(config), k, init);
      SameNext(config, a, b, s);
      SameSeen(config, a, b, s);
    }
  }

  lemma SameSeen<Ref>(config: Config, a: Kernel<Ref>, b: Kernel<Ref>, s: Step<Ref>)
    requires config.isolation && !config.batching && Plain(config.tenant)
    requires Coherent(config, a) && SameButCache(a, b) && Admissible(config, a, s)
    ensures WellFormed(b) && Seen(config, a, s) == Seen(Uncached(config), b, s)
  {
    hide GetContext, SetContext, IncrementContext, CacheFits, QueueFits;
    match s
    case DoGet(c, now) => SameGet(config, a, b, c, now);
    case DoIncrement(c, plus, now) => SameIncrement(config, a, b, c, plus, now);
    case _ =>
  }

  // ----- Batched increments

  /** Whether a read finds its cell in the cache, or puts it there. */
  predicate CachesRead<Ref>(config: Config, k: Kernel<Ref>, c: Cell)
    requires WellFormed(k)
  {
    config.caching && (HasKey(k.cache, CacheKey(config.tenant, c)) || ReadCell(config, Context(k), c) != Undefined)
  }

  /** Two increments in a row add up unless updates are batched and reads are cached: then the second one
      starts from the value the first one started from, and the first is lost. */
  lemma IncrementTwice<Ref>(config: Config, k: Kernel<Ref>, c: Cell, plus: Value -> Value, now: int, later: int)
    requires config.isolation && Plain(config.tenant) && Clean(c) && Coherent(config, k) && HeapShaped(config, k)
    ensures var start := GetContext(config, k, c, now).1;
            var (k1, first) := IncrementContext(config, k, c, plus, now);
            && first == plus(start)
            && IncrementContext(config, k1, c, plus, later).1
            == if config.batching && CachesRead(config, k, c) then plus(start) else plus(plus(start))
  {
    hide ReadCell, CacheKey, WriteCell, WithTenant, CacheSet, Put, Shaped, CacheFits, QueueFits, SameReads;
    var (k0, start) := GetContext(config, k, c, now);
    ShapedContextCall(config, k, c, plus(start), now);
    ShapedContextCall(config, k0, c, plus(start), now);
    CoherentGet(config, k, c, now);
    SetThenGet(config, k0, c, plus(start), now, later);
    GetCaches(config, k, c, now);
  }

  /** What a read leaves in the cache. */
  lemma GetCaches<Ref>(config: Config, k: Kernel<Ref>, c: Cell, now: int)
    requires Plain(config.tenant) && Clean(c) && Coherent(config, k)
    ensures var (k0, v) := GetContext(config, k, c, now); var key := CacheKey(config.tenant, c);
            if CachesRead(config, k, c)
            then Index(k0.cache, key) < |k0.cache| && k0.cache[Index(k0.cache, key)].value == v
            else config.caching ==> !HasKey(k0.cache, key)
  {
    hide ReadCell, CacheKey, WithTenant, Coherent, SameReads, Evicted;
    CoherentIsWellFormed(config, k);
    WithTenantReads(config, Context(k), c.thread);
    ReadsAlike(config, Context(k), WithTenant(config, Context(k), c.thread), c);
    var key := CacheKey(config.tenant, c);
    var i := Index(k.cache, key);
    var k1 := WithContext(k, WithTenant(config, Context(k), c.thread));
    var v := ReadCell(config, Context(k1), c);
    if i < |k.cache| {
      GetHits(k.cache, key, now);
    } else if v != Undefined {
      assert UniqueKeys(k.cache) by { CoherentUnique(config, k); }
      SetHits(k.cache, key, v, now);
    }
  }

  lemma CoherentUnique<Ref>(config: Config, k: Kernel<Ref>)
    requires Coherent(config, k)
    ensures UniqueKeys(k.cache)
  {
  }

  lemma GetHits(cache: seq<Slot<Value>>, key: string, now: int)
    requires HasKey(cache, key)
    ensures var after := Apply(cache, CACHE_SIZE, GetOp(key), now).0; var i := Index(cache, key);
            Index(after, key) == i && i < |after| && after[i].value == cache[i].value
  {
    var after, i := Apply(cache, CACHE_SIZE, GetOp(key), now).0, Index(cache, key);
    assert forall j | 0 <= j < |cache| :: after[j].key == cache[j].key;
    var m := Index(after, key);
    assert !(m < i) && !(m > i);
  }

  lemma SetHits(cache: seq<Slot<Value>>, key: string, v: Value, now: int)
    requires UniqueKeys(cache)
    ensures var after := CacheSet(cache, key, v, now); var i := Index(after, key);
            i < |after| && after[i].value == v
  {
    SetMembers(cache, key, v, now);
    var after := CacheSet(cache, key, v, now);
    assert Slot(key, v, now) in after by {
      hide Evicted;
      var i := Index(cache, key);
      if i < |cache| { assert after[i] == Slot(key, v, now); } else { assert after[|after| - 1] == Slot(key, v, now); }
    }
    var m := Index(after, key);
    if m < |after| { assert after[m] in after; }
  }

  /** A read after a write returns it, unless the write is batched and an older value is cached. */
  lemma SetThenGet<Ref>(config: Config, k: Kernel<Ref>, c: Cell, v: Value, now: int, later: int)
    requires config.isolation && Plain(config.tenant) && Clean(c) && Coherent(config, k) && HeapShaped(config, k)
    ensures var k1 := SetContext(config, k, c, v, now).0;
            var i := Index(k.cache, CacheKey(config.tenant, c));
            var stale := config.batching && config.caching && i < |k.cache|;
            GetContext(config, k1, c, later).1 == if stale then k.cache[i].value else v
  {
    hide ReadCell, CacheKey, WriteCell, WithTenant, CacheSet, Put, Shaped, Apply, SameReads, CacheFits, QueueFits;
    ShapedContextCall(config, k, c, v, now);
    WriteCellReads(config, Context(k), c, v);
    var k1 := SetContext(config, k, c, v, now).0;
    UpdatedRead(config, Context(k), Context(k1), c, v);
    WithTenantReads(config, Context(k1), c.thread);
    ReadsAlike(config, Context(k1), WithTenant(config, Context(k1), c.thread), c);
    CoherentUnique(config, k);
    SetHits(k.cache, CacheKey(config.tenant, c), v, now);
  }

  // ----- Configurations that lose coherence

  lemma EntryFits(config: Config, context: Fields, key: string, v: Value, c: Cell)
    requires Fits(config, context, key, v) && Clean(c) && CacheKey(config.tenant, c) == key
    ensures v == ReadCell(config, context, c)
  {
  }

  lemma FirstShared(config: Config, c: Cell, v: Value)
    requires !config.isolation && c.namespace == "n" && c.key == "k"
    ensures WriteCell(config, [], c, v) == ([Entry("n", Obj([Entry("k", v)]))], Done)
  {
    PutOne("n", Obj([]));
    PutOne("k", v);
    PutSame("n", Obj([]), Obj([Entry("k", v)]));
    assert Get([Entry("n", Obj([]))], "n") == Obj([]);
    hide Put;
  }

  lemma NextShared(config: Config, c: Cell, v: Value, w: Value)
    requires !config.isolation && c.namespace == "n" && c.key == "k"
    ensures WriteCell(config, [Entry("n", Obj([Entry("k", v)]))], c, w) == ([Entry("n", Obj([Entry("k", w)]))], Done)
  {
    PutSame("k", v, w);
    PutSame("n", Obj([Entry("k", v)]), Obj([Entry("k", w)]));
    assert Get([Entry("n", Obj([Entry("k", v)]))], "n") == Obj([Entry("k", v)]);
    hide Put;
  }

  lemma PutSame(key: string, v: Value, w: Value)
    ensures Put([Entry(key, v)], key, w) == [Entry(key, w)]
  {
    assert [Entry(key, v)][1..] == [];
  }

  /** Without tenant isolation two threads write the same cell under two cache keys. */
  lemma SharedCell<Ref>(config: Config, k: Kernel<Ref>, v: Value, w: Value)
    requires !config.isolation && Plain(config.tenant) && v != w
    requires WellFormed(k) && Context(k) == [] && k.cache == [] && k.queue == []
    ensures var a, b := Cell("a", "n", "k"), Cell("b", "n", "k");
            var k1 := SetContext(config, k, a, v, 0).0;
            !Coherent(config, SetContext(config, k1, b, w, 0).0)
  {
    hide CacheKey;
    var a, b := Cell("a", "n", "k"), Cell("b", "n", "k");
    var ka, kb := CacheKey(config.tenant, a), CacheKey(config.tenant, b);
    if ka == kb { CacheKeyInjective(config.tenant, a, b); }
    FirstShared(config, a, v);
    NextShared(config, b, v, w);
    assert ReadCell(config, [Entry("n", Obj([Entry("k", w)]))], a) == w;
    hide WriteCell, ReadCell;
    var k1 := SetContext(config, k, a, v, 0).0;
    var k2 := SetContext(config, k1, b, w, 0).0;
    assert Context(k2) == [Entry("n", Obj([Entry("k", w)]))];
    if Coherent(config, k2) {
      if config.batching {
        assert k2.queue[0] == Entry(ka, v) && k2.queue[0] in k2.queue;
        EntryFits(config, Context(k2), ka, v, a);
      } else {
        assert k1.cache == [Slot(ka, v, 0)];
        assert k2.cache[0] == Slot(ka, v, 0) && k2.cache[0] in k2.cache;
        EntryFits(config, Context(k2), ka, v, a);
      }
    }
  }

  const X := Cell("x", "n", "k")
  const Y := Cell("tenant", "thread", "x")

  lemma PlainCells()
    ensures Clean(X) && Clean(Y) && Plain("tenant")
    ensures X != Y && CacheKeyParts("tenant", Y) == ContextKeyParts("tenant", X.thread)
  {
  }

  /** For a tenant called "tenant" one flush can overwrite a thread's record. */
  lemma OverwrittenRecord<Ref>(config: Config, k: Kernel<Ref>)
    requires config.isolation && config.batching && config.tenant == "tenant"
    requires WellFormed(k) && Context(k) == [] && k.cache == [] && k.queue == [] && k.timer == NoTimer
    ensures var k1 := SetContext(config, k, X, Num("1"), 0).0;
            var k2 := SetContext(config, k1, Y, Num("2"), 0).0;
            !Coherent(config, TimerFires(k2, 0))
  {
    PlainCells();
    var kx, ky := CacheKey("tenant", X), CacheKey("tenant", Y);
    assert ky == ContextKey("tenant", X.thread);
    hide CacheKey, ContextKey, WriteCell, Shaped, Put, Coherent, Clean, Plain;
    if kx == ky { CacheKeyInjective("tenant", X, Y); }
    var k1, k2 := QueueTwo(config, k, X, Num("1"), Y, Num("2"));
    FlushTwo(Context(k2), kx, Num("1"), ky, Num("2"));
    FlushedOver(config, k2, kx, ky);
  }

  /** The flush of two such updates. */
  lemma FlushedOver<Ref>(config: Config, k: Kernel<Ref>, kx: string, ky: string)
    requires config.isolation && config.tenant == "tenant" && WellFormed(k) && k.timer == Armed && k.cache == []
    requires kx == CacheKey("tenant", X) && ky == ContextKey("tenant", X.thread) && Clean(X)
    requires k.queue == [Entry(kx, Num("1")), Entry(ky, Num("2"))]
    requires FlushFields(Context(k), k.queue) == Put(Put(Context(k), kx, Num("1")), ky, Num("2"))
    requires FlushCache([], k.queue, 0) == [Slot(kx, Num("1"), 0), Slot(ky, Num("2"), 0)]
    ensures !Coherent(config, TimerFires(k, 0))
  {
    hide CacheKey, ContextKey, Put, Coherent, Clean, FlushFields, FlushCache;
    var r := TimerFires(k, 0);
    assert ReadCell(config, Context(r), X) == Undefined;
    assert r.cache == [Slot(kx, Num("1"), 0), Slot(ky, Num("2"), 0)] && r.queue == [];
    hide ReadCell;
    if Coherent(config, r) {
      StaleSlot(config, r, Slot(kx, Num("1"), 0), X);
    }
  }

  lemma StaleSlot<Ref>(config: Config, k: Kernel<Ref>, s: Slot<Value>, c: Cell)
    requires Coherent(config, k) && k.queue == [] && |k.cache| > 0 && k.cache[0] == s
    requires Clean(c) && CacheKey(config.tenant, c) == s.key
    ensures s.value == ReadCell(config, Context(k), c)
  {
    hide ReadCell, CacheKey, QueueFits;
    assert k.cache[0] in k.cache;
    EntryFits(config, Context(k), s.key, s.value, c);
  }

  /** Two batched writes to an empty context. */
  lemma QueueTwo<Ref>(config: Config, k: Kernel<Ref>, x: Cell, v: Value, y: Cell, w: Value)
    returns (k1: Kernel<Ref>, k2: Kernel<Ref>)
    requires config.isolation && config.batching && Clean(x) && Clean(y)
    requires CacheKey(config.tenant, x) != CacheKey(config.tenant, y)
    requires WellFormed(k) && Context(k) == [] && k.cache == [] && k.queue == [] && k.timer == NoTimer
    ensures k1 == SetContext(config, k, x, v, 0).0 && WellFormed(k1)
    ensures k2 == SetContext(config, k1, y, w, 0).0 && WellFormed(k2)
    ensures k2.cache == [] && k2.timer == Armed
    ensures k2.queue == [Entry(CacheKey(config.tenant, x), v), Entry(CacheKey(config.tenant, y), w)]
  {
    hide CacheKey, WriteCell, Shaped, Put, CacheSet;
    EmptyShaped(config);
    WriteShaped(config, [], x, v);
    WriteShaped(config, WriteCell(config, [], x, v).0, y, w);
    PutOne(CacheKey(config.tenant, x), v);
    PutTwo(CacheKey(config.tenant, x), v, CacheKey(config.tenant, y), w);
    k1 := SetContext(config, k, x, v, 0).0;
    k2 := SetContext(config, k1, y, w, 0).0;
  }

  lemma PutOne(key: string, v: Value)
    ensures Put([], key, v) == [Entry(key, v)]
  {
  }

  lemma PutTwo(key: string, v: Value, other: string, w: Value)
    requires key != other
    ensures Put([Entry(key, v)], other, w) == [Entry(key, v), Entry(other, w)]
  {
    assert [Entry(key, v)][1..] == [];
  }

  lemma FlushTwo(context: Fields, key: string, v: Value, other: string, w: Value)
    requires key != other
    ensures FlushFields(context, [Entry(key, v), Entry(other, w)]) == Put(Put(context, key, v), other, w)
    ensures FlushCache([], [Entry(key, v), Entry(other, w)], 0) == [Slot(key, v, 0), Slot(other, w, 0)]
  {
    hide Put;
    var queue := [Entry(key, v), Entry(other, w)];
    assert queue[1..] == [Entry(other, w)] && queue[1..][1..] == [];
    var next := Put(context, key, v);
    assert FlushFields(next, queue[1..]) == FlushFields(Put(next, other, w), []);
    assert CacheSet([], key, v, 0) == [Slot(key, v, 0)];
    var one := [Slot(key, v, 0)];
    assert one[1..] == [] && Index(one, other) == 1;
    assert CacheSet(one, other, w, 0) == one + [Slot(other, w, 0)];
    hide CacheSet;
    assert FlushCache(one, queue[1..], 0) == FlushCache(CacheSet(one, other, w, 0), [], 0);
  }

  lemma RunOne<Ref>(config: Config, k: Kernel<Ref>, steps: seq<Step<Ref>>, s: Step<Ref>)
    requires WellFormed(k)
    ensures Run(config, k, steps + [s]) == Next(config, Run(config, k, steps), s)
    ensures AdmissibleRun(config, k, steps + [s])
       <==> AdmissibleRun(config, k, steps) && Admissible(config, Run(config, k, steps), s)
  {
    hide Next, Admissible;
    assert (steps + [s])[..|steps|] == steps;
  }

  /** Every admissible run ends in a coherent kernel. */
  ghost predicate AlwaysCoherent(config: Config) {
    forall steps: seq<Step<nat>> :: AdmissibleRun(config, Created(config, 0), steps)
      ==> Coherent(config, Run(config, Created(config, 0), steps))
  }

  const START: Step<nat> := DoInitialize(Succeeds, [], 1)

  lemma Started(config: Config)
    ensures AdmissibleRun(config, Created(config, 0), [START])
    ensures var k := Run(config, Created(config, 0), [START]);
            k.status == Running && k.cache == [] && k.queue == [] && k.timer == NoTimer && Context(k) == []
  {
    var none: seq<Step<nat>> := [];
    assert none + [START] == [START];
    RunOne(config, Created(config, 0), none, START);
  }

  /** The cache is coherent exactly under tenant isolation, and with batching only for other tenants than
      "tenant". */
  lemma CoherenceIsExact(config: Config)
    requires Plain(config.tenant)
    ensures AlwaysCoherent(config) <==> Separate(config)
  {
    hide Coherent, Run, AdmissibleRun, Next;
    if Separate(config) {
      forall steps: seq<Step<nat>> | AdmissibleRun(config, Created(config, 0), steps)
        ensures Coherent(config, Run(config, Created(config, 0), steps))
      {
        CoherentRun(config, 0, steps);
      }
    } else if config.isolation {
      LosesRecord(config);
    } else {
      LosesThread(config);
    }
  }

  lemma LosesThread(config: Config)
    requires Plain(config.tenant) && !config.isolation
    ensures !AlwaysCoherent(config)
  {
    hide Coherent, Run, AdmissibleRun, SetContext;
    var k0 := Created(config, 0);
    var s1: Step<nat> := DoSet(Cell("a", "n", "k"), Num("1"), 0);
    var s2: Step<nat> := DoSet(Cell("b", "n", "k"), Num("2"), 0);
    Started(config);
    RunOne(config, k0, [START], s1);
    RunOne(config, k0, [START] + [s1], s2);
    SharedCell(config, Run(config, k0, [START]), Num("1"), Num("2"));
    SetKeepsStatus(config, Run(config, k0, [START]), Cell("a", "n", "k"), Num("1"), 0);
  }

  lemma SetKeepsStatus<Ref>(config: Config, k: Kernel<Ref>, c: Cell, v: Value, now: int)
    requires WellFormed(k)
    ensures SetContext(config, k, c, v, now).0.status == k.status
  {
    hide WriteCell, CacheSet, CacheKey, Put;
  }

  lemma LosesRecord(config: Config)
    requires config.isolation && config.batching && config.tenant == "tenant"
    ensures !AlwaysCoherent(config)
  {
    Started(config);
    var k1 := Run(config, Created(config, 0), [START]);
    OverwrittenRecord(config, k1);
    LosesRecordFrom(config, k1);
  }

  /** The three steps of `OverwrittenRecord` are admissible. */
  lemma LosesRecordFrom(config: Config, k1: Kernel<nat>)
    requires AdmissibleRun(config, Created(config, 0), [START]) && k1 == Run(config, Created(config, 0), [START])
    requires k1.status == Running
    requires var k2 := SetContext(config, k1, X, Num("1"), 0).0;
             !Coherent(config, TimerFires(SetContext(config, k2, Y, Num("2"), 0).0, 0))
    ensures !AlwaysCoherent(config)
  {
    PlainCells();
    hide Coherent, Run, AdmissibleRun, SetContext, TimerFires, CacheKey, Clean, Plain;
    SetKeepsStatus(config, k1, X, Num("1"), 0);
    var k2 := SetContext(config, k1, X, Num("1"), 0).0;
    TimersAdmissible(config, SetContext(config, k2, Y, Num("2"), 0).0, 0);
    ThreeMore(config, Created(config, 0), [START], DoSet(X, Num("1"), 0), DoSet(Y, Num("2"), 0), DoTimer(0));
  }

  lemma ThreeMore<Ref>(config: Config, k: Kernel<Ref>, steps: seq<Step<Ref>>, a: Step<Ref>, b: Step<Ref>, c: Step<Ref>)
    requires WellFormed(k) && AdmissibleRun(config, k, steps)
    requires var k1 := Run(config, k, steps); var k2 := Next(config, k1, a); var k3 := Next(config, k2, b);
             Admissible(config, k1, a) && Admissible(config, k2, b) && Admissible(config, k3, c)
    ensures AdmissibleRun(config, k, steps + [a] + [b] + [c])
    ensures Run(config, k, steps + [a] + [b] + [c])
         == Next(config, Next(config, Next(config, Run(config, k, steps), a), b), c)
  {
    hide Next, Admissible, Run, AdmissibleRun;
    RunOne(config, k, steps, a);
    RunOne(config, k, steps + [a], b);
    RunOne(config, k, steps + [a] + [b], c);
  }

  lemma TimersAdmissible<Ref>(config: Config, k: Kernel<Ref>, now: int)
    ensures Admissible(config, k, DoTimer(now))
  {
  }
}
