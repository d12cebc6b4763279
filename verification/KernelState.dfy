/** The execution kernel as a state machine: lifecycle, context store, write-behind queue, cache and
    snapshots. Context objects are named by references, so that a restored snapshot and the live
    context can be the same object. */
module KernelState {
  import opened Text
  import opened Json
  import opened Records
  import opened LruCache

  datatype Status = Initialized | Running | Paused | Completed | Failed

  /** `contextUpdateTimer`: unset, set and still to fire, or set although it has fired. */
  datatype Timer = NoTimer | Armed | Stale

  /** The configuration. `maxEvents` 0 stands for no event quota. */
  datatype Config = Config(
    tenant: string,
    isolation: bool,
    batching: bool,
    caching: bool,
    lazyLoading: bool,
    maxEvents: nat)

  const CACHE_SIZE: nat := 1000

  /** A stored snapshot: the object that holds its context, and its event count. */
  datatype Saved<Ref> = Saved(context: Ref, eventCount: nat)

  datatype Kernel<!Ref> = Kernel(
    status: Status,
    hasRuntime: bool,
    eventCount: nat,
    heap: map<Ref, Fields>,
    context: Ref,
    cache: seq<Slot<Value>>,
    queue: Fields,
    timer: Timer,
    snapshots: map<string, Saved<Ref>>)

  /** What a method call ends in. */
  datatype Outcome = Done | Threw

  predicate WellFormed<Ref>(k: Kernel<Ref>) {
    && k.context in k.heap
    && forall h | h in k.snapshots :: k.snapshots[h].context in k.heap
  }

  /** `r` is well formed and still has every object of `k`. */
  predicate Grown<Ref>(k: Kernel<Ref>, r: Kernel<Ref>) {
    WellFormed(r) && k.heap.Keys <= r.heap.Keys
  }

  /** The live `contextData`. */
  function Context<Ref>(k: Kernel<Ref>): Fields
    requires WellFormed(k)
  {
    k.heap[k.context]
  }

  function WithContext<Ref>(k: Kernel<Ref>, fields: Fields): (r: Kernel<Ref>)
    requires WellFormed(k)
    ensures Grown(k, r)
  {
    k.(heap := k.heap[k.context := fields])
  }

  function Created<Ref>(config: Config, ref: Ref): Kernel<Ref> {
    Kernel(Initialized, false, 0, map[ref := []], ref, [], [], NoTimer, map[])
  }

  // ----- Context cells

  /** Where a context value lives; an empty thread stands for none. */
  datatype Cell = Cell(thread: string, namespace: string, key: string)

  function CacheKeyParts(tenant: string, c: Cell): seq<string> {
    if c.thread == "" then [tenant, c.namespace, c.key] else [tenant, c.thread, c.namespace, c.key]
  }

  /** `${tenantId}:${threadId}:${namespace}:${key}`, without the thread if there is none. */
  function CacheKey(tenant: string, c: Cell): string {
    Join(CacheKeyParts(tenant, c), ':')
  }

  function ContextKeyParts(tenant: string, thread: string): seq<string> {
    if thread == "" then ["tenant", tenant] else ["tenant", tenant, "thread", thread]
  }

  /** `tenant:${tenantId}:thread:${threadId}`, without the thread if there is none. */
  function ContextKey(tenant: string, thread: string): string {
    Join(ContextKeyParts(tenant, thread), ':')
  }

  /** JavaScript's falsy values. */
  predicate Falsy(v: Value) {
    match v
    case Undefined => true
    case Null => true
    case Bool(b) => !b
    case Num(t) => t == "0" || t == "NaN"
    case Str(s) => s == ""
    case _ => false
  }

  /** A property of a record; reading through anything else gives `undefined`. */
  function Property(v: Value, key: string): Value {
    if v.Obj? then Get(v.fields, key) else Undefined
  }

  /** `getTenantContext` creates the tenant's record if it is missing. */
  function WithTenant(config: Config, context: Fields, thread: string): Fields {
    var ck := ContextKey(config.tenant, thread);
    if config.isolation && Falsy(Get(context, ck)) then Put(context, ck, Obj([])) else context
  }

  /** What `getTenantContext` returns. */
  function TenantContext(config: Config, context: Fields, thread: string): Value {
    if config.isolation then Get(context, ContextKey(config.tenant, thread)) else Obj(context)
  }

  /** The stored value of a cell. */
  function ReadCell(config: Config, context: Fields, c: Cell): Value {
    Property(Property(TenantContext(config, context, c.thread), c.namespace), c.key)
  }

  /** Writing a cell; `Threw` if a record is expected and something else is there. */
  function WriteCell(config: Config, context: Fields, c: Cell, v: Value): (Fields, Outcome) {
    var ctx := WithTenant(config, context, c.thread);
    var tenant := TenantContext(config, ctx, c.thread);
    if !tenant.Obj? then (ctx, Threw)
    else
      var spaces := if Falsy(Get(tenant.fields, c.namespace)) then Put(tenant.fields, c.namespace, Obj([]))
                    else tenant.fields;
      var space := Get(spaces, c.namespace);
      var after := if space.Obj? then Put(spaces, c.namespace, Obj(Put(space.fields, c.key, v))) else spaces;
      (if config.isolation then Put(ctx, ContextKey(config.tenant, c.thread), Obj(after)) else after,
       if space.Obj? then Done else Threw)
  }

  // ----- Context operations

  function CacheSet(cache: seq<Slot<Value>>, key: string, v: Value, now: int): seq<Slot<Value>> {
    Apply(cache, CACHE_SIZE, SetOp(key, v), now).0
  }

  /** `getContext`: the cached value if there is one, else the stored value, which is then cached. */
  function GetContext<Ref>(config: Config, k: Kernel<Ref>, c: Cell, now: int)
    : (r: (Kernel<Ref>, Value))
    requires WellFormed(k)
    ensures Grown(k, r.0)
  {
    var k1 := WithContext(k, WithTenant(config, Context(k), c.thread));
    var key := CacheKey(config.tenant, c);
    var i := Index(k.cache, key);
    if config.caching && i < |k.cache| then
      (k1.(cache := Apply(k.cache, CACHE_SIZE, GetOp(key), now).0), k.cache[i].value)
    else
      var v := ReadCell(config, Context(k1), c);
      (if config.caching && v != Undefined then k1.(cache := CacheSet(k.cache, key, v, now)) else k1, v)
  }

  function SetContext<Ref>(config: Config, k: Kernel<Ref>, c: Cell, v: Value, now: int)
    : (r: (Kernel<Ref>, Outcome))
    requires WellFormed(k)
    ensures Grown(k, r.0)
  {
    var (context, outcome) := WriteCell(config, Context(k), c, v);
    var k1 := WithContext(k, context);
    var key := CacheKey(config.tenant, c);
    if outcome == Threw then (k1, Threw)
    else if config.batching then
      (k1.(queue := Put(k.queue, key, v), timer := if k.timer == NoTimer then Armed else k.timer), Done)
    else (k1.(cache := CacheSet(k.cache, key, v, now)), Done)
  }

  /** `incrementContext`; `plus` is the JavaScript sum `(current || 0) + delta`. */
  function IncrementContext<Ref>(config: Config, k: Kernel<Ref>, c: Cell, plus: Value -> Value, now: int)
    : (r: (Kernel<Ref>, Value))
    requires WellFormed(k)
    ensures Grown(k, r.0)
  {
    var (k1, current) := GetContext(config, k, c, now);
    (SetContext(config, k1, c, plus(current), now).0, plus(current))
  }

  /** Writing the queued updates: into the context under their cache keys, and into the cache. */
  function FlushFields(context: Fields, queue: Fields): Fields
    decreases |queue|
  {
    if queue == [] then context else FlushFields(Put(context, queue[0].key, queue[0].value), queue[1..])
  }

  function FlushCache(cache: seq<Slot<Value>>, queue: Fields, now: int): seq<Slot<Value>>
    decreases |queue|
  {
    if queue == [] then cache else FlushCache(CacheSet(cache, queue[0].key, queue[0].value, now), queue[1..], now)
  }

  /** `flushContextUpdates`: with an empty queue it returns before it looks at the timer. */
  function Flush<Ref>(k: Kernel<Ref>, now: int): (r: Kernel<Ref>)
    requires WellFormed(k)
    ensures Grown(k, r)
  {
    if k.queue == [] then k
    else WithContext(k, FlushFields(Context(k), k.queue)).(
           cache := FlushCache(k.cache, k.queue, now), queue := [], timer := NoTimer)
  }

  /** The debounce timer fires. */
  function TimerFires<Ref>(k: Kernel<Ref>, now: int): (r: Kernel<Ref>)
    requires WellFormed(k)
    ensures Grown(k, r)
  {
    if k.timer != Armed then k else Flush(k.(timer := Stale), now)
  }

  // ----- Lifecycle

  function SynchronizeStates<Ref>(k: Kernel<Ref>): Kernel<Ref> {
    if k.hasRuntime && k.status == Initialized then k.(status := Running)
    else if !k.hasRuntime && k.status == Running then k.(status := Failed)
    else k
  }

  /** How far `initialize` gets: refused by the operation limit, failing before or after the context
      store is set up, or succeeding. */
  datatype InitResult = Refused | FailsEarly | FailsLate | Succeeds

  /** `initialize`; without lazy loading the context is replaced by a new object holding `loaded`. */
  function Initialize<Ref>(config: Config, k: Kernel<Ref>, result: InitResult, loaded: Fields, ref: Ref)
    : (r: (Kernel<Ref>, Outcome))
    requires WellFormed(k)
    ensures Grown(k, r.0)
  {
    if k.status == Running && k.hasRuntime then (k, Done)
    else if result == Refused || k.status != Initialized then (k, Threw)
    else if result == FailsEarly then (k.(status := Failed, hasRuntime := false), Threw)
    else
      var k1 := if config.lazyLoading then k else k.(heap := k.heap[ref := loaded], context := ref);
      if result == FailsLate then (k1.(status := Failed, hasRuntime := false), Threw)
      else (SynchronizeStates(k1.(status := Running, hasRuntime := true)), Done)
  }

  /** `pause`; `persisted` tells whether the store accepted the snapshot, `hash` is its hash, and `ref`
      the object of the JSON copy. */
  function Pause<Ref>(k: Kernel<Ref>, hash: string, ref: Ref, persisted: bool, now: int)
    : (r: (Kernel<Ref>, Outcome))
    requires WellFormed(k)
    ensures Grown(k, r.0)
  {
    if k.status != Running then (k, Threw)
    else
      var k1 := Flush(k, now);
      if !persisted then (k1, Threw)
      else (k1.(status := Paused,
                heap := k1.heap[ref := WireFields(Context(k1))],
                snapshots := k1.snapshots[hash := Saved(ref, k1.eventCount)]), Done)
  }

  /** `resume`: the snapshot's own context object becomes the live one. */
  function Resume<Ref>(k: Kernel<Ref>, hash: string): (r: (Kernel<Ref>, Outcome))
    requires WellFormed(k)
    ensures Grown(k, r.0)
  {
    if k.status != Paused || hash !in k.snapshots then (k, Threw)
    else
      (k.(status := Running, context := k.snapshots[hash].context,
          eventCount := k.snapshots[hash].eventCount, cache := [], queue := []), Done)
  }

  /** `prepareContextForEvent` */
  function PrepareContext(config: Config, context: Fields, eventType: string, event: Value, now: int)
    : (Fields, Outcome)
  {
    var c1 := Put(Put(context, "lastEvent", Str(eventType)), "lastEventTime", Num(IntText(now)));
    if config.lazyLoading then (c1, Done)
    else
      var history := if Falsy(Get(c1, "eventHistory")) then Arr([]) else Get(c1, "eventHistory");
      if history.Arr? then (Put(c1, "eventHistory", Arr(history.items + [event])), Done)
      else (Put(c1, "eventHistory", history), Threw)
  }

  /** `updateStateFromEvent` and `checkQuotas` */
  function CountEvent<Ref>(config: Config, k: Kernel<Ref>, hash: string, ref: Ref, persisted: bool, now: int)
    : (r: (Kernel<Ref>, Outcome))
    requires WellFormed(k)
    ensures Grown(k, r.0)
  {
    var counted := k.(eventCount := k.eventCount + 1);
    if config.maxEvents > 0 && counted.eventCount >= config.maxEvents then Pause(counted, hash, ref, persisted, now)
    else (counted, Done)
  }

  /** `sendEvent`; the remaining parameters are those of the pause that an exhausted quota causes. */
  function SendEvent<Ref>(config: Config, k: Kernel<Ref>, eventType: string, event: Value, emitted: bool,
                          hash: string, ref: Ref, persisted: bool, now: int): (r: (Kernel<Ref>, Outcome))
    requires WellFormed(k)
    ensures Grown(k, r.0)
  {
    if !k.hasRuntime then (k, Threw)
    else
      var (context, outcome) := PrepareContext(config, Context(k), eventType, event, now);
      var k1 := WithContext(k, context);
      if outcome == Threw || !emitted then (k1, Threw)
      else CountEvent(config, k1, hash, ref, persisted, now)
  }

  /** `cleanupPerformanceOptimizations` */
  function ClearedCaches<Ref>(k: Kernel<Ref>): Kernel<Ref> {
    k.(cache := [], queue := [], timer := NoTimer)
  }

  function Complete<Ref>(k: Kernel<Ref>, now: int): (r: Kernel<Ref>)
    requires WellFormed(k)
    ensures Grown(k, r)
  {
    if k.status == Completed then k else ClearedCaches(Flush(k, now).(status := Completed))
  }

  /** `reset`; `cleaned` tells whether the runtime's own clean-up succeeded. */
  function Reset<Ref>(k: Kernel<Ref>, cleaned: bool, ref: Ref): (r: (Kernel<Ref>, Outcome))
    requires WellFormed(k)
    ensures Grown(k, r.0)
  {
    var k1 := ClearedCaches(k);
    if k.hasRuntime && !cleaned then (k1.(status := Failed, hasRuntime := false), Threw)
    else
      (SynchronizeStates(k1.(hasRuntime := false, status := Initialized, eventCount := 0,
                             heap := k1.heap[ref := []], context := ref)), Done)
  }

  /** `enhancedCleanup` */
  function Cleanup<Ref>(k: Kernel<Ref>, cleaned: bool): (r: (Kernel<Ref>, Outcome))
    requires WellFormed(k)
    ensures Grown(k, r.0)
  {
    if k.hasRuntime && !cleaned then (k, Threw)
    else (ClearedCaches(k).(hasRuntime := false, status := Initialized), Done)
  }

  /** `clear` */
  function Clear<Ref>(k: Kernel<Ref>, cleaned: bool, ref: Ref): (r: (Kernel<Ref>, Outcome))
    requires WellFormed(k)
    ensures Grown(k, r.0)
  {
    var (k1, outcome) := Cleanup(k, cleaned);
    if outcome == Threw then (k1, Threw)
    else (k1.(heap := k1.heap[ref := []], context := ref, eventCount := 0, cache := [], queue := []), Done)
  }

  /** `recoverFromError`; the result tells whether the kernel runs again. */
  function Recover<Ref>(config: Config, k: Kernel<Ref>, cleaned: bool, result: InitResult, loaded: Fields, ref: Ref)
    : (r: (Kernel<Ref>, bool))
    requires WellFormed(k)
    ensures Grown(k, r.0)
  {
    if k.hasRuntime && !cleaned then (k.(status := Failed), false)
    else
      var (k1, outcome) := Initialize(config, k.(hasRuntime := false, status := Initialized), result, loaded, ref);
      if outcome == Threw then (k1.(status := Failed), false) else (k1, true)
  }

  // ----- Runs

  /** One step of a sequential run: a method call with its environment's choices, or a timer. */
  datatype Step<Ref> =
    | DoGet(cell: Cell, now: int)
    | DoSet(cell: Cell, value: Value, now: int)
    | DoIncrement(cell: Cell, plus: Value -> Value, now: int)
    | DoTimer(now: int)
    | DoInitialize(result: InitResult, loaded: Fields, ref: Ref)
    | DoSend(eventType: string, event: Value, emitted: bool, hash: string, ref: Ref, persisted: bool, now: int)
    | DoPause(hash: string, ref: Ref, persisted: bool, now: int)
    | DoResume(hash: string)
    | DoComplete(now: int)
    | DoReset(cleaned: bool, ref: Ref)
    | DoCleanup(cleaned: bool)
    | DoClear(cleaned: bool, ref: Ref)
    | DoRecover(cleaned: bool, result: InitResult, loaded: Fields, ref: Ref)

  /** A step allocates only objects that do not exist yet. */
  predicate Fresh<Ref>(k: Kernel<Ref>, s: Step<Ref>) {
    match s
    case DoInitialize(_, _, ref) => ref !in k.heap
    case DoSend(_, _, _, _, ref, _, _) => ref !in k.heap
    case DoPause(_, ref, _, _) => ref !in k.heap
    case DoReset(_, ref) => ref !in k.heap
    case DoClear(_, ref) => ref !in k.heap
    case DoRecover(_, _, _, ref) => ref !in k.heap
    case _ => true
  }

  function Next<Ref>(config: Config, k: Kernel<Ref>, s: Step<Ref>): (r: Kernel<Ref>)
    requires WellFormed(k)
    ensures Grown(k, r)
  {
    match s
    case DoGet(c, now) => GetContext(config, k, c, now).0
    case DoSet(c, v, now) => SetContext(config, k, c, v, now).0
    case DoIncrement(c, plus, now) => IncrementContext(config, k, c, plus, now).0
    case DoTimer(now) => TimerFires(k, now)
    case DoInitialize(result, loaded, ref) => Initialize(config, k, result, loaded, ref).0
    case DoSend(t, e, emitted, hash, ref, persisted, now) =>
      SendEvent(config, k, t, e, emitted, hash, ref, persisted, now).0
    case DoPause(hash, ref, persisted, now) => Pause(k, hash, ref, persisted, now).0
    case DoResume(hash) => Resume(k, hash).0
    case DoComplete(now) => Complete(k, now)
    case DoReset(cleaned, ref) => Reset(k, cleaned, ref).0
    case DoCleanup(cleaned) => Cleanup(k, cleaned).0
    case DoClear(cleaned, ref) => Clear(k, cleaned, ref).0
    case DoRecover(cleaned, result, loaded, ref) => Recover(config, k, cleaned, result, loaded, ref).0
  }

  /** The state after a run. */
  function Run<Ref>(config: Config, k: Kernel<Ref>, steps: seq<Step<Ref>>): (r: Kernel<Ref>)
    requires WellFormed(k)
    ensures WellFormed(r)
  {
    if steps == [] then k else Next(config, Run(config, k, steps[..|steps| - 1]), steps[|steps| - 1])
  }
}
