/** What the lifecycle calls of the kernel lead to, as their callers see it. */
module KernelOutcomes {
  import opened Text
  import opened Json
  import opened Records
  import opened LruCache
  import opened KernelState
  import opened KernelCells
  import opened KernelCoherence
  import opened KernelCaching

  /** Nothing is cached, queued or scheduled. */
  predicate Idle<Ref>(k: Kernel<Ref>) {
    k.cache == [] && k.queue == [] && k.timer == NoTimer
  }

  /** Every cell reads as undefined. */
  ghost predicate Forgotten<Ref>(config: Config, k: Kernel<Ref>)
    requires WellFormed(k)
  {
    forall c, now :: GetContext(config, k, c, now).1 == Undefined
  }

  lemma EmptyForgotten<Ref>(config: Config, k: Kernel<Ref>)
    requires WellFormed(k) && Context(k) == [] && k.cache == []
    ensures Forgotten(config, k)
  {
    forall c, now ensures GetContext(config, k, c, now).1 == Undefined {
      EmptyReads(config, c);
    }
  }

  lemma EmptyReads(config: Config, c: Cell)
    ensures ReadCell(config, WithTenant(config, [], c.thread), c) == Undefined
  {
  }

  // ----- Reset and clear

  /** A reset whose runtime clean-up succeeds leads to an initialized kernel without runtime and events, that
      has forgotten every value; the snapshots stay. Otherwise it fails, without runtime. */
  lemma ResetForgets<Ref>(config: Config, k: Kernel<Ref>, cleaned: bool, ref: Ref)
    requires WellFormed(k) && ref !in k.heap
    ensures var (r, outcome) := Reset(k, cleaned, ref);
            && Idle(r) && !r.hasRuntime && r.snapshots == k.snapshots
            && (forall o | o in k.heap :: r.heap[o] == k.heap[o])
            && if k.hasRuntime ==> cleaned
               then outcome == Done && r.status == Initialized && r.eventCount == 0 && Forgotten(config, r)
               else outcome == Threw && r.status == Failed && r.eventCount == k.eventCount && r.context == k.context
  {
    if k.hasRuntime ==> cleaned {
      EmptyForgotten(config, Reset(k, cleaned, ref).0);
    }
  }

  /** So does `clear`; a failing runtime clean-up leaves everything as it was. */
  lemma ClearForgets<Ref>(config: Config, k: Kernel<Ref>, cleaned: bool, ref: Ref)
    requires WellFormed(k) && ref !in k.heap
    ensures var (r, outcome) := Clear(k, cleaned, ref);
            if k.hasRuntime ==> cleaned
            then outcome == Done && Idle(r) && r.status == Initialized && !r.hasRuntime && r.eventCount == 0
                 && r.snapshots == k.snapshots && (forall o | o in k.heap :: r.heap[o] == k.heap[o])
                 && Forgotten(config, r)
            else outcome == Threw && r == k
  {
    if k.hasRuntime ==> cleaned {
      EmptyForgotten(config, Clear(k, cleaned, ref).0);
    }
  }

  /** The clean-up alone keeps the stored values and the event count. */
  lemma CleanupKeeps<Ref>(k: Kernel<Ref>, cleaned: bool)
    requires WellFormed(k)
    ensures var (r, outcome) := Cleanup(k, cleaned);
            if k.hasRuntime ==> cleaned
            then outcome == Done && Idle(r) && r.status == Initialized && !r.hasRuntime
                 && r.eventCount == k.eventCount && Context(r) == Context(k) && r.snapshots == k.snapshots
            else outcome == Threw && r == k
  {
  }

  // ----- Initialize

  /** Only an initialized kernel starts: then it runs, with the loaded values unless they are loaded lazily.
      A running one is left as it is, and any other refuses. A start that fails leaves a failed kernel. */
  lemma InitializeStarts<Ref>(config: Config, k: Kernel<Ref>, result: InitResult, loaded: Fields, ref: Ref)
    requires WellFormed(k) && ref !in k.heap
    ensures var (r, outcome) := Initialize(config, k, result, loaded, ref);
            && (outcome == Done <==>
                (k.status == Running && k.hasRuntime) || (k.status == Initialized && result == Succeeds))
            && (outcome == Done ==> r.status == Running && r.hasRuntime)
            && (k.status == Running && k.hasRuntime ==> r == k)
            && (!(k.status == Running && k.hasRuntime) && (k.status != Initialized || result == Refused) ==> r == k)
            && (k.status == Initialized && (result == FailsEarly || result == FailsLate) ==>
                  r.status == Failed && !r.hasRuntime)
            && r.eventCount == k.eventCount && r.queue == k.queue && r.cache == k.cache && r.timer == k.timer
            && r.snapshots == k.snapshots && (forall o | o in k.heap :: r.heap[o] == k.heap[o])
            && Context(r) == (if k.status == Initialized && (result == FailsLate || result == Succeeds)
                                 && !config.lazyLoading then loaded else Context(k))
  {
  }

  /** The first reads after a start without cached values find what was loaded, or what was there. */
  lemma InitializeReads<Ref>(config: Config, k: Kernel<Ref>, loaded: Fields, ref: Ref, c: Cell, now: int)
    requires WellFormed(k) && ref !in k.heap && k.status == Initialized && k.cache == []
    requires Separate(config) && Plain(config.tenant) && Clean(c) && k.queue == []
    ensures var r := Initialize(config, k, Succeeds, loaded, ref).0;
            GetContext(config, r, c, now).1 == ReadCell(config, if config.lazyLoading then Context(k) else loaded, c)
  {
    var r := Initialize(config, k, Succeeds, loaded, ref).0;
    InitializeStarts(config, k, Succeeds, loaded, ref);
    hide Initialize, GetContext, ReadCell;
    ClearedCoherent(config, r);
    ReadsStore(config, r, c, now);
  }

  // ----- Complete

  /** Completing flushes: the kernel is completed and idle, keeps its events and snapshots, and every cell
      reads as it was stored. Doing it again changes nothing. */
  lemma CompleteFlushes<Ref>(config: Config, k: Kernel<Ref>, now: int, c: Cell, later: int)
    requires Separate(config) && Plain(config.tenant) && Clean(c) && Coherent(config, k)
    requires k.status != Completed
    ensures var r := Complete(k, now);
            && WellFormed(k) && r.status == Completed && Idle(r) && r.hasRuntime == k.hasRuntime
            && r.eventCount == k.eventCount && r.snapshots == k.snapshots && r.context == k.context
            && GetContext(config, r, c, later).1 == ReadCell(config, Context(k), c)
            && Complete(r, later) == r
  {
    CoherentIsWellFormed(config, k);
    CoherentFlush(config, k, now);
    FlushFrame(k, now);
    hide ReadCell, Coherent, SameReads, GetContext, Flush;
    var r := Complete(k, now);
    ClearedCoherent(config, r);
    ReadsStore(config, r, c, later);
    ReadsAlike(config, Context(k), Context(Flush(k, now)), c);
  }

  lemma FlushFrame<Ref>(k: Kernel<Ref>, now: int)
    requires WellFormed(k)
    ensures var r := Flush(k, now);
            && r.status == k.status && r.hasRuntime == k.hasRuntime && r.eventCount == k.eventCount
            && r.snapshots == k.snapshots && r.context == k.context
  {
  }

  // ----- Events

  /** An event's type and time are stored, and without lazy loading the event itself ends the history, if
      there is one or none; nothing else changes. */
  lemma PreparedContext(config: Config, context: Fields, eventType: string, event: Value, now: int)
    ensures var (r, outcome) := PrepareContext(config, context, eventType, event, now);
            var history := Get(context, "eventHistory");
            && Get(r, "lastEvent") == Str(eventType) && Get(r, "lastEventTime") == Num(IntText(now))
            && (outcome == Done <==> config.lazyLoading || Falsy(history) || history.Arr?)
            && Get(r, "eventHistory") == (if config.lazyLoading || outcome == Threw then history
                                          else if Falsy(history) then Arr([event])
                                          else Arr(history.items + [event]))
            && forall key | key !in ["lastEvent", "lastEventTime", "eventHistory"] :: Get(r, key) == Get(context, key)
  {
    hide Lookup, Put, IntText;
    assert "lastEvent" != "lastEventTime";
    assert "lastEvent"[0] != "eventHistory"[0] && "lastEventTime"[0] != "eventHistory"[0];
    assert [] + [event] == [event];
  }

  /** An event that is prepared and taken by the runtime is counted; if that uses up the quota, the kernel
      pauses, or fails to. One that is not is not counted. */
  lemma SendCounts<Ref>(config: Config, k: Kernel<Ref>, eventType: string, event: Value, emitted: bool, hash: string,
                        ref: Ref, persisted: bool, now: int)
    requires WellFormed(k) && ref !in k.heap
    ensures var (r, outcome) := SendEvent(config, k, eventType, event, emitted, hash, ref, persisted, now);
            var prepared := PrepareContext(config, Context(k), eventType, event, now);
            var counted := k.hasRuntime && prepared.1 == Done && emitted;
            var quota := config.maxEvents > 0 && k.eventCount + 1 >= config.maxEvents;
            && r.eventCount == k.eventCount + (if counted then 1 else 0)
            && (outcome == Done <==> counted && (quota ==> k.status == Running && persisted))
            && r.status == (if counted && quota && k.status == Running && persisted then Paused else k.status)
            && (counted && !quota ==> Context(r) == prepared.0)
  {
    hide PrepareContext, FlushFields, FlushCache, WireFields;
  }

  // ----- Values, keys and capacity

  /** JavaScript's falsy values (section 7.1.2 of ECMA-262). */
  lemma FalsyValues(v: Value)
    ensures Falsy(v) <==> v in {Undefined, Null, Bool(false), Num("0"), Num("NaN"), Str("")}
  {
  }

  /** The keys of cells and records. */
  lemma KeyTexts(tenant: string, c: Cell)
    ensures c.thread == "" ==> CacheKey(tenant, c) == tenant + ":" + c.namespace + ":" + c.key
    ensures c.thread != "" ==> CacheKey(tenant, c) == tenant + ":" + c.thread + ":" + c.namespace + ":" + c.key
    ensures ContextKey(tenant, c.thread) == if c.thread == "" then "tenant:" + tenant
                                            else "tenant:" + tenant + ":thread:" + c.thread
  {
    var t, n, k := tenant, c.namespace, c.key;
    assert Join([n, k], ':') == n + ":" + k by { JoinTwo(n, k); }
    assert [t, n, k][1..] == [n, k];
    assert Join([t, n, k], ':') == t + ":" + (n + ":" + k);
    assert [t, c.thread, n, k][1..] == [c.thread, n, k] && [c.thread, n, k][1..] == [n, k];
    assert Join([c.thread, n, k], ':') == c.thread + ":" + (n + ":" + k);
    assert Join([t, c.thread, n, k], ':') == t + ":" + (c.thread + ":" + (n + ":" + k));
    JoinTwo("tenant", t);
    JoinTwo("thread", c.thread);
    assert ["tenant", t, "thread", c.thread][1..] == [t, "thread", c.thread];
    assert [t, "thread", c.thread][1..] == ["thread", c.thread];
    assert Join([t, "thread", c.thread], ':') == t + ":" + ("thread" + ":" + c.thread);
    assert Join(["tenant", t, "thread", c.thread], ':') == "tenant" + ":" + (t + ":" + ("thread" + ":" + c.thread));
  }

  lemma JoinTwo(a: string, b: string)
    ensures Join([a, b], ':') == a + ":" + b
  {
    assert [a, b][1..] == [b];
  }

  /** A new value makes the cache grow up to a thousand entries and then replaces one. */
  lemma ThousandEntries(cache: seq<Slot<Value>>, key: string, v: Value, now: int)
    requires Bounded(cache, 1000) && !HasKey(cache, key) && key != ""
    ensures |CacheSet(cache, key, v, now)| == if |cache| < 1000 then |cache| + 1 else 1000
  {
    if |cache| >= 1000 {
      assert cache[Oldest(cache)] in cache;
      WithoutMembers(cache, cache[Oldest(cache)].key);
      assert HasKey(cache, cache[Oldest(cache)].key);
    }
  }

  /** `synchronizeStates` leaves status and runtime in agreement, and changes only what disagrees. */
  lemma SynchronizeRepairs<Ref>(k: Kernel<Ref>)
    ensures var r := SynchronizeStates(k);
            && r == k.(status := r.status)
            && (k.hasRuntime && k.status == Initialized ==> r.status == Running)
            && (!k.hasRuntime && k.status == Running ==> r.status == Failed)
            && (!(k.hasRuntime && k.status == Initialized) && !(!k.hasRuntime && k.status == Running) ==> r == k)
  {
  }

  // ----- Pause, resume, recovery

  /** Only a running kernel pauses, and only if the snapshot is stored; the snapshot has the event count and
      a JSON copy of the flushed context. */
  lemma PauseStores<Ref>(k: Kernel<Ref>, hash: string, ref: Ref, persisted: bool, now: int)
    requires WellFormed(k) && ref !in k.heap
    ensures var (r, outcome) := Pause(k, hash, ref, persisted, now);
            && (outcome == Done <==> k.status == Running && persisted)
            && r.status == (if outcome == Done then Paused else k.status)
            && r.eventCount == k.eventCount && r.hasRuntime == k.hasRuntime && r.context == k.context
            && (k.status == Running ==> r.queue == [])
            && (outcome == Done ==>
                  hash in r.snapshots && r.snapshots[hash].eventCount == k.eventCount
                  && r.heap[r.snapshots[hash].context] == WireFields(Context(r)))
            && forall h | h in k.snapshots && (h != hash || outcome == Threw) ::
                 h in r.snapshots && r.snapshots[h] == k.snapshots[h]
  {
    hide FlushFields, FlushCache, WireFields;
  }

  /** Only a paused kernel resumes, and only a snapshot that is stored; otherwise nothing changes. */
  lemma ResumeRestores<Ref>(k: Kernel<Ref>, hash: string)
    requires WellFormed(k)
    ensures var (r, outcome) := Resume(k, hash);
            && (outcome == Done <==> k.status == Paused && hash in k.snapshots)
            && (outcome == Threw ==> r == k)
            && (outcome == Done ==>
                  r.status == Running && r.hasRuntime == k.hasRuntime && r.cache == [] && r.queue == []
                  && r.eventCount == k.snapshots[hash].eventCount && Context(r) == k.heap[k.snapshots[hash].context]
                  && r.heap == k.heap && r.snapshots == k.snapshots)
  {
  }

  /** Recovery starts the kernel anew or leaves it failed. */
  lemma RecoverRestarts<Ref>(config: Config, k: Kernel<Ref>, cleaned: bool, result: InitResult, loaded: Fields,
                             ref: Ref)
    requires WellFormed(k) && ref !in k.heap
    ensures var (r, recovered) := Recover(config, k, cleaned, result, loaded, ref);
            && (recovered <==> (k.hasRuntime ==> cleaned) && result == Succeeds)
            && (if recovered then r.status == Running && r.hasRuntime else r.status == Failed)
            && (k.hasRuntime && cleaned && !recovered ==> !r.hasRuntime)
            && r.eventCount == k.eventCount && r.snapshots == k.snapshots
  {
  }
}
