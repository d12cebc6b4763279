/** The context store as an array of cells: identifiers without a colon name distinct cells, and under
    tenant isolation writing one leaves every other unchanged. */
module KernelCells {
  import opened Text
  import opened Json
  import opened Records
  import opened KernelState

  /** An identifier that cannot be mistaken for several. */
  predicate Plain(s: string) {
    ':' !in s
  }

  predicate Clean(c: Cell) {
    Plain(c.thread) && Plain(c.namespace) && Plain(c.key)
  }

  // ----- Keys

  lemma CacheKeySplit(tenant: string, c: Cell)
    requires Plain(tenant) && Clean(c)
    ensures Split(CacheKey(tenant, c), ':') == CacheKeyParts(tenant, c)
  {
    SplitJoin(CacheKeyParts(tenant, c), ':');
  }

  lemma ContextKeySplit(tenant: string, thread: string)
    requires Plain(tenant) && Plain(thread)
    ensures Split(ContextKey(tenant, thread), ':') == ContextKeyParts(tenant, thread)
  {
    SplitJoin(ContextKeyParts(tenant, thread), ':');
  }

  lemma CacheKeyInjective(tenant: string, c: Cell, d: Cell)
    requires Plain(tenant) && Clean(c) && Clean(d)
    requires CacheKey(tenant, c) == CacheKey(tenant, d)
    ensures c == d
  {
    hide CacheKey, Split;
    CacheKeySplit(tenant, c);
    CacheKeySplit(tenant, d);
    var p, q := CacheKeyParts(tenant, c), CacheKeyParts(tenant, d);
    assert |p| == |q| && p[1] == q[1] && p[2] == q[2] && p[|p| - 1] == q[|q| - 1];
  }

  lemma ContextKeyInjective(tenant: string, t: string, u: string)
    requires Plain(tenant) && Plain(t) && Plain(u)
    requires ContextKey(tenant, t) == ContextKey(tenant, u)
    ensures t == u
  {
    hide ContextKey, Split;
    ContextKeySplit(tenant, t);
    ContextKeySplit(tenant, u);
    var p, q := ContextKeyParts(tenant, t), ContextKeyParts(tenant, u);
    assert |p| == |q| && p[|p| - 1] == q[|q| - 1];
  }

  /** A cell's cache key is no tenant record's key, unless the tenant is called "tenant". */
  lemma CacheKeyIsNoContextKey(tenant: string, c: Cell, thread: string)
    requires Plain(tenant) && Clean(c) && Plain(thread) && tenant != "tenant"
    ensures CacheKey(tenant, c) != ContextKey(tenant, thread)
  {
    hide CacheKey, ContextKey, Split;
    CacheKeySplit(tenant, c);
    ContextKeySplit(tenant, thread);
    assert CacheKeyParts(tenant, c)[0] != ContextKeyParts(tenant, thread)[0];
  }

  lemma PlainIsNoContextKey(tenant: string, thread: string, key: string)
    requires Plain(tenant) && Plain(thread) && Plain(key)
    ensures key != ContextKey(tenant, thread)
  {
    hide ContextKey, Split;
    ContextKeySplit(tenant, thread);
    SplitSeparatorFree(key, ':');
    assert |ContextKeyParts(tenant, thread)| > 1;
  }

  // ----- Reading after writing

  /** Two contexts that no cell tells apart. */
  ghost predicate SameReads(config: Config, a: Fields, b: Fields) {
    forall c: Cell | Clean(c) :: ReadCell(config, a, c) == ReadCell(config, b, c)
  }

  /** `b` is `a` with cell `c` set to `v`. */
  ghost predicate Updates(config: Config, a: Fields, b: Fields, c: Cell, v: Value) {
    && ReadCell(config, b, c) == v
    && forall d: Cell | Clean(d) && d != c :: ReadCell(config, a, d) == ReadCell(config, b, d)
  }

  lemma PutElsewhere(config: Config, context: Fields, key: string, v: Value)
    requires config.isolation
    requires forall thread: string | Plain(thread) :: key != ContextKey(config.tenant, thread)
    ensures SameReads(config, context, Put(context, key, v))
  {
    hide ContextKey, Property;
  }

  lemma WithTenantReads(config: Config, context: Fields, thread: string)
    requires Plain(config.tenant) && Plain(thread)
    ensures SameReads(config, context, WithTenant(config, context, thread))
  {
    forall c: Cell | Clean(c)
      ensures ReadCell(config, context, c) == ReadCell(config, WithTenant(config, context, thread), c)
    {
      if config.isolation && ContextKey(config.tenant, thread) == ContextKey(config.tenant, c.thread) {
        ContextKeyInjective(config.tenant, thread, c.thread);
      }
    }
  }

  /** The namespaces of a tenant after a write. */
  function WrittenSpaces(fields: Fields, namespace: string, key: string, v: Value): (Fields, Outcome) {
    var spaces := if Falsy(Get(fields, namespace)) then Put(fields, namespace, Obj([])) else fields;
    var space := Get(spaces, namespace);
    if space.Obj? then (Put(spaces, namespace, Obj(Put(space.fields, key, v))), Done) else (spaces, Threw)
  }

  lemma WrittenSpacesReads(fields: Fields, namespace: string, key: string, v: Value, n: string, k: string)
    ensures var (after, outcome) := WrittenSpaces(fields, namespace, key, v);
            var expected := if outcome == Done && n == namespace && k == key then v else Property(Get(fields, n), k);
            Property(Get(after, n), k) == expected
  {
  }

  lemma WriteCellParts(config: Config, context: Fields, c: Cell, v: Value)
    requires config.isolation
    ensures var ctx := WithTenant(config, context, c.thread);
            var tenant := Get(ctx, ContextKey(config.tenant, c.thread));
            var written := if tenant.Obj? then WrittenSpaces(tenant.fields, c.namespace, c.key, v) else ([], Threw);
            var after := if tenant.Obj? then Put(ctx, ContextKey(config.tenant, c.thread), Obj(written.0)) else ctx;
            WriteCell(config, context, c, v) == (after, written.1)
  {
    hide ContextKey, WithTenant;
  }

  /** Under isolation a write that succeeds changes its own cell and no other; one that fails changes none. */
  lemma WriteCellReads(config: Config, context: Fields, c: Cell, v: Value)
    requires config.isolation && Plain(config.tenant) && Clean(c)
    ensures var (after, outcome) := WriteCell(config, context, c, v);
            if outcome == Done then Updates(config, context, after, c, v) else SameReads(config, context, after)
  {
    hide WithTenant, ContextKey, WriteCell, WrittenSpaces, Property;
    WriteCellParts(config, context, c, v);
    WithTenantReads(config, context, c.thread);
    var ctx := WithTenant(config, context, c.thread);
    var tenant := Get(ctx, ContextKey(config.tenant, c.thread));
    if tenant.Obj? {
      var (after, outcome) := WrittenSpaces(tenant.fields, c.namespace, c.key, v);
      forall d: Cell | Clean(d)
        ensures ReadCell(config, WriteCell(config, context, c, v).0, d)
             == if outcome == Done && c == d then v else ReadCell(config, ctx, d)
      {
        if d.thread == c.thread {
          WrittenSpacesReads(tenant.fields, c.namespace, c.key, v, d.namespace, d.key);
          TenantReads(config, ctx, d);
          TenantReads(config, WriteCell(config, context, c, v).0, d);
        } else if ContextKey(config.tenant, c.thread) == ContextKey(config.tenant, d.thread) {
          ContextKeyInjective(config.tenant, c.thread, d.thread);
        }
      }
    }
  }

  lemma TenantReads(config: Config, context: Fields, c: Cell)
    requires config.isolation && Get(context, ContextKey(config.tenant, c.thread)).Obj?
    ensures ReadCell(config, context, c)
         == Property(Get(Get(context, ContextKey(config.tenant, c.thread)).fields, c.namespace), c.key)
  {
    hide ContextKey;
  }
}
