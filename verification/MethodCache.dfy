// The cache of built authentication methods, and the configuration store whose
// listeners empty it. Building is deterministic.
module Methods {
  import opened Wrappers

  datatype MethodConfig = MethodConfig(id: string, kind: string, enabled: bool, config: string)

  datatype TenantConfig = TenantConfig(id: string, methods: seq<MethodConfig>)

  datatype Method = Method(id: string, kind: string, tenantId: string, config: string)

  // `parse` checks a configuration; `build` may throw.
  datatype Factory = Factory(parse: string -> Option<string>, build: (string, string, string, string) -> Option<Method>)

  type Factories = map<string, Factory>

  datatype LoadError =
    | NotConfigured | Disabled | KnownBad | UnknownKind | InvalidConfig | BuildThrew | FactoryMismatch

  function FindMethod(methods: seq<MethodConfig>, id: string): (r: Option<MethodConfig>)
    ensures r.Some? ==> r.value in methods && r.value.id == id
  {
    if methods == [] then None
    else if methods[0].id == id then Some(methods[0])
    else FindMethod(methods[1..], id)
  }

  function Build(factories: Factories, tenantId: string, cfg: MethodConfig): Result<Method, LoadError> {
    if cfg.kind !in factories then Err(UnknownKind)
    else
      var factory := factories[cfg.kind];
      var parsed := factory.parse(cfg.config);
      if parsed.None? then Err(InvalidConfig)
      else
        var built := factory.build(cfg.id, cfg.kind, tenantId, parsed.value);
        if built.None? then Err(BuildThrew)
        else if built.value.id != cfg.id || built.value.kind != cfg.kind then Err(FactoryMismatch)
        else Ok(built.value)
  }

  // What `resolve` means: build from the configuration, every time.
  function Uncached(factories: Factories, tenant: TenantConfig, methodId: string): Result<Method, LoadError> {
    var cfg := FindMethod(tenant.methods, methodId);
    if cfg.None? then Err(NotConfigured)
    else if !cfg.value.enabled then Err(Disabled)
    else Build(factories, tenant.id, cfg.value)
  }

  // ---------- The cache ----------

  const NUL := "\U{0000}"

  function Key(tenantId: string, methodId: string): string {
    tenantId + NUL + methodId
  }

  datatype Cache = Cache(built: map<string, Method>, disabled: set<string>)

  // What a build leaves in the cache.
  function Stored(c: Cache, key: string, built: Result<Method, LoadError>): Cache {
    if built.Ok? then c.(built := c.built[key := built.value]) else c.(disabled := c.disabled + {key})
  }

  // The configuration a miss goes on to build, if it gets that far.
  function ToBuild(c: Cache, tenant: TenantConfig, methodId: string): Result<MethodConfig, Result<Method, LoadError>> {
    var key := Key(tenant.id, methodId);
    var cfg := FindMethod(tenant.methods, methodId);
    if key in c.built then Err(Ok(c.built[key]))
    else if key in c.disabled then Err(Err(KnownBad))
    else if cfg.None? then Err(Err(NotConfigured))
    else if !cfg.value.enabled then Err(Err(Disabled))
    else Ok(cfg.value)
  }

  function ResolveSpec(factories: Factories, c: Cache, tenant: TenantConfig, methodId: string)
    : (Result<Method, LoadError>, Cache)
  {
    var cfg := ToBuild(c, tenant, methodId);
    if cfg.Err? then (cfg.error, c)
    else
      var built := Build(factories, tenant.id, cfg.value);
      (built, Stored(c, Key(tenant.id, methodId), built))
  }

  predicate StartsWith(s: string, prefix: string) {
    |prefix| <= |s| && s[..|prefix|] == prefix
  }

  function Invalidated(c: Cache, tenantId: string, methodId: Option<string>): Cache {
    if methodId.Some? then
      var key := Key(tenantId, methodId.value);
      Cache(c.built - {key}, c.disabled - {key})
    else
      Cache(map k | k in c.built && !StartsWith(k, tenantId + NUL) :: c.built[k],
            set k | k in c.disabled && !StartsWith(k, tenantId + NUL))
  }

  class MethodCache {
    const factories: Factories
    var cache: map<string, Method>
    var disabled: set<string>

    ghost function View(): Cache
      reads this
    {
      Cache(cache, disabled)
    }

    constructor (factories: Factories)
      ensures this.factories == factories && View() == Cache(map[], {})
    {
      this.factories := factories;
      cache, disabled := map[], {};
    }

    method Resolve(tenant: TenantConfig, methodId: string) returns (r: Result<Method, LoadError>)
      modifies this
      ensures (r, View()) == ResolveSpec(factories, old(View()), tenant, methodId)
    {
      var cacheKey := Key(tenant.id, methodId);
      if cacheKey in cache {
        return Ok(cache[cacheKey]);
      }
      if cacheKey in disabled {
        return Err(KnownBad);
      }
      var cfg := FindMethod(tenant.methods, methodId);
      if cfg.None? {
        return Err(NotConfigured);
      }
      if !cfg.value.enabled {
        return Err(Disabled);
      }
      var built := Build(factories, tenant.id, cfg.value);
      if built.Ok? {
        cache := cache[cacheKey := built.value];
      } else {
        disabled := disabled + {cacheKey};
      }
      return built;
    }

    method Invalidate(tenantId: string, methodId: Option<string>)
      modifies this
      ensures View() == Invalidated(old(View()), tenantId, methodId)
    {
      if methodId.Some? {
        var key := Key(tenantId, methodId.value);
        cache := cache - {key};
        disabled := disabled - {key};
        return;
      }
      var prefix := tenantId + NUL;
      var todo := cache.Keys;
      while todo != {}
        invariant todo <= cache.Keys <= old(cache).Keys && disabled == old(disabled)
        invariant forall k | k in cache :: cache[k] == old(cache)[k]
        invariant forall k | k in old(cache) && k !in todo :: k in cache <==> !StartsWith(k, prefix)
        decreases todo
      {
        var k :| k in todo;
        todo := todo - {k};
        if StartsWith(k, prefix) {
          cache := cache - {k};
        }
      }
      assert cache == Invalidated(old(View()), tenantId, None).built;
      todo := disabled;
      while todo != {}
        invariant todo <= disabled <= old(disabled) && cache == Invalidated(old(View()), tenantId, None).built
        invariant forall k | k in old(disabled) && k !in todo :: k in disabled <==> !StartsWith(k, prefix)
        decreases todo
      {
        var k :| k in todo;
        todo := todo - {k};
        if StartsWith(k, prefix) {
          disabled := disabled - {k};
        }
      }
    }
  }

  // ---------- The configuration store ----------

  class MemoryConfigStore {
    var tenants: map<string, TenantConfig>
    var listeners: set<MethodCache>

    constructor ()
      ensures tenants == map[] && listeners == {}
    {
      tenants, listeners := map[], {};
    }

    method OnInvalidate(listener: MethodCache)
      modifies this
      ensures tenants == old(tenants) && listeners == old(listeners) + {listener}
    {
      listeners := listeners + {listener};
    }

    // Every listener drops the tenant before the call returns.
    method PutTenantConfig(config: TenantConfig)
      modifies this, listeners
      ensures tenants == old(tenants)[config.id := config] && listeners == old(listeners)
      ensures forall c | c in listeners :: c.View() == Invalidated(old(c.View()), config.id, None)
    {
      tenants := tenants[config.id := config];
      var todo := listeners;
      while todo != {}
        invariant todo <= listeners == old(listeners) && tenants == old(tenants)[config.id := config]
        invariant forall c | c in listeners ::
                    c.View() == if c in todo then old(c.View()) else Invalidated(old(c.View()), config.id, None)
        decreases todo
      {
        var c :| c in todo;
        todo := todo - {c};
        c.Invalidate(config.id, None);
      }
    }
  }

  // The wiring at start-up: a new cache listens to the store.
  method CreateCache(factories: Factories, store: MemoryConfigStore) returns (cache: MethodCache)
    modifies store
    ensures fresh(cache) && cache.factories == factories && cache.View() == Cache(map[], {})
    ensures store.listeners == old(store.listeners) + {cache} && store.tenants == old(store.tenants)
  {
    cache := new MethodCache(factories);
    store.OnInvalidate(cache);
  }
}
