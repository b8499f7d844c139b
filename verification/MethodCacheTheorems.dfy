// Caching is transparent: whatever was read, resolved, put and invalidated before,
// `resolve` answers as if it built the method from the current configuration.
// The exact condition is on the requests under way when a configuration changes.
module MethodCacheTheorems {
  import opened Wrappers
  import opened Methods

  // A request holds the copy of the configuration it read, and resolves these
  // methods from it one after the other. `building` says whether it has missed
  // the cache on the first of them and is waiting for the build.
  datatype Request = Request(tenant: TenantConfig, todo: seq<string>, building: bool)

  // A tenant is unsettled from the write of a new configuration until the
  // listeners have been told.
  datatype System = System(
    tenants: map<string, TenantConfig>, cache: Cache, requests: map<nat, Request>, unsettled: set<string>)

  const EMPTY := System(map[], Cache(map[], {}), map[], {})

  datatype Action =
    | Read(pid: nat, copy: TenantConfig, todo: seq<string>)   // a replica may return an older copy
    | LookUp(pid: nat)
    | Finish(pid: nat)
    | End(pid: nat)
    | Write(config: TenantConfig)
    | Notify(tenantId: string)
    | Invalidate(tenantId: string, methodId: string)

  function Step(factories: Factories, s: System, a: Action): System {
    match a
    case Read(pid, copy, todo) =>
      if pid in s.requests || copy.id !in s.tenants then s
      else s.(requests := s.requests[pid := Request(copy, todo, false)])
    case LookUp(pid) =>
      if pid !in s.requests || s.requests[pid].building || s.requests[pid].todo == [] then s
      else
        var r := s.requests[pid];
        var cfg := ToBuild(s.cache, r.tenant, r.todo[0]);
        s.(requests := s.requests[pid := if cfg.Ok? then r.(building := true) else r.(todo := r.todo[1..])])
    case Finish(pid) =>
      if pid !in s.requests || !s.requests[pid].building || s.requests[pid].todo == [] then s
      else
        var r := s.requests[pid];
        if !Enabled(r.tenant, r.todo[0]) then s
        else
          s.(cache := Stored(s.cache, Key(r.tenant.id, r.todo[0]), Uncached(factories, r.tenant, r.todo[0])),
             requests := s.requests[pid := Request(r.tenant, r.todo[1..], false)])
    case End(pid) => s.(requests := s.requests - {pid})
    case Write(config) =>
      s.(tenants := s.tenants[config.id := config], unsettled := s.unsettled + {config.id})
    case Notify(tenantId) =>
      s.(cache := Invalidated(s.cache, tenantId, None), unsettled := s.unsettled - {tenantId})
    case Invalidate(tenantId, methodId) => s.(cache := Invalidated(s.cache, tenantId, Some(methodId)))
  }

  // The method is there and switched on: then resolving it uncached is building it.
  predicate Enabled(tenant: TenantConfig, methodId: string) {
    var cfg := FindMethod(tenant.methods, methodId);
    cfg.Some? && cfg.value.enabled
  }

  // Storing the configuration and telling the listeners.
  function Put(factories: Factories, s: System, config: TenantConfig): System {
    Step(factories, Step(factories, s, Write(config)), Notify(config.id))
  }

  function After(factories: Factories, s: System, acts: seq<Action>): System
    decreases |acts|
  {
    if acts == [] then s else After(factories, Step(factories, s, acts[0]), acts[1..])
  }

  predicate NulFree(s: string) {
    NUL[0] !in s
  }

  // The same method, or failure on both sides.
  predicate Agree(a: Result<Method, LoadError>, b: Result<Method, LoadError>) {
    a == b || (a.Err? && b.Err?)
  }

  // What the request would store, for each method it has yet to resolve and finds
  // enabled, is what this configuration gives.
  predicate Harmless(factories: Factories, r: Request, config: TenantConfig) {
    forall m | m in r.todo && Enabled(r.tenant, m) :: Agree(Uncached(factories, r.tenant, m), Uncached(factories, config, m))
  }

  predicate AllHarmless(factories: Factories, s: System, config: TenantConfig) {
    forall pid | pid in s.requests && s.requests[pid].tenant.id == config.id :: Harmless(factories, s.requests[pid], config)
  }

  // Tenant ids hold no NUL. When listeners are told of a configuration, it changes
  // nothing for the requests of its tenant under way; and no request begins with
  // an older copy that differs from it.
  predicate Allowed(factories: Factories, s: System, a: Action) {
    match a
    case Write(config) => NulFree(config.id)
    case Notify(tenantId) => tenantId in s.tenants ==> AllHarmless(factories, s, s.tenants[tenantId])
    case Read(pid, copy, todo) =>
      copy.id in s.tenants && copy.id !in s.unsettled ==>
        Harmless(factories, Request(copy, todo, false), s.tenants[copy.id])
    case _ => true
  }

  predicate AllAllowed(factories: Factories, s: System, acts: seq<Action>)
    decreases |acts|
  {
    acts == [] || (Allowed(factories, s, acts[0]) && AllAllowed(factories, Step(factories, s, acts[0]), acts[1..]))
  }

  // Whatever is resolved next from the configuration of a settled tenant, the answer
  // is that of an uncached build, or both fail.
  ghost predicate Transparent(factories: Factories, s: System) {
    forall t, m | t in s.tenants && t !in s.unsettled ::
      Agree(ResolveSpec(factories, s.cache, s.tenants[t], m).0, Uncached(factories, s.tenants[t], m))
  }

  ghost predicate WellFormed(s: System) {
    && (forall t | t in s.tenants :: NulFree(t) && s.tenants[t].id == t)
    && (forall pid | pid in s.requests ::
          var r := s.requests[pid];
          r.tenant.id in s.tenants && (r.building ==> r.todo != [] && Enabled(r.tenant, r.todo[0])))
  }

  ghost predicate CacheIsTrue(factories: Factories, s: System) {
    forall t, m | t in s.tenants && t !in s.unsettled :: EntryIsTrue(factories, s, t, m)
  }

  predicate EntryIsTrue(factories: Factories, s: System, t: string, m: string)
    requires t in s.tenants
  {
    var key := Key(t, m);
    if key in s.cache.built then Uncached(factories, s.tenants[t], m) == Ok(s.cache.built[key])
    else key in s.cache.disabled ==> Uncached(factories, s.tenants[t], m).Err?
  }

  ghost predicate RequestsAreSafe(factories: Factories, s: System) {
    forall t | t in s.tenants && t !in s.unsettled :: AllHarmless(factories, s, s.tenants[t])
  }

  ghost predicate Inv(factories: Factories, s: System) {
    WellFormed(s) && CacheIsTrue(factories, s) && RequestsAreSafe(factories, s)
  }

  // ---------- What resolving and invalidating mean ----------

  // A method id names the first method configured under it.
  lemma {:induction false} FirstMethodFound(methods: seq<MethodConfig>, id: string) returns (i: nat)
    ensures i <= |methods| && forall j | 0 <= j < i :: methods[j].id != id
    ensures if i < |methods| then methods[i].id == id && FindMethod(methods, id) == Some(methods[i])
            else FindMethod(methods, id) == None
  {
    if methods == [] || methods[0].id == id {
      i := 0;
    } else {
      i := FirstMethodFound(methods[1..], id);
      i := i + 1;
    }
  }

  // What the first method configured under the id gives: the method its factory
  // builds for this tenant from what it makes of the configuration, if it is
  // enabled and the factory returns what it was asked for; and else why not.
  lemma UncachedMeans(factories: Factories, tenant: TenantConfig, id: string, i: nat)
    requires i <= |tenant.methods| && forall j | 0 <= j < i :: tenant.methods[j].id != id
    requires i < |tenant.methods| ==> tenant.methods[i].id == id
    ensures var r := Uncached(factories, tenant, id);
            if i == |tenant.methods| then r == Err(NotConfigured)
            else
              var cfg := tenant.methods[i];
              if !cfg.enabled then r == Err(Disabled)
              else if cfg.kind !in factories then r == Err(UnknownKind)
              else
                var parsed := factories[cfg.kind].parse(cfg.config);
                if parsed.None? then r == Err(InvalidConfig)
                else
                  var built := factories[cfg.kind].build(id, cfg.kind, tenant.id, parsed.value);
                  && (r == Err(BuildThrew) <==> built.None?)
                  && (r == Err(FactoryMismatch) <==> built.Some? && !(built.value.id == id && built.value.kind == cfg.kind))
                  && (r.Ok? <==> built.Some? && built.value.id == id && built.value.kind == cfg.kind)
                  && (r.Ok? ==> r.value == built.value)
  {
    var f := FirstMethodFound(tenant.methods, id);
    assert f == i;
  }

  // What was built is answered again, what failed is refused until it is invalidated,
  // and of the rest every build is remembered, whichever way it went.
  lemma ResolveMeans(factories: Factories, c: Cache, tenant: TenantConfig, id: string)
    ensures var key := Key(tenant.id, id);
            var (r, c') := ResolveSpec(factories, c, tenant, id);
            && (key in c.built ==> r == Ok(c.built[key]) && c' == c)
            && (key !in c.built && key in c.disabled ==> r == Err(KnownBad) && c' == c)
            && (key !in c.built && key !in c.disabled ==>
                  && r == Uncached(factories, tenant, id)
                  && c'.built == (if r.Ok? then c.built[key := r.value] else c.built)
                  && c'.disabled == (if r.Ok? || r.error.NotConfigured? || r.error.Disabled? then c.disabled
                                     else c.disabled + {key}))
  {
    var i := FirstMethodFound(tenant.methods, id);
    UncachedMeans(factories, tenant, id, i);
  }

  // Invalidating one method, or a tenant's, forgets those and no others.
  lemma InvalidationMeans(c: Cache, t: string, id: Option<string>, t': string, id': string)
    requires NulFree(t) && NulFree(t')
    ensures var key, c' := Key(t', id'), Invalidated(c, t, id);
            var gone := t' == t && (id.None? || id == Some(id'));
            && (key in c'.built <==> key in c.built && !gone)
            && (key in c'.disabled <==> key in c.disabled && !gone)
            && (key in c'.built ==> c'.built[key] == c.built[key])
  {
    if id.Some? {
      if Key(t', id') == Key(t, id.value) { KeysDiffer(t, id.value, t', id'); }
    } else {
      PrefixIsTenant(t', id', t);
    }
  }

  lemma KeysDiffer(t: string, m: string, t': string, m': string)
    requires NulFree(t) && NulFree(t') && Key(t, m) == Key(t', m')
    ensures t == t' && m == m'
  {
    var k := Key(t, m);
    assert k[|t|] == NUL[0] && Key(t', m')[|t'|] == NUL[0];
    assert forall i | 0 <= i < |t| :: k[i] == t[i];
    assert forall i | 0 <= i < |t'| :: Key(t', m')[i] == t'[i];
    assert |t| == |t'|;
    assert t == k[..|t|] && m == k[|t| + 1..] && t' == Key(t', m')[..|t'|] && m' == Key(t', m')[|t'| + 1..];
  }

  lemma PrefixIsTenant(t: string, m: string, t': string)
    requires NulFree(t) && NulFree(t')
    ensures StartsWith(Key(t, m), t' + NUL) <==> t == t'
  {
    if StartsWith(Key(t, m), t' + NUL) {
      var rest := Key(t, m)[|t' + NUL|..];
      assert Key(t, m) == Key(t, m)[..|t' + NUL|] + rest == Key(t', rest);
      KeysDiffer(t, m, t', rest);
    }
    assert Key(t, m)[..|t + NUL|] == t + NUL;
  }

  // ---------- Steps ----------

  // The cache is true exactly when the next resolve of anything is.
  lemma TrueIsTransparent(factories: Factories, s: System)
    requires WellFormed(s)
    ensures CacheIsTrue(factories, s) <==> Transparent(factories, s)
  {
    forall t, m | t in s.tenants && t !in s.unsettled
      ensures EntryIsTrue(factories, s, t, m)
         <==> Agree(ResolveSpec(factories, s.cache, s.tenants[t], m).0, Uncached(factories, s.tenants[t], m))
    {
    }
  }

  lemma StoringKeeps(factories: Factories, s: System, tenant: TenantConfig, m: string)
    requires WellFormed(s) && CacheIsTrue(factories, s) && tenant.id in s.tenants
    requires tenant.id !in s.unsettled ==> Agree(Uncached(factories, tenant, m), Uncached(factories, s.tenants[tenant.id], m))
    ensures CacheIsTrue(factories, s.(cache := Stored(s.cache, Key(tenant.id, m), Uncached(factories, tenant, m))))
  {
    var s' := s.(cache := Stored(s.cache, Key(tenant.id, m), Uncached(factories, tenant, m)));
    forall t', m' | t' in s'.tenants && t' !in s'.unsettled
      ensures EntryIsTrue(factories, s', t', m')
    {
      assert EntryIsTrue(factories, s, t', m');
      if Key(t', m') == Key(tenant.id, m) { KeysDiffer(t', m', tenant.id, m); }
    }
  }

  lemma FinishKeeps(factories: Factories, s: System, pid: nat)
    requires Inv(factories, s)
    ensures Inv(factories, Step(factories, s, Finish(pid)))
  {
    var s' := Step(factories, s, Finish(pid));
    if s' != s {
      var r := s.requests[pid];
      var t, m := r.tenant.id, r.todo[0];
      assert m in r.todo && forall x | x in r.todo[1..] :: x in r.todo;
      if t !in s.unsettled {
        assert AllHarmless(factories, s, s.tenants[t]) && Harmless(factories, r, s.tenants[t]);
      }
      StoringKeeps(factories, s, r.tenant, m);
      SameCache(factories, s.(cache := s'.cache), s');
      TodosShrink(factories, s, s');
    }
  }

  // Requests that end, or have less to do, stay harmless.
  lemma TodosShrink(factories: Factories, s: System, s': System)
    requires RequestsAreSafe(factories, s) && s'.tenants == s.tenants && s'.unsettled == s.unsettled
    requires forall pid | pid in s'.requests ::
               pid in s.requests && s'.requests[pid].tenant == s.requests[pid].tenant
               && forall m | m in s'.requests[pid].todo :: m in s.requests[pid].todo
    ensures RequestsAreSafe(factories, s')
  {
    forall t | t in s'.tenants && t !in s'.unsettled
      ensures AllHarmless(factories, s', s'.tenants[t])
    {
      assert AllHarmless(factories, s, s.tenants[t]);
    }
  }

  lemma LookUpKeeps(factories: Factories, s: System, pid: nat)
    requires Inv(factories, s)
    ensures Inv(factories, Step(factories, s, LookUp(pid)))
  {
    var s' := Step(factories, s, LookUp(pid));
    if s' != s {
      var r := s.requests[pid];
      assert forall x | x in r.todo[1..] :: x in r.todo;
      TodosShrink(factories, s, s');
      SameCache(factories, s, s');
    }
  }

  lemma SameCache(factories: Factories, s: System, s': System)
    requires CacheIsTrue(factories, s) && s'.cache == s.cache
    requires forall t | t in s'.tenants && t !in s'.unsettled :: t in s.tenants && t !in s.unsettled && s'.tenants[t] == s.tenants[t]
    ensures CacheIsTrue(factories, s')
  {
    forall t, m | t in s'.tenants && t !in s'.unsettled
      ensures EntryIsTrue(factories, s', t, m)
    {
      assert EntryIsTrue(factories, s, t, m);
    }
  }

  lemma NotifyKeepsCache(factories: Factories, s: System, tenantId: string)
    requires WellFormed(s) && CacheIsTrue(factories, s)
    ensures CacheIsTrue(factories, Step(factories, s, Notify(tenantId)))
  {
    var s' := Step(factories, s, Notify(tenantId));
    forall t, m | t in s'.tenants && t !in s'.unsettled
      ensures EntryIsTrue(factories, s', t, m)
    {
      if t == tenantId {
        assert Key(t, m)[..|t + NUL|] == t + NUL;
      } else {
        assert EntryIsTrue(factories, s, t, m);
        if NulFree(tenantId) { PrefixIsTenant(t, m, tenantId); }
      }
    }
  }

  lemma InvalidationKeepsCache(factories: Factories, s: System, tenantId: string, methodId: string)
    requires CacheIsTrue(factories, s)
    ensures CacheIsTrue(factories, Step(factories, s, Invalidate(tenantId, methodId)))
  {
    var s' := Step(factories, s, Invalidate(tenantId, methodId));
    forall t, m | t in s'.tenants && t !in s'.unsettled
      ensures EntryIsTrue(factories, s', t, m)
    {
      assert EntryIsTrue(factories, s, t, m);
    }
  }

  lemma StepKeeps(factories: Factories, s: System, a: Action)
    requires Inv(factories, s) && Allowed(factories, s, a)
    ensures Inv(factories, Step(factories, s, a))
  {
    match a {
      case Read(pid, copy, todo) => ReadKeeps(factories, s, pid, copy, todo);
      case LookUp(pid) => LookUpKeeps(factories, s, pid);
      case Finish(pid) => FinishKeeps(factories, s, pid);
      case End(pid) =>
        TodosShrink(factories, s, Step(factories, s, a));
        SameCache(factories, s, Step(factories, s, a));
      case Write(config) => WriteKeeps(factories, s, config);
      case Notify(tenantId) =>
        NotifyKeepsCache(factories, s, tenantId);
        NotifyKeepsRequests(factories, s, tenantId);
      case Invalidate(tenantId, methodId) =>
        InvalidationKeepsCache(factories, s, tenantId, methodId);
        TodosShrink(factories, s, Step(factories, s, a));
    }
  }

  lemma ReadKeeps(factories: Factories, s: System, pid: nat, copy: TenantConfig, todo: seq<string>)
    requires Inv(factories, s) && Allowed(factories, s, Read(pid, copy, todo))
    ensures Inv(factories, Step(factories, s, Read(pid, copy, todo)))
  {
    var s' := Step(factories, s, Read(pid, copy, todo));
    SameCache(factories, s, s');
    forall t | t in s'.tenants && t !in s'.unsettled
      ensures AllHarmless(factories, s', s'.tenants[t])
    {
      assert AllHarmless(factories, s, s.tenants[t]);
    }
  }

  lemma WriteKeeps(factories: Factories, s: System, config: TenantConfig)
    requires Inv(factories, s) && NulFree(config.id)
    ensures Inv(factories, Step(factories, s, Write(config)))
  {
    var s' := Step(factories, s, Write(config));
    SameCache(factories, s, s');
    forall t | t in s'.tenants && t !in s'.unsettled
      ensures AllHarmless(factories, s', s'.tenants[t])
    {
      assert AllHarmless(factories, s, s.tenants[t]);
    }
  }

  lemma NotifyKeepsRequests(factories: Factories, s: System, tenantId: string)
    requires RequestsAreSafe(factories, s) && Allowed(factories, s, Notify(tenantId))
    ensures RequestsAreSafe(factories, Step(factories, s, Notify(tenantId)))
  {
    var s' := Step(factories, s, Notify(tenantId));
    forall t | t in s'.tenants && t !in s'.unsettled
      ensures AllHarmless(factories, s', s'.tenants[t])
    {
      assert AllHarmless(factories, s, s.tenants[t]);
    }
  }

  lemma {:induction false} RunKeeps(factories: Factories, s: System, acts: seq<Action>)
    requires Inv(factories, s) && AllAllowed(factories, s, acts)
    ensures Inv(factories, After(factories, s, acts))
    decreases |acts|
  {
    if acts != [] {
      StepKeeps(factories, s, acts[0]);
      RunKeeps(factories, Step(factories, s, acts[0]), acts[1..]);
    }
  }

  // After any history of reads, resolves, puts and invalidations, interleaved in any
  // order, `resolve` returns the method an uncached build would, or both fail.
  lemma CachingIsTransparent(factories: Factories, acts: seq<Action>)
    requires AllAllowed(factories, EMPTY, acts)
    ensures Transparent(factories, After(factories, EMPTY, acts))
  {
    RunKeeps(factories, EMPTY, acts);
    TrueIsTransparent(factories, After(factories, EMPTY, acts));
  }

  // Reading, looking up and finishing without interference is one resolve.
  lemma ResolveIsItsSteps(factories: Factories, s: System, pid: nat, tenant: TenantConfig, m: string)
    requires pid !in s.requests && tenant.id in s.tenants
    ensures var s' := After(factories, s, [Read(pid, tenant, [m]), LookUp(pid), Finish(pid)]);
            s'.cache == ResolveSpec(factories, s.cache, tenant, m).1
            && s'.requests == s.requests[pid := Request(tenant, [], false)]
            && s'.tenants == s.tenants && s'.unsettled == s.unsettled
  {
    var s1 := Step(factories, s, Read(pid, tenant, [m]));
    var s2 := Step(factories, s1, LookUp(pid));
    var s3 := Step(factories, s2, Finish(pid));
    assert [m][1..] == [];
    AfterFirst(factories, s, Read(pid, tenant, [m]), [LookUp(pid)] + [Finish(pid)]);
    AfterFirst(factories, s1, LookUp(pid), [Finish(pid)] + []);
    AfterFirst(factories, s2, Finish(pid), []);
    assert [Read(pid, tenant, [m]), LookUp(pid), Finish(pid)] == [Read(pid, tenant, [m])] + ([LookUp(pid)] + [Finish(pid)]);
    assert [LookUp(pid)] + [Finish(pid)] == [LookUp(pid)] + ([Finish(pid)] + []);
    assert s1.requests[pid] == Request(tenant, [m], false);
  }

  lemma AfterFirst(factories: Factories, s: System, a: Action, rest: seq<Action>)
    ensures After(factories, s, [a] + rest) == After(factories, Step(factories, s, a), rest)
    ensures AllAllowed(factories, s, [a] + rest)
       <==> Allowed(factories, s, a) && AllAllowed(factories, Step(factories, s, a), rest)
  {
    assert ([a] + rest)[1..] == rest;
  }

  // ---------- The exact condition ----------

  // However the system goes on, as long as what follows is allowed.
  ghost predicate StaysTransparent(factories: Factories, s: System) {
    forall acts | AllAllowed(factories, s, acts) :: Transparent(factories, After(factories, s, acts))
  }

  lemma StaysAfterStep(factories: Factories, s: System, a: Action)
    requires StaysTransparent(factories, s) && Allowed(factories, s, a)
    ensures StaysTransparent(factories, Step(factories, s, a))
  {
    forall acts | AllAllowed(factories, Step(factories, s, a), acts)
      ensures Transparent(factories, After(factories, Step(factories, s, a), acts))
    {
      AfterFirst(factories, s, a, acts);
    }
  }

  lemma StaysNow(factories: Factories, s: System)
    requires StaysTransparent(factories, s)
    ensures Transparent(factories, s)
  {
    assert AllAllowed(factories, s, []) && After(factories, s, []) == s;
  }

  // The next build of a request is another one than the configuration gives: with
  // the key out of the cache, it is built, stored, and served from then on.
  lemma NextBuildShows(factories: Factories, s: System, pid: nat)
    requires WellFormed(s) && pid in s.requests && s.requests[pid].todo != []
    requires var r := s.requests[pid];
             && r.tenant.id !in s.unsettled && Enabled(r.tenant, r.todo[0])
             && !Agree(Uncached(factories, r.tenant, r.todo[0]), Uncached(factories, s.tenants[r.tenant.id], r.todo[0]))
    ensures !StaysTransparent(factories, s)
  {
    var r := s.requests[pid];
    var t, m := r.tenant.id, r.todo[0];
    var s1 := Step(factories, s, Invalidate(t, m));
    var s2 := Step(factories, s1, LookUp(pid));
    var s3 := Step(factories, s2, Finish(pid));
    assert Key(t, m) !in s2.cache.built && Key(t, m) !in s2.cache.disabled;
    assert !Agree(ResolveSpec(factories, s3.cache, s3.tenants[t], m).0, Uncached(factories, s3.tenants[t], m));
    assert !Transparent(factories, s3);
    if StaysTransparent(factories, s) {
      StaysAfterStep(factories, s, Invalidate(t, m));
      StaysAfterStep(factories, s1, LookUp(pid));
      StaysAfterStep(factories, s2, Finish(pid));
      StaysNow(factories, s3);
    }
  }

  // One resolve done, whatever came of it.
  function Resolved(factories: Factories, s: System, pid: nat): System {
    Step(factories, Step(factories, s, LookUp(pid)), Finish(pid))
  }

  lemma ResolvedShrinks(factories: Factories, s: System, pid: nat)
    requires pid in s.requests && s.requests[pid].todo != [] && (s.requests[pid].building ==> Enabled(s.requests[pid].tenant, s.requests[pid].todo[0]))
    ensures var s' := Resolved(factories, s, pid); var r := s.requests[pid];
            && s'.requests == s.requests[pid := Request(r.tenant, r.todo[1..], false)]
            && s'.tenants == s.tenants && s'.unsettled == s.unsettled
  {
    assert s.requests[pid := s.requests[pid]] == s.requests;
  }

  lemma {:induction false} HarmfulShows(factories: Factories, s: System, pid: nat)
    requires WellFormed(s) && pid in s.requests && s.requests[pid].tenant.id !in s.unsettled
    requires !Harmless(factories, s.requests[pid], s.tenants[s.requests[pid].tenant.id])
    ensures !StaysTransparent(factories, s)
    decreases |s.requests[pid].todo|
  {
    var r := s.requests[pid];
    var config := s.tenants[r.tenant.id];
    var m :| m in r.todo && Enabled(r.tenant, m) && !Agree(Uncached(factories, r.tenant, m), Uncached(factories, config, m));
    if m == r.todo[0] {
      NextBuildShows(factories, s, pid);
    } else {
      var s' := Resolved(factories, s, pid);
      ResolvedShrinks(factories, s, pid);
      assert m in r.todo[1..];
      HarmfulShows(factories, s', pid);
      if StaysTransparent(factories, s) {
        StaysAfterStep(factories, s, LookUp(pid));
        StaysAfterStep(factories, Step(factories, s, LookUp(pid)), Finish(pid));
      }
    }
  }

  // Caching stays transparent for good exactly when it is now, and every request
  // under way that holds another copy of a settled tenant's configuration would
  // store what the current one gives.
  lemma StaysTransparentIff(factories: Factories, s: System)
    requires WellFormed(s)
    ensures StaysTransparent(factories, s) <==> Transparent(factories, s) && RequestsAreSafe(factories, s)
  {
    TrueIsTransparent(factories, s);
    if Transparent(factories, s) && RequestsAreSafe(factories, s) {
      forall acts | AllAllowed(factories, s, acts)
        ensures Transparent(factories, After(factories, s, acts))
      {
        RunKeeps(factories, s, acts);
        TrueIsTransparent(factories, After(factories, s, acts));
      }
    } else if StaysTransparent(factories, s) {
      StaysNow(factories, s);
      var t :| t in s.tenants && t !in s.unsettled && !AllHarmless(factories, s, s.tenants[t]);
      var pid :| pid in s.requests && s.requests[pid].tenant.id == t && !Harmless(factories, s.requests[pid], s.tenants[t]);
      HarmfulShows(factories, s, pid);
    }
  }

  // Putting a configuration is safe exactly when each request of its tenant under
  // way, building or still holding an older copy, would store what the new one gives.
  lemma PutIsSafeIff(factories: Factories, s: System, config: TenantConfig)
    requires Inv(factories, s) && NulFree(config.id)
    ensures StaysTransparent(factories, Put(factories, s, config)) <==> AllHarmless(factories, s, config)
  {
    var s1 := Step(factories, s, Write(config));
    var s' := Put(factories, s, config);
    WriteKeeps(factories, s, config);
    NotifyKeepsCache(factories, s1, config.id);
    TrueIsTransparent(factories, s');
    StaysTransparentIff(factories, s');
    PutKeepsOthers(factories, s, config);
  }

  lemma PutKeepsOthers(factories: Factories, s: System, config: TenantConfig)
    requires Inv(factories, s) && NulFree(config.id)
    ensures RequestsAreSafe(factories, Put(factories, s, config)) <==> AllHarmless(factories, s, config)
  {
    var s' := Put(factories, s, config);
    assert s'.tenants[config.id] == config && config.id !in s'.unsettled && s'.requests == s.requests;
    if AllHarmless(factories, s, config) {
      forall t | t in s'.tenants && t !in s'.unsettled
        ensures AllHarmless(factories, s', s'.tenants[t])
      {
        if t != config.id { assert AllHarmless(factories, s, s.tenants[t]); }
      }
    } else {
      assert !AllHarmless(factories, s', s'.tenants[config.id]);
    }
  }

  // Where every request of the tenant is at its last method and building it already,
  // it is the builds that have to agree.
  lemma PutDuringBuildsIff(factories: Factories, s: System, config: TenantConfig)
    requires Inv(factories, s) && NulFree(config.id)
    requires forall pid | pid in s.requests && s.requests[pid].tenant.id == config.id ::
               s.requests[pid].building && |s.requests[pid].todo| == 1
    ensures StaysTransparent(factories, Put(factories, s, config))
       <==> forall pid | pid in s.requests && s.requests[pid].tenant.id == config.id ::
              var r := s.requests[pid];
              Agree(Build(factories, config.id, FindMethod(r.tenant.methods, r.todo[0]).value),
                    Uncached(factories, config, r.todo[0]))
  {
    PutIsSafeIff(factories, s, config);
  }

  // ---------- The listeners ----------

  // A configuration put through the store reaches the cache before the call
  // returns: the next resolve builds from it, whatever was cached before.
  method PutThenResolve(store: MemoryConfigStore, cache: MethodCache, config: TenantConfig, methodId: string)
    returns (r: Result<Method, LoadError>)
    requires cache in store.listeners
    modifies store, store.listeners
    ensures r == Uncached(cache.factories, config, methodId)
  {
    store.PutTenantConfig(config);
    assert Key(config.id, methodId)[..|config.id + NUL|] == config.id + NUL;
    r := cache.Resolve(config, methodId);
  }

  // ---------- Without the conditions ----------

  // One kind of method, which keeps its configuration.
  const Echo := Factory(s => Some(s), (id, kind, tenantId, config) => Some(Method(id, kind, tenantId, config)))

  function Tenant(id: string, methodId: string, config: string): TenantConfig {
    TenantConfig(id, [MethodConfig(methodId, "echo", true, config)])
  }

  // Two instances: a new configuration overtakes a request that has read the old
  // one, before or after it has looked the method up. The old method is stored
  // after the invalidation and served from then on.
  lemma OvertakenRequestGoesStale(lookedUp: bool)
    ensures var f := map["echo" := Echo];
            var old', new' := Tenant("t", "m", "old"), Tenant("t", "m", "new");
            var read := Step(f, Put(f, EMPTY, old'), Read(1, old', ["m"]));
            var s := if lookedUp
                     then Step(f, Put(f, Step(f, read, LookUp(1)), new'), Finish(1))
                     else Step(f, Step(f, Put(f, read, new'), LookUp(1)), Finish(1));
            && "t" in s.tenants && s.tenants["t"] == new' && s.unsettled == {}
            && ResolveSpec(f, s.cache, new', "m").0 == Ok(Method("m", "echo", "t", "old"))
            && Uncached(f, new', "m") == Ok(Method("m", "echo", "t", "new"))
  {
    var f := map["echo" := Echo];
    var old', new' := Tenant("t", "m", "old"), Tenant("t", "m", "new");
    var s0 := Put(f, EMPTY, old');
    var read := Step(f, s0, Read(1, old', ["m"]));
    assert s0.cache.built == map[] && s0.cache.disabled == {};
    assert read.requests[1] == Request(old', ["m"], false);
    assert Uncached(f, old', "m") == Ok(Method("m", "echo", "t", "old"));
  }

  // Two tenants share a key exactly when one of their ids continues the other with a NUL.
  lemma SharedKeyIff(t: string, t': string)
    requires t != t'
    ensures (exists m, m' :: Key(t, m) == Key(t', m')) <==> StartsWith(t', t + NUL) || StartsWith(t, t' + NUL)
  {
    if m, m' :| Key(t, m) == Key(t', m') {
      OneContinues(t, m, t', m');
    } else if StartsWith(t', t + NUL) {
      Continued(t, t');
    } else if StartsWith(t, t' + NUL) {
      Continued(t', t);
    }
  }

  lemma Continued(t: string, t': string)
    requires StartsWith(t', t + NUL)
    ensures Key(t, t'[|t| + 1..] + NUL) == Key(t', "")
  {
    assert t' == t + NUL + t'[|t| + 1..];
  }

  lemma OneContinues(t: string, m: string, t': string, m': string)
    requires t != t' && Key(t, m) == Key(t', m')
    ensures StartsWith(t', t + NUL) || StartsWith(t, t' + NUL)
  {
    var k := Key(t, m);
    assert k[..|t|] == t && Key(t', m')[..|t'|] == t';
    assert k[|t|] == NUL[0] && Key(t', m')[|t'|] == NUL[0];
    if |t| < |t'| {
      assert t'[..|t| + 1] == k[..|t| + 1] == t + NUL;
    } else if |t'| < |t| {
      assert t[..|t'| + 1] == Key(t', m')[..|t'| + 1] == t' + NUL;
    }
  }

  // An instance, tenant ids with a NUL: two tenants share a key, and one is served the other's method.
  lemma NulTenantsShareKeys()
    ensures var a, b := "a", "a" + NUL + "b";
            var f := map["echo" := Echo];
            var one, two := Tenant(a, "b" + NUL + "m", "one"), Tenant(b, "m", "two");
            var c := ResolveSpec(f, Cache(map[], {}), one, "b" + NUL + "m").1;
            && ResolveSpec(f, c, two, "m").0 == Ok(Method("b" + NUL + "m", "echo", a, "one"))
            && Uncached(f, two, "m") == Ok(Method("m", "echo", b, "two"))
  {
    assert Key("a", "b" + NUL + "m") == Key("a" + NUL + "b", "m");
  }
}
