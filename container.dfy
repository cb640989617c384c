// The live engine of the container package: call sites (callsite.go), scopes (scope.go) and
// the container that registers, links and resolves them (container.go). The three classes
// refer to one another, so they share one module. Reflection is replaced by GoType records
// and an Implements relation, instance allocation and user code by an Env.

module DIContainer {
  import opened Errors
  import opened Types
  import opened Environment
  import Graph
  import Registration
  import Resolution
  import Unwrap
  import Hosted

  // ===================== callsite.go =====================

  /** A Singleton or HostedService site may not depend directly on a Scoped one (callsite.go:117). */
  predicate IsCaptive(owner: Lifetime, dep: Lifetime)
  {
    (owner == Singleton || owner == HostedService) && dep == Scoped
  }

  /**
   * The loop of BuildCallSite (callsite.go:113-124), continued from dependency name i with the
   * sites found so far. A name whose key is missing makes the source call Lifetime() on the
   * nil interface the lookup returned: a runtime panic.
   */
  function Wire(reg: map<string, CallSite>, owner: string, lt: Lifetime, names: seq<TypeName>,
                i: nat, acc: seq<CallSite>): Exit<Result<seq<CallSite>>>
    decreases |names| - i
  {
    if i >= |names| then Normal(Ok(acc))
    else
      var key := DropFirst(names[i]);
      if key !in reg then Panic(NilDereference)
      else if IsCaptive(lt, reg[key].lifetime) then Normal(Err(Sentinel(CaptiveDependency, [names[i], owner])))
      else Wire(reg, owner, lt, names, i + 1, acc + [reg[key]])
  }

  /** Each dependency name's key is registered and its site is not captive. */
  ghost predicate LinksCleanly(reg: map<string, CallSite>, lt: Lifetime, names: seq<TypeName>, i: nat)
  {
    forall j :: i <= j < |names| ==>
      DropFirst(names[j]) in reg && !IsCaptive(lt, reg[DropFirst(names[j])].lifetime)
  }

  /**
   * Linking succeeds exactly when every key is registered and no dependency is captive, and then
   * yields the registered sites in the order of the names; when every key is registered it
   * never panics, and its only error is a captive dependency.
   */
  lemma WireCorrect(reg: map<string, CallSite>, owner: string, lt: Lifetime, names: seq<TypeName>)
    ensures var w := Wire(reg, owner, lt, names, 0, []);
      (w.Normal? && w.value.Ok? <==> LinksCleanly(reg, lt, names, 0)) &&
      (w.Normal? && w.value.Ok? ==>
         |w.value.value| == |names| &&
         forall j :: 0 <= j < |names| ==> w.value.value[j] == reg[DropFirst(names[j])]) &&
      ((forall j :: 0 <= j < |names| ==> DropFirst(names[j]) in reg) ==>
         w.Normal? && (w.value.Err? ==> Is(w.value.error, CaptiveDependency)))
  {
    WireFrom(reg, owner, lt, names, 0, []);
  }

  lemma {:induction false} WireFrom(reg: map<string, CallSite>, owner: string, lt: Lifetime, names: seq<TypeName>,
                                    i: nat, acc: seq<CallSite>)
    requires i <= |names| && |acc| == i
    ensures var w := Wire(reg, owner, lt, names, i, acc);
      (w.Normal? && w.value.Ok? <==> LinksCleanly(reg, lt, names, i)) &&
      (w.Normal? && w.value.Ok? ==>
         |w.value.value| == |names| && w.value.value[..i] == acc &&
         forall j :: i <= j < |names| ==> w.value.value[j] == reg[DropFirst(names[j])]) &&
      ((forall j :: i <= j < |names| ==> DropFirst(names[j]) in reg) ==>
         w.Normal? && (w.value.Err? ==> Is(w.value.error, CaptiveDependency)))
    decreases |names| - i
  {
    if i < |names| {
      var key := DropFirst(names[i]);
      if key in reg && !IsCaptive(lt, reg[key].lifetime) {
        WireFrom(reg, owner, lt, names, i + 1, acc + [reg[key]]);
        var w := Wire(reg, owner, lt, names, i, acc);
        if w.Normal? && w.value.Ok? {
          assert w.value.value[..i + 1][..i] == w.value.value[..i];
        }
      }
    }
  }

  /**
   * Dependency j is the first captive one from index i: every name from i up to j is registered
   * and not captive, and the site at name j's key is registered and captive.
   */
  ghost predicate FirstCaptive(reg: map<string, CallSite>, lt: Lifetime, names: seq<TypeName>, i: nat, j: int)
  {
    i <= j < |names| && LinksCleanly(reg, lt, names[..j], i) &&
    DropFirst(names[j]) in reg && IsCaptive(lt, reg[DropFirst(names[j])].lifetime)
  }

  /** A linking that returns an error stopped at the first captive dependency and names it and its owner. */
  lemma {:induction false} WireStopsAtFirstCaptive(reg: map<string, CallSite>, owner: string, lt: Lifetime,
                                                   names: seq<TypeName>, i: nat, acc: seq<CallSite>) returns (j: nat)
    requires Wire(reg, owner, lt, names, i, acc).Normal? && Wire(reg, owner, lt, names, i, acc).value.Err?
    ensures FirstCaptive(reg, lt, names, i, j)
    ensures Wire(reg, owner, lt, names, i, acc).value.error == Sentinel(CaptiveDependency, [names[j], owner])
    decreases |names| - i
  {
    var key := DropFirst(names[i]);
    if IsCaptive(lt, reg[key].lifetime) {
      j := i;
    } else {
      j := WireStopsAtFirstCaptive(reg, owner, lt, names, i + 1, acc + [reg[key]]);
      assert names[..j][i] == names[i];
    }
  }

  class CallSite {
    const name: string
    const lifetime: Lifetime
    const dependencyNames: seq<TypeName>
    var dependencies: seq<CallSite>
    /** Never set by the source, so BuildCallSite always recomputes the list. */
    var built: bool
    /** once, instance and constructorError together. */
    var slot: Resolution.Slot

    constructor (name: string, lifetime: Lifetime, dependencyNames: seq<TypeName>)
      ensures this.name == name && this.lifetime == lifetime && this.dependencyNames == dependencyNames
      ensures dependencies == [] && !built && slot == None
    {
      this.name := name;
      this.lifetime := lifetime;
      this.dependencyNames := dependencyNames;
      dependencies := [];
      built := false;
      slot := None;
    }

    /** build(s) (callsite.go:37-50). */
    method Build(s: Scope?, env: Env, ghost p: Resolution.Plan<CallSite>, ghost rank: map<CallSite, nat>,
                 ghost G: set<CallSite>) returns (r: Result<Handle>)
      requires this in G && p == PlanOf(G) && Resolution.Ranked(p, rank)
      modifies G`slot, env, ScopeFrame(s)
      decreases rank[this], 3, 0
      ensures Resolution.Step(StateOf(G, env), ScopeOf(s), r) ==
              Resolution.Build(p, rank, env.answer, this, old(ScopeOf(s)), old(StateOf(G, env)))
    {
      if lifetime == HostedService || lifetime == Singleton {
        r := BuildSingleton(env, p, rank, G);
      } else if lifetime == Transient {
        r := BuildTransient(env, p, rank, G);
      } else if lifetime == Scoped {
        r := BuildScoped(s, env, p, rank, G);
      } else {
        r := Err(Sentinel(UnknownLifetime, [name]));
      }
    }

    /** buildSingleton (callsite.go:78-83). */
    method BuildSingleton(env: Env, ghost p: Resolution.Plan<CallSite>, ghost rank: map<CallSite, nat>,
                          ghost G: set<CallSite>) returns (r: Result<Handle>)
      requires this in G && p == PlanOf(G) && Resolution.Ranked(p, rank)
      modifies G`slot, env
      decreases rank[this], 2, 0
      ensures Resolution.Step(StateOf(G, env), Resolution.NoScope, r) ==
              Resolution.BuildSingleton(p, rank, env.answer, this, Resolution.NoScope, old(StateOf(G, env)))
    {
      if slot.Some? {
        r := slot.value;
        return;
      }
      r := Constructor(null, env, p, rank, G);
      slot := Some(r);
    }

    /** buildTransient (callsite.go:86-88). */
    method BuildTransient(env: Env, ghost p: Resolution.Plan<CallSite>, ghost rank: map<CallSite, nat>,
                          ghost G: set<CallSite>) returns (r: Result<Handle>)
      requires this in G && p == PlanOf(G) && Resolution.Ranked(p, rank)
      modifies G`slot, env
      decreases rank[this], 2, 0
      ensures Resolution.Step(StateOf(G, env), Resolution.NoScope, r) ==
              Resolution.BuildTransient(p, rank, env.answer, this, Resolution.NoScope, old(StateOf(G, env)))
    {
      r := Constructor(null, env, p, rank, G);
    }

    /** buildScoped(s) (callsite.go:91-107). */
    method BuildScoped(s: Scope?, env: Env, ghost p: Resolution.Plan<CallSite>, ghost rank: map<CallSite, nat>,
                       ghost G: set<CallSite>) returns (r: Result<Handle>)
      requires this in G && p == PlanOf(G) && Resolution.Ranked(p, rank)
      modifies G`slot, env, ScopeFrame(s)
      decreases rank[this], 2, 0
      ensures Resolution.Step(StateOf(G, env), ScopeOf(s), r) ==
              Resolution.BuildScoped(p, rank, env.answer, this, old(ScopeOf(s)), old(StateOf(G, env)))
    {
      if s == null {
        return Err(Sentinel(ScopeIsNil, []));
      }
      if s.isGlobal {
        return Err(Sentinel(ScopedDependencyInGlobalScope, []));
      }
      if name in s.instances {
        return Ok(s.instances[name]);
      }
      r := ConstructScoped(s, env, p, rank, G);
    }

    /** The cache miss of buildScoped (callsite.go:100-106): construct, and cache only a success. */
    method ConstructScoped(s: Scope, env: Env, ghost p: Resolution.Plan<CallSite>, ghost rank: map<CallSite, nat>,
                           ghost G: set<CallSite>) returns (r: Result<Handle>)
      requires this in G && p == PlanOf(G) && Resolution.Ranked(p, rank)
      requires !s.isGlobal && name !in s.instances
      modifies G`slot, env, s
      decreases rank[this], 1, 1
      ensures Resolution.Step(StateOf(G, env), ScopeOf(s), r) ==
              Resolution.BuildScoped(p, rank, env.answer, this, old(ScopeOf(s)), old(StateOf(G, env)))
    {
      r := Constructor(s, env, p, rank, G);
      if r.Err? {
        return;
      }
      ghost var st := StateOf(G, env);
      s.instances := s.instances[name := r.value];
      assert StateOf(G, env) == st;
    }

    /** constructor(s) (callsite.go:54-75): allocate the receiver, build the arguments, call Init. */
    method Constructor(s: Scope?, env: Env, ghost p: Resolution.Plan<CallSite>, ghost rank: map<CallSite, nat>,
                       ghost G: set<CallSite>) returns (r: Result<Handle>)
      requires this in G && p == PlanOf(G) && Resolution.Ranked(p, rank)
      modifies G`slot, env, ScopeFrame(s)
      decreases rank[this], 1, 0
      ensures Resolution.Step(StateOf(G, env), ScopeOf(s), r) ==
              Resolution.Construct(p, rank, env.answer, this, old(ScopeOf(s)), old(StateOf(G, env)))
    {
      ghost var st0 := StateOf(G, env);
      var resolved := env.New();
      assert StateOf(G, env) == st0.(next := st0.next + 1);
      var args := ResolveArguments(s, env, p, rank, G);
      if args.Err? {
        return Err(args.error);
      }
      ghost var st2 := StateOf(G, env);
      var call := InitCall(name, resolved, args.value);
      var e := env.Invoke(call);
      assert StateOf(G, env) == st2.(calls := st2.calls + [call]);
      if e.Some? {
        return Err(InitFailed(name, e.value));
      }
      return Ok(resolved);
    }

    /** The argument loop of constructor (callsite.go:58-64): each dependency, in order, from scope s. */
    method ResolveArguments(s: Scope?, env: Env, ghost p: Resolution.Plan<CallSite>, ghost rank: map<CallSite, nat>,
                            ghost G: set<CallSite>) returns (r: Result<seq<Handle>>)
      requires this in G && p == PlanOf(G) && Resolution.Ranked(p, rank)
      modifies G`slot, env, ScopeFrame(s)
      decreases rank[this], 0, 1
      ensures Resolution.Step(StateOf(G, env), ScopeOf(s), r) ==
              Resolution.Deps(p, rank, env.answer, this, 0, [], old(ScopeOf(s)), old(StateOf(G, env)))
    {
      var args: seq<Handle> := [];
      var i := 0;
      while i < |dependencies|
        invariant 0 <= i <= |dependencies| && dependencies == p[this].deps && p == PlanOf(G)
        invariant Resolution.Deps(p, rank, env.answer, this, 0, [], old(ScopeOf(s)), old(StateOf(G, env))) ==
                  Resolution.Deps(p, rank, env.answer, this, i, args, ScopeOf(s), StateOf(G, env))
      {
        var dep := ResolveArgument(i, args, s, env, p, rank, G);
        if dep.Err? {
          return Err(dep.error);
        }
        args := args + [dep.value];
        i := i + 1;
      }
      return Ok(args);
    }

    /** One turn of the argument loop: build dependency i, wrapping its error with its name. */
    method ResolveArgument(i: nat, ghost args: seq<Handle>, s: Scope?, env: Env, ghost p: Resolution.Plan<CallSite>,
                           ghost rank: map<CallSite, nat>, ghost G: set<CallSite>) returns (r: Result<Handle>)
      requires this in G && p == PlanOf(G) && Resolution.Ranked(p, rank) && i < |dependencies|
      modifies G`slot, env, ScopeFrame(s)
      decreases rank[this], 0, 0
      ensures p == PlanOf(G)
      ensures match r
        case Ok(h) =>
          Resolution.Deps(p, rank, env.answer, this, i, args, old(ScopeOf(s)), old(StateOf(G, env))) ==
          Resolution.Deps(p, rank, env.answer, this, i + 1, args + [h], ScopeOf(s), StateOf(G, env))
        case Err(e) =>
          Resolution.Deps(p, rank, env.answer, this, i, args, old(ScopeOf(s)), old(StateOf(G, env))) ==
          Resolution.Step(StateOf(G, env), ScopeOf(s), Err(e))
    {
      ghost var sc := ScopeOf(s);
      ghost var st := StateOf(G, env);
      var v := dependencies[i];
      var dep := v.Build(s, env, p, rank, G);
      assert p == PlanOf(G);
      if dep.Err? {
        Resolution.DepsStop(p, rank, env.answer, this, i, args, sc, st, dep.error, ScopeOf(s), StateOf(G, env));
        return Err(Wrapped(v.name, dep.error));
      }
      Resolution.DepsStep(p, rank, env.answer, this, i, args, sc, st, dep.value, ScopeOf(s), StateOf(G, env));
      return Ok(dep.value);
    }

    /** BuildCallSite (callsite.go:109-127). */
    method BuildCallSite(container: Container) returns (r: Exit<Option<Error>>)
      modifies this`dependencies
      ensures built ==> r == Normal(None) && dependencies == old(dependencies)
      ensures !built ==>
        match Wire(container.registry, name, lifetime, dependencyNames, 0, [])
        case Panic(reason) => r == Panic(reason) && dependencies == old(dependencies)
        case Normal(Err(e)) => r == Normal(Some(e)) && dependencies == old(dependencies)
        case Normal(Ok(ds)) => r == Normal(None) && dependencies == ds
    {
      if built {
        return Normal(None);
      }
      var deps: seq<CallSite> := [];
      var i := 0;
      while i < |dependencyNames|
        invariant 0 <= i <= |dependencyNames|
        invariant Wire(container.registry, name, lifetime, dependencyNames, 0, []) ==
                  Wire(container.registry, name, lifetime, dependencyNames, i, deps)
        invariant dependencies == old(dependencies)
      {
        var depName := dependencyNames[i];
        var key := DropFirst(depName);
        if key !in container.registry {
          // site.Lifetime() on the nil interface the failed lookup returned
          return Panic(NilDereference);
        }
        var site := container.registry[key];
        if IsCaptive(lifetime, site.lifetime) {
          return Normal(Some(Sentinel(CaptiveDependency, [depName, name])));
        }
        deps := deps + [site];
        i := i + 1;
      }
      dependencies := deps;
      return Normal(None);
    }
  }

  /** The linked plan of a set of call sites. */
  ghost function PlanOf(G: set<CallSite>): Resolution.Plan<CallSite>
    reads G`dependencies
  {
    map x | x in G :: Resolution.SiteInfo(x.name, x.lifetime, x.dependencies)
  }

  /** The singleton slots of a set of call sites, with the allocator and the call log. */
  ghost function StateOf(G: set<CallSite>, env: Env): Resolution.State<CallSite>
    reads G`slot, env
  {
    Resolution.State(SlotsOf(G), env.next, env.calls)
  }

  ghost function SlotsOf(G: set<CallSite>): map<CallSite, Resolution.Slot>
    reads G`slot
  {
    map x | x in G :: x.slot
  }

  ghost function ScopeOf(s: Scope?): Resolution.ScopeArg
    reads s
  {
    if s == null then Resolution.NoScope else Resolution.InScope(s.isGlobal, s.instances)
  }

  function ScopeFrame(s: Scope?): set<Scope>
  {
    if s == null then {} else {s}
  }

  // ===================== scope.go =====================

  class Scope {
    const container: Container
    const isGlobal: bool
    var instances: map<string, Handle>

    constructor (container: Container, isGlobal: bool)
      ensures this.container == container && this.isGlobal == isGlobal && instances == map[]
    {
      this.container := container;
      this.isGlobal := isGlobal;
      instances := map[];
    }
  }

  ghost function SitesOf(s: Scope?): set<CallSite>
    reads s, if s == null then {} else {s.container}
  {
    if s == null then {} else s.container.Sites
  }

  /** The value a call site returns: a pointer to the instance, of type *T for the site's T. */
  function Instance(site: CallSite, h: Handle): Unwrap.Dyn
  {
    Unwrap.Ref(0, site.name, h)
  }

  /** What a resolution entry point returns, with the singleton slots and the scope it leaves. */
  datatype Outcome = Outcome(exit: Exit<Result<Unwrap.Dyn>>, state: Resolution.State<CallSite>,
                             scope: Resolution.ScopeArg)

  /** The build of the site at key from scope s of a valid container. */
  ghost function Resolve(s: Scope, key: string, env: Env): Resolution.Step<CallSite, Handle>
    reads s, s.container, s.container.Sites`dependencies, s.container.Sites`built, s.container.Sites`slot, env
    requires s.container.Valid() && key in s.container.registry
  {
    var c := s.container;
    EngineRanked(c.registry, c.Sites);
    Resolution.Build(PlanOf(c.Sites), RankOf(c.registry, c.Sites), env.answer, c.registry[key],
                     ScopeOf(s), StateOf(c.Sites, env))
  }

  /** RequireServicePtrForScope[T] from scope s (scope.go:90-107), as a function of the state before. */
  ghost function PtrOutcome(s: Scope, t: GoType, env: Env): Outcome
    reads s, s.container, s.container.Sites`dependencies, s.container.Sites`built, s.container.Sites`slot, env
    requires s.container.Valid()
  {
    var c := s.container;
    var name := NameFor(t);
    if !c.built then Outcome(Fatal(ContainerNotBuilt, []), StateOf(c.Sites, env), ScopeOf(s))
    else if name == "" || name == "<nil>" then Outcome(Fatal(ExtractDependencyName, []), StateOf(c.Sites, env), ScopeOf(s))
    else if name !in c.registry then
      Outcome(Normal(Err(Sentinel(DependencyNotFound, [name]))), StateOf(c.Sites, env), ScopeOf(s))
    else
      var b := Resolve(s, name, env);
      Outcome(Normal(match b.result
                     case Err(e) => Err(e)
                     case Ok(h) => Unwrap.UnwrapT(t, Instance(c.registry[name], h))),
              b.state, b.scope)
  }

  /** RequireServiceForScope[T] from scope s (scope.go:109-129), as a function of the state before. */
  ghost function ServiceOutcome(s: Scope, t: GoType, env: Env, impl: Implements): Outcome
    reads s, s.container, s.container.Sites`dependencies, s.container.Sites`built, s.container.Sites`slot, env
    requires s.container.Valid()
  {
    var c := s.container;
    var name := ServiceKey(t);
    if !c.built then Outcome(Fatal(ContainerNotBuilt, []), StateOf(c.Sites, env), ScopeOf(s))
    else if name !in c.registry then
      Outcome(Normal(Err(Sentinel(DependencyNotFound, [name]))), StateOf(c.Sites, env), ScopeOf(s))
    else
      var b := Resolve(s, name, env);
      Outcome(Normal(match b.result
                     case Err(e) => Err(e)
                     case Ok(h) => Unwrap.UnwrapPtr(t, Instance(c.registry[name], h), impl)),
              b.state, b.scope)
  }

  /** RequireServicePtrForScope[T] (scope.go:90-107); a nil scope is dereferenced. */
  method RequireServicePtrForScope(s: Scope?, t: GoType, env: Env) returns (r: Exit<Result<Unwrap.Dyn>>)
    requires s != null ==> s.container.Valid()
    modifies SitesOf(s)`slot, ScopeFrame(s), env
    ensures s == null ==> r == Panic(NilDereference) && unchanged(env)
    ensures s != null ==>
      s.container.Valid() &&
      Outcome(r, StateOf(s.container.Sites, env), ScopeOf(s)) == old(PtrOutcome(s, t, env))
  {
    if s == null {
      return Panic(NilDereference);
    }
    var c := s.container;
    if !c.built {
      return Fatal(ContainerNotBuilt, []);
    }
    var nameDep := NameFor(t);
    if nameDep == "" || nameDep == "<nil>" {
      return Fatal(ExtractDependencyName, []);
    }
    if nameDep !in c.registry {
      return Normal(Err(Sentinel(DependencyNotFound, [nameDep])));
    }
    var item := c.registry[nameDep];
    EngineRanked(c.registry, c.Sites);
    var dep := item.Build(s, env, PlanOf(c.Sites), RankOf(c.registry, c.Sites), c.Sites);
    if dep.Err? {
      return Normal(Err(dep.error));
    }
    return Normal(Unwrap.UnwrapT(t, Instance(item, dep.value)));
  }

  /** RequireServiceForScope[T] (scope.go:109-129); a nil scope is dereferenced. */
  method RequireServiceForScope(s: Scope?, t: GoType, env: Env, impl: Implements) returns (r: Exit<Result<Unwrap.Dyn>>)
    requires s != null ==> s.container.Valid()
    modifies SitesOf(s)`slot, ScopeFrame(s), env
    ensures s == null ==> r == Panic(NilDereference) && unchanged(env)
    ensures s != null ==>
      s.container.Valid() &&
      Outcome(r, StateOf(s.container.Sites, env), ScopeOf(s)) == old(ServiceOutcome(s, t, env, impl))
  {
    if s == null {
      return Panic(NilDereference);
    }
    var c := s.container;
    if !c.built {
      return Fatal(ContainerNotBuilt, []);
    }
    var nameDep := NameFor(t);
    if nameDep == "" || nameDep == "<nil>" {
      // nameForI starts with '*', so the source's second emptiness check never fires
      nameDep := NameForI(t);
    }
    if nameDep !in c.registry {
      return Normal(Err(Sentinel(DependencyNotFound, [nameDep])));
    }
    var item := c.registry[nameDep];
    EngineRanked(c.registry, c.Sites);
    var dep := item.Build(s, env, PlanOf(c.Sites), RankOf(c.registry, c.Sites), c.Sites);
    if dep.Err? {
      return Normal(Err(dep.error));
    }
    return Normal(Unwrap.UnwrapPtr(t, Instance(item, dep.value), impl));
  }

  /** Both entry points are fatal before Build, whatever the type. */
  lemma NotBuiltIsFatal(s: Scope, t: GoType, env: Env, impl: Implements)
    requires s.container.Valid() && !s.container.built
    ensures PtrOutcome(s, t, env).exit == Fatal(ContainerNotBuilt, [])
    ensures ServiceOutcome(s, t, env, impl).exit == Fatal(ContainerNotBuilt, [])
  {
  }

  /**
   * Once Build has returned normally, so that every site is linked, RequireServiceForScope never
   * panics, and RequireServicePtrForScope panics only for an interface type (or a type named
   * "<nil>"), with ErrExtractDependencyName.
   */
  lemma BuiltNeverFatal(s: Scope, t: GoType, env: Env, impl: Implements)
    requires s.container.Valid() && s.container.built
    requires forall k :: k in s.container.registry ==> Wired(s.container.registry, s.container.registry[k])
    ensures ServiceOutcome(s, t, env, impl).exit.Normal?
    ensures PtrOutcome(s, t, env).exit.Panic? <==> t.kind == Interface || t.name == "<nil>"
    ensures PtrOutcome(s, t, env).exit.Panic? ==> PtrOutcome(s, t, env).exit == Fatal(ExtractDependencyName, [])
  {
  }

  /** An unregistered key returns ErrDependencyNotFound and changes nothing. */
  lemma NotFoundChangesNothing(s: Scope, t: GoType, env: Env, impl: Implements)
    requires s.container.Valid() && s.container.built
    ensures ServiceKey(t) !in s.container.registry ==>
      ServiceOutcome(s, t, env, impl) ==
        Outcome(Normal(Err(Sentinel(DependencyNotFound, [ServiceKey(t)]))), StateOf(s.container.Sites, env), ScopeOf(s))
    ensures t.kind != Interface && t.name != "<nil>" && t.name !in s.container.registry ==>
      PtrOutcome(s, t, env) ==
        Outcome(Normal(Err(Sentinel(DependencyNotFound, [t.name]))), StateOf(s.container.Sites, env), ScopeOf(s))
  {
  }

  /**
   * For an interface I, RequireServiceForScope looks up "*"+I, the key under which addI aliases the
   * implementation, and a build error reaches the caller as it is.
   */
  lemma InterfaceResolvesAlias(s: Scope, i: GoType, env: Env, impl: Implements)
    requires s.container.Valid() && s.container.built && i.kind == Interface
    requires NameForI(i) in s.container.registry
    ensures var o := ServiceOutcome(s, i, env, impl);
      var site := s.container.registry[NameForI(i)];
      var b := Resolve(s, NameForI(i), env);
      o.state == b.state && o.scope == b.scope &&
      (b.result.Err? ==> o.exit == Normal(Err(b.result.error))) &&
      (b.result.Ok? ==> o.exit == Normal(Unwrap.UnwrapPtr(i, Instance(site, b.result.value), impl)))
  {
  }

  // ===================== container.go =====================

  /** Every registry key, mapped to the dependency names of its site. */
  function DepGraph(reg: map<string, CallSite>): Graph.DepGraph
  {
    map k | k in reg :: reg[k].dependencyNames
  }

  /** A linked site: its dependencies are the sites at its dependency keys, which passed checkCircle. */
  ghost predicate Wired(reg: map<string, CallSite>, x: CallSite)
    reads x`dependencies
  {
    |x.dependencies| == |x.dependencyNames| &&
    (forall i :: 0 <= i < |x.dependencyNames| ==>
       DropFirst(x.dependencyNames[i]) in reg && x.dependencies[i] == reg[DropFirst(x.dependencyNames[i])]) &&
    Graph.CheckDeps(DepGraph(reg), x.dependencyNames, []) == None
  }

  ghost predicate NoCaptive(x: CallSite)
    reads x`dependencies
  {
    forall i :: 0 <= i < |x.dependencies| ==> !IsCaptive(x.lifetime, x.dependencies[i].lifetime)
  }

  /** Some key's dependency graph has a cycle or a missing key. */
  ghost predicate BadKey(reg: map<string, CallSite>)
  {
    exists k :: k in reg && !Graph.Resolvable(DepGraph(reg), k)
  }

  /** Dependency j of the site at key k is registered and captive. */
  ghost predicate CaptiveAt(reg: map<string, CallSite>, k: string, j: int)
  {
    k in reg && 0 <= j < |reg[k].dependencyNames| && DropFirst(reg[k].dependencyNames[j]) in reg &&
    IsCaptive(reg[k].lifetime, reg[DropFirst(reg[k].dependencyNames[j])].lifetime)
  }

  ghost predicate CaptiveEdge(reg: map<string, CallSite>)
  {
    exists k, j :: CaptiveAt(reg, k, j)
  }

  /** r is the panic for a failed build of hosted site j, whose slot holds the failure. */
  ghost predicate HostedFailedAt(sites: seq<CallSite>, r: Exit<()>, j: int)
    reads sites
  {
    0 <= j < |sites| && sites[j].slot.Some? && sites[j].slot.value.Err? &&
    r == Panic(PanicError(Wrapped(sites[j].name, sites[j].slot.value.error)))
  }

  ghost predicate HostedFailed(sites: seq<CallSite>, r: Exit<()>)
    reads sites
  {
    exists j :: HostedFailedAt(sites, r, j)
  }

  /**
   * r is the panic with which the key loop of Build stops at key k: checkCircle's error wrapped
   * with the key when the check from k fails, and otherwise the captive-dependency error for
   * the first captive dependency of k's site, naming that dependency and the site.
   */
  ghost predicate LinkFailedAt(reg: map<string, CallSite>, k: string, r: Exit<()>)
  {
    k in reg &&
    var c := Graph.CheckCircle(DepGraph(reg), k, []);
    if c.Some? then r == Panic(PanicError(Wrapped(k, c.value)))
    else
      exists j :: FirstCaptive(reg, reg[k].lifetime, reg[k].dependencyNames, 0, j) &&
        r == Panic(PanicError(Sentinel(CaptiveDependency, [reg[k].dependencyNames[j], reg[k].name])))
  }

  /**
   * The panic of a failed link carries an error that wraps DependencyNotFound or
   * CircleDependency when k is not resolvable, and CaptiveDependency when k is resolvable and
   * one of its dependencies is captive.
   */
  lemma LinkFailureKinds(reg: map<string, CallSite>, k: string, r: Exit<()>)
    requires LinkFailedAt(reg, k, r)
    ensures r.Panic? && r.reason.PanicError?
    ensures !Graph.Resolvable(DepGraph(reg), k) ==>
      Is(r.reason.err, DependencyNotFound) || Is(r.reason.err, CircleDependency)
    ensures Graph.Resolvable(DepGraph(reg), k) ==>
      Is(r.reason.err, CaptiveDependency) && exists j :: CaptiveAt(reg, k, j)
  {
    Graph.CheckCircleCorrect(DepGraph(reg), k);
    if Graph.Resolvable(DepGraph(reg), k) {
      var j :| FirstCaptive(reg, reg[k].lifetime, reg[k].dependencyNames, 0, j) &&
        r == Panic(PanicError(Sentinel(CaptiveDependency, [reg[k].dependencyNames[j], reg[k].name])));
      assert CaptiveAt(reg, k, j);
    }
  }

  /** A site whose only dependency is not registered makes the key loop panic with DependencyNotFound for it. */
  lemma LinkMissingOnlyDependency(reg: map<string, CallSite>, k: string, r: Exit<()>)
    requires LinkFailedAt(reg, k, r) && |reg[k].dependencyNames| == 1
    requires DropFirst(reg[k].dependencyNames[0]) !in reg
    ensures r == Panic(PanicError(Wrapped(k, Sentinel(DependencyNotFound, [DropFirst(reg[k].dependencyNames[0])]))))
    ensures Is(r.reason.err, DependencyNotFound)
  {
    var d := DropFirst(reg[k].dependencyNames[0]);
    Graph.VisitedAppend([], k);
    assert Graph.CheckCircle(DepGraph(reg), k, []) == Graph.CheckDeps(DepGraph(reg), [reg[k].dependencyNames[0]], [k]);
    assert Graph.CheckCircle(DepGraph(reg), d, [k]) == Some(Sentinel(DependencyNotFound, [d]));
  }

  ghost function RankOf(reg: map<string, CallSite>, G: set<CallSite>): map<CallSite, nat>
  {
    map x | x in G :: Graph.Rank(DepGraph(reg), x.dependencyNames)
  }

  /** Linked sites give a ranked plan: the resolution recursion terminates. */
  lemma EngineRanked(reg: map<string, CallSite>, G: set<CallSite>)
    requires reg.Values <= G
    requires forall x :: x in G ==> x.dependencies == [] || Wired(reg, x)
    ensures Resolution.Ranked(PlanOf(G), RankOf(reg, G))
  {
    var p := PlanOf(G);
    var rank := RankOf(reg, G);
    var g := DepGraph(reg);
    forall x, i | x in p && 0 <= i < |p[x].deps|
      ensures p[x].deps[i] in p && rank[p[x].deps[i]] < rank[x]
    {
      assert Wired(reg, x);
      var k := DropFirst(x.dependencyNames[i]);
      Graph.RankDecreases(g, x.dependencyNames, i);
      assert reg[k] in reg.Values;
    }
  }

  /** The hosted instances Build collects: those whose *T implements IHostedService, in order. */
  function Collected(sites: seq<CallSite>, hs: seq<Handle>, impl: Implements): seq<Handle>
    requires |sites| == |hs|
  {
    if sites == [] then []
    else
      var n := |sites| - 1;
      Collected(sites[..n], hs[..n], impl) +
        (if impl("*" + sites[n].name, HostedServiceInterface) then [hs[n]] else [])
  }

  lemma CollectedSnoc(sites: seq<CallSite>, hs: seq<Handle>, j: nat, h: Handle, impl: Implements)
    requires j < |sites| && |hs| == j
    ensures Collected(sites[..j + 1], hs + [h], impl) ==
      Collected(sites[..j], hs, impl) + (if impl("*" + sites[j].name, HostedServiceInterface) then [h] else [])
  {
    assert sites[..j + 1][..j] == sites[..j];
    assert (hs + [h])[..j] == hs;
  }

  class Container {
    var registry: map<string, CallSite>
    var hostedServiceSites: seq<CallSite>
    var global: Scope?
    var built: bool
    var hostedServices: seq<Handle>
    /** Every call site this container created, whether or not a key still refers to it. */
    ghost var Sites: set<CallSite>

    /**
     * The registry refers only to this container's sites, and every site is unlinked or linked
     * to the sites at its dependency keys.
     */
    ghost predicate Linked()
      reads this`registry, this`hostedServiceSites, this`global, this`Sites, Sites`dependencies, Sites`built
    {
      registry.Values <= Sites &&
      (forall j :: 0 <= j < |hostedServiceSites| ==>
         hostedServiceSites[j] in Sites && hostedServiceSites[j].lifetime == HostedService) &&
      (global == null ==> registry == map[] && hostedServiceSites == []) &&
      (global != null ==> global.isGlobal && global.container == this) &&
      (forall x :: x in Sites ==> !x.built) &&
      (forall x :: x in Sites ==> x.dependencies == [] || Wired(registry, x))
    }

    /** Linked, and no site is linked before Build. */
    ghost predicate Valid()
      reads this`registry, this`hostedServiceSites, this`global, this`built, this`Sites
      reads Sites`dependencies, Sites`built
    {
      Linked() && (!built ==> forall x :: x in Sites ==> x.dependencies == [])
    }

    /** The zero Container{}. */
    constructor ()
      ensures Valid() && registry == map[] && hostedServiceSites == [] && global == null && !built
      ensures hostedServices == [] && Sites == {}
    {
      registry := map[];
      hostedServiceSites := [];
      global := null;
      built := false;
      hostedServices := [];
      Sites := {};
    }

    /** add[T] (container.go:73-141). */
    method Add(t: GoType, lifetime: Lifetime) returns (r: Exit<CallSite>)
      requires Valid()
      modifies this
      ensures Valid() && built == old(built) && hostedServices == old(hostedServices)
      ensures old(built) ==> r == Fatal(ContainerAlreadyBuilt, []) && unchanged(this)
      ensures !old(built) ==> global != null && (old(global) != null ==> global == old(global))
      ensures !old(built) && old(global) == null ==> fresh(global)
      ensures !old(built) ==>
        match Registration.AddVerdict(t, old(registry).Keys)
        case Panic(reason) =>
          r == Panic(reason) && registry == old(registry) && hostedServiceSites == old(hostedServiceSites) &&
          Sites == old(Sites)
        case Normal(ds) =>
          r.Normal? && fresh(r.value) &&
          r.value.name == t.name && r.value.lifetime == lifetime && r.value.dependencyNames == ds &&
          r.value.dependencies == [] && r.value.slot == None &&
          registry == old(registry)[NameFor(t) := r.value][NameForI(t) := r.value] &&
          hostedServiceSites == old(hostedServiceSites) + (if lifetime == HostedService then [r.value] else []) &&
          Sites == old(Sites) + {r.value}
    {
      if built {
        return Fatal(ContainerAlreadyBuilt, []);
      }
      if global == null {
        // the registry map is allocated together with the global scope
        global := new Scope(this, true);
      }
      r := Register(t, lifetime);
    }

    /** The rest of add once the registry exists (container.go:90-140). */
    method Register(t: GoType, lifetime: Lifetime) returns (r: Exit<CallSite>)
      requires Valid() && !built && global != null
      modifies this`registry, this`hostedServiceSites, this`Sites
      ensures Valid()
      ensures
        match Registration.AddVerdict(t, old(registry).Keys)
        case Panic(reason) =>
          r == Panic(reason) && registry == old(registry) && hostedServiceSites == old(hostedServiceSites) &&
          Sites == old(Sites)
        case Normal(ds) =>
          r.Normal? && fresh(r.value) &&
          r.value.name == t.name && r.value.lifetime == lifetime && r.value.dependencyNames == ds &&
          r.value.dependencies == [] && r.value.slot == None &&
          registry == old(registry)[NameFor(t) := r.value][NameForI(t) := r.value] &&
          hostedServiceSites == old(hostedServiceSites) + (if lifetime == HostedService then [r.value] else []) &&
          Sites == old(Sites) + {r.value}
    {
      var depNameType := NameFor(t);
      var depPtrNameType := NameForI(t);
      var verdict := Checks(t);
      if verdict.Panic? {
        return Panic(verdict.reason);
      }
      var dependencies := verdict.value;
      var site := new CallSite(depNameType, lifetime, dependencies);
      registry := registry[depNameType := site][depPtrNameType := site];
      if lifetime == HostedService {
        hostedServiceSites := hostedServiceSites + [site];
      }
      Sites := Sites + {site};
      assert forall k :: k in registry ==> registry[k] in Sites;
      assert forall x :: x in Sites ==> x.dependencies == [];
      return Normal(site);
    }

    /**
     * The checks of add once the registry exists (container.go:90-124): the kind, the signature
     * of Init, the dependency names from its parameters and the duplicate key, first failure first.
     */
    method Checks(t: GoType) returns (r: Exit<seq<TypeName>>)
      ensures r == Registration.AddVerdict(t, registry.Keys)
    {
      var depNameType := NameFor(t);
      if t.kind != Struct {
        return Fatal(ShouldBeStructType, [depNameType]);
      }
      if t.init.None? {
        return Fatal(ShouldImplementInitMethod, [depNameType]);
      }
      var initFunc := t.init.value;
      if initFunc.numOut != 1 {
        return Fatal(ShouldImplementInitMethod, [depNameType]);
      }
      if !initFunc.firstOutIsError {
        return Fatal(ShouldImplementInitMethod, [depNameType]);
      }
      var dependencies: seq<TypeName> := [];
      var i := 0;
      while i < |initFunc.params|
        invariant 0 <= i <= |initFunc.params|
        invariant Registration.DependencyNames(initFunc.params, depNameType) ==
                  Registration.CollectFrom(initFunc.params, depNameType, i, dependencies)
      {
        if i == 0 {
          // the receiver
          i := i + 1;
          continue;
        }
        var arg := initFunc.params[i];
        if Registration.IsDependencyKind(arg.kind) {
          if arg.typeName in dependencies {
            return Panic(DuplicateParameter(arg.typeName, depNameType));
          }
          dependencies := dependencies + [arg.typeName];
        }
        i := i + 1;
      }
      if depNameType in registry {
        return Panic(DuplicateKey(depNameType));
      }
      return Normal(dependencies);
    }

    /** addI[I, T] (container.go:36-72); the lifetime is ignored when T is already registered. */
    method AddI(i: GoType, t: GoType, lifetime: Lifetime, impl: Implements) returns (r: Exit<()>)
      requires Valid()
      modifies this
      ensures Valid() && built == old(built) && hostedServices == old(hostedServices)
      ensures old(built) ==> r == Fatal(ContainerAlreadyBuilt, []) && unchanged(this)
      ensures !old(built) && Registration.RouteAddI(i, t, impl, old(registry).Keys) == Registration.Register ==>
        global != null && (old(global) != null ==> global == old(global)) && (old(global) == null ==> fresh(global))
      ensures !old(built) ==>
        match Registration.RouteAddI(i, t, impl, old(registry).Keys)
        case Refuse(reason) => r == Panic(reason) && unchanged(this)
        case Alias =>
          r == Normal(()) && registry == old(registry)[NameForI(i) := old(registry)[t.name]] &&
          hostedServiceSites == old(hostedServiceSites) && global == old(global) && Sites == old(Sites)
        case Register =>
          match Registration.AddVerdict(t, old(registry).Keys)
          case Panic(reason) =>
            r == Panic(reason) && registry == old(registry) && hostedServiceSites == old(hostedServiceSites) &&
            Sites == old(Sites)
          case Normal(ds) =>
            NameForI(i) in registry &&
            var site := registry[NameForI(i)];
            r == Normal(()) && fresh(site) &&
            site.name == t.name && site.lifetime == lifetime && site.dependencyNames == ds &&
            registry == old(registry)[t.name := site][NameForI(t) := site][NameForI(i) := site] &&
            hostedServiceSites == old(hostedServiceSites) + (if lifetime == HostedService then [site] else []) &&
            Sites == old(Sites) + {site}
    {
      if built {
        return Fatal(ContainerAlreadyBuilt, []);
      }
      var nameT := NameFor(t);
      var nameI := NameForI(i);
      if i.kind != Interface {
        return Fatal(ShouldBeInterfaceType, [nameI]);
      }
      if t.kind != Struct {
        return Fatal(ShouldBeStructType, [nameT]);
      }
      if !impl(NameForI(t), i.name) {
        return Fatal(ShouldImplementInterface, [nameT, nameI]);
      }
      var okByType := nameT in registry;
      var okByInterface := nameI in registry;
      if okByType && !okByInterface {
        registry := registry[nameI := registry[nameT]];
        return Normal(());
      }
      if okByType && okByInterface {
        return Fatal(TypeAlreadyRegistered, [nameT, nameI]);
      }
      if !okByType && okByInterface {
        return Fatal(TypeAlreadyRegistered, [nameI]);
      }
      var added := Add(t, lifetime);
      if added.Panic? {
        return Panic(added.reason);
      }
      registry := registry[nameI := added.value];
      return Normal(());
    }

    /** Build (container.go:188-215): every exit sets built, as the deferred assignment does. */
    method Build(env: Env, impl: Implements) returns (r: Exit<()>)
      requires Valid()
      modifies this, Sites`dependencies, Sites`slot, ScopeFrame(global), env
      ensures Valid() && built
      ensures registry == old(registry) && hostedServiceSites == old(hostedServiceSites) &&
              global == old(global) && Sites == old(Sites)
      ensures old(global) == null ==> r == Normal(()) && hostedServices == old(hostedServices) && unchanged(env)
      ensures r.Normal? ==> forall k :: k in registry ==> Graph.Resolvable(DepGraph(registry), k)
      ensures r.Normal? ==> forall k :: k in registry ==> Wired(registry, registry[k]) && NoCaptive(registry[k])
      ensures r.Normal? ==>
        exists hs :: |hs| == |hostedServiceSites| &&
          (forall j :: 0 <= j < |hs| ==> hostedServiceSites[j].slot == Some(Ok(hs[j]))) &&
          hostedServices == old(hostedServices) + Collected(hostedServiceSites, hs, impl)
      ensures r.Panic? ==> BadKey(registry) || CaptiveEdge(registry) || HostedFailed(hostedServiceSites, r)
      ensures r.Panic? ==> (exists k :: LinkFailedAt(registry, k, r)) || HostedFailed(hostedServiceSites, r)
    {
      if global == null {
        built := true;
        return Normal(());
      }
      ghost var hs;
      r, hs := LinkAndStart(env, impl);
      built := true;
    }

    /** The body of Build once the registry exists: link every key, then build the hosted services. */
    method LinkAndStart(env: Env, impl: Implements) returns (r: Exit<()>, ghost hs: seq<Handle>)
      requires Linked() && global != null
      modifies Sites`dependencies, Sites`slot, global, env, this`hostedServices
      ensures Linked()
      ensures r.Normal? ==> forall k :: k in registry ==> Graph.Resolvable(DepGraph(registry), k)
      ensures r.Normal? ==> forall k :: k in registry ==> Wired(registry, registry[k]) && NoCaptive(registry[k])
      ensures r.Normal? ==>
        |hs| == |hostedServiceSites| &&
        (forall j :: 0 <= j < |hs| ==> hostedServiceSites[j].slot == Some(Ok(hs[j]))) &&
        hostedServices == old(hostedServices) + Collected(hostedServiceSites, hs, impl)
      ensures r.Panic? ==> BadKey(registry) || CaptiveEdge(registry) || HostedFailed(hostedServiceSites, r)
      ensures r.Panic? ==> (exists k :: LinkFailedAt(registry, k, r)) || HostedFailed(hostedServiceSites, r)
    {
      r := LinkAll();
      assert Linked();
      if r.Panic? {
        hs := [];
        return;
      }
      EngineRanked(registry, Sites);
      r, hs := BuildHosted(env, impl);
    }

    /** The key loop of Build (container.go:194-204), in an arbitrary order of the keys. */
    method LinkAll() returns (r: Exit<()>)
      requires registry.Values <= Sites && forall x :: x in Sites ==> !x.built
      requires forall x :: x in Sites ==> x.dependencies == [] || Wired(registry, x)
      modifies Sites`dependencies
      ensures forall x :: x in Sites ==> x.dependencies == [] || Wired(registry, x)
      ensures r.Normal? ==> forall k :: k in registry ==>
        Graph.Resolvable(DepGraph(registry), k) && Wired(registry, registry[k]) && NoCaptive(registry[k])
      ensures r.Panic? ==> BadKey(registry) || CaptiveEdge(registry)
      ensures r.Panic? ==> exists k :: LinkFailedAt(registry, k, r)
    {
      var todo := registry.Keys;
      while todo != {}
        invariant todo <= registry.Keys
        invariant forall x :: x in Sites ==> x.dependencies == [] || Wired(registry, x)
        invariant forall k :: k in registry && k !in todo ==>
          Graph.Resolvable(DepGraph(registry), k) && Wired(registry, registry[k]) && NoCaptive(registry[k])
        decreases todo
      {
        var typeName :| typeName in todo;
        var site := registry[typeName];
        assert site in Sites;
        r := LinkKey(typeName);
        if r.Panic? {
          if !Graph.Resolvable(DepGraph(registry), typeName) {
            assert BadKey(registry);
          } else {
            var j :| CaptiveAt(registry, typeName, j);
            assert CaptiveEdge(registry);
          }
          return;
        }
        todo := todo - {typeName};
      }
      return Normal(());
    }

    /** One key of that loop: checkCircle from the key, then BuildCallSite of its site. */
    method LinkKey(typeName: string) returns (r: Exit<()>)
      requires typeName in registry && !registry[typeName].built
      modifies {registry[typeName]}`dependencies
      ensures r.Normal? ==>
        Graph.Resolvable(DepGraph(registry), typeName) &&
        Wired(registry, registry[typeName]) && NoCaptive(registry[typeName])
      ensures r.Panic? ==>
        registry[typeName].dependencies == old(registry[typeName].dependencies) &&
        (!Graph.Resolvable(DepGraph(registry), typeName) || exists j :: CaptiveAt(registry, typeName, j))
      ensures r.Panic? ==> LinkFailedAt(registry, typeName, r)
    {
      ghost var g := DepGraph(registry);
      var err := Graph.CheckCircle(DepGraph(registry), typeName, []);
      Graph.CheckCircleCorrect(g, typeName);
      if err.Some? {
        return Panic(PanicError(Wrapped(typeName, err.value)));
      }
      var site := registry[typeName];
      Graph.CheckCircleDeps(g, typeName);
      forall j | 0 <= j < |site.dependencyNames|
        ensures DropFirst(site.dependencyNames[j]) in registry
      {
        Graph.CheckDepsFound(g, site.dependencyNames, j);
      }
      WireCorrect(registry, site.name, site.lifetime, site.dependencyNames);
      var e := site.BuildCallSite(this);
      // every key of a site that passed checkCircle is registered, so the lookup never fails
      assert e.Normal?;
      if e.value.Some? {
        var j :| 0 <= j < |site.dependencyNames| &&
          !(DropFirst(site.dependencyNames[j]) in registry &&
            !IsCaptive(site.lifetime, registry[DropFirst(site.dependencyNames[j])].lifetime));
        assert CaptiveAt(registry, typeName, j);
        var first := WireStopsAtFirstCaptive(registry, site.name, site.lifetime, site.dependencyNames, 0, []);
        r := Panic(PanicError(e.value.value));
        assert LinkFailedAt(registry, typeName, r);
        return;
      }
      return Normal(());
    }

    /** The hosted-service loop of Build (container.go:206-214), in registration order. */
    method BuildHosted(env: Env, impl: Implements) returns (r: Exit<()>, ghost hs: seq<Handle>)
      requires global != null && Resolution.Ranked(PlanOf(Sites), RankOf(registry, Sites))
      requires forall j :: 0 <= j < |hostedServiceSites| ==>
        hostedServiceSites[j] in Sites && hostedServiceSites[j].lifetime == HostedService
      modifies Sites`slot, global, env, this`hostedServices
      ensures r.Normal? ==>
        |hs| == |hostedServiceSites| &&
        (forall j :: 0 <= j < |hs| ==> hostedServiceSites[j].slot == Some(Ok(hs[j]))) &&
        hostedServices == old(hostedServices) + Collected(hostedServiceSites, hs, impl)
      ensures r.Panic? ==> HostedFailed(hostedServiceSites, r)
    {
      var services;
      r, hs, services := BuildHostedSites(hostedServiceSites, hostedServices, env, impl,
                                          PlanOf(Sites), RankOf(registry, Sites), Sites);
      hostedServices := services;
    }

    /**
     * The loop itself: range over the slice of hosted sites, appending to the slice of hosted
     * services those instances whose type implements HostedService.
     */
    method BuildHostedSites(sites: seq<CallSite>, services0: seq<Handle>, env: Env, impl: Implements,
                            ghost p: Resolution.Plan<CallSite>, ghost rank: map<CallSite, nat>, ghost G: set<CallSite>)
      returns (r: Exit<()>, ghost hs: seq<Handle>, services: seq<Handle>)
      requires global != null && p == PlanOf(G) && Resolution.Ranked(p, rank)
      requires forall j :: 0 <= j < |sites| ==> sites[j] in G && sites[j].lifetime == HostedService
      modifies G`slot, global, env
      ensures r.Normal? ==>
        |hs| == |sites| &&
        (forall j :: 0 <= j < |hs| ==> sites[j].slot == Some(Ok(hs[j]))) &&
        services == services0 + Collected(sites, hs, impl)
      ensures r.Panic? ==> HostedFailed(sites, r)
    {
      hs := [];
      services := services0;
      var j := 0;
      while j < |sites|
        invariant 0 <= j <= |sites| && |hs| == j && p == PlanOf(G)
        invariant forall m :: 0 <= m < j ==> sites[m].slot == Some(Ok(hs[m]))
        invariant services == services0 + Collected(sites[..j], hs, impl)
      {
        var site := sites[j];
        var instance := BuildHostedSite(site, env, p, rank, G);
        if instance.Err? {
          r := Panic(PanicError(Wrapped(site.name, instance.error)));
          assert HostedFailedAt(sites, r, j);
          return;
        }
        if impl("*" + site.name, HostedServiceInterface) {
          services := services + [instance.value];
        }
        CollectedSnoc(sites, hs, j, instance.value, impl);
        hs := hs + [instance.value];
        j := j + 1;
      }
      assert sites[..j] == sites;
      r := Normal(());
    }

    /** One hosted site's build from the global scope: it fills the site's slot and keeps every filled one. */
    method BuildHostedSite(site: CallSite, env: Env, ghost p: Resolution.Plan<CallSite>, ghost rank: map<CallSite, nat>,
                           ghost G: set<CallSite>)
      returns (instance: Result<Handle>)
      requires global != null && site in G && site.lifetime == HostedService
      requires p == PlanOf(G) && Resolution.Ranked(p, rank)
      modifies G`slot, global, env
      ensures p == PlanOf(G)
      ensures site.slot == Some(instance)
      ensures forall y :: y in G && old(y.slot).Some? ==> y.slot == old(y.slot)
    {
      ghost var sc := ScopeOf(global);
      ghost var st := StateOf(G, env);
      instance := site.Build(global, env, p, rank, G);
      assert p == PlanOf(G);
      ghost var b := Resolution.Build(p, rank, env.answer, site, sc, st);
      assert b.state == StateOf(G, env);
      forall y | y in G && old(y.slot).Some?
        ensures y.slot == old(y.slot)
      {
        assert st.slots[y] == old(y.slot);
        assert b.state.slots[y] == st.slots[y];
      }
    }

    /** StartAsync (container.go:292-303): Start in registration order, up to the first failure. */
    method StartAsync(env: Env) returns (err: Option<Error>)
      modifies env`calls
      ensures !built ==> err == Some(Sentinel(ContainerNotBuilt, [])) && env.calls == old(env.calls)
      ensures built ==> (env.calls, err) == Hosted.StartFrom(env.answer, hostedServices, 0, old(env.calls))
    {
      if !built {
        return Some(Sentinel(ContainerNotBuilt, []));
      }
      var i := 0;
      while i < |hostedServices|
        invariant 0 <= i <= |hostedServices|
        invariant Hosted.StartFrom(env.answer, hostedServices, 0, old(env.calls)) ==
                  Hosted.StartFrom(env.answer, hostedServices, i, env.calls)
      {
        var e := env.Invoke(StartCall(hostedServices[i]));
        if e.Some? {
          return Some(IndexWrapped(i, e.value));
        }
        i := i + 1;
      }
      return None;
    }

    /** StopAsync (container.go:311-323): Stop on every service, last first; the first failure is kept. */
    method StopAsync(env: Env) returns (err: Option<Error>)
      modifies env`calls
      ensures !built ==> err == Some(Sentinel(ContainerNotBuilt, [])) && env.calls == old(env.calls)
      ensures built ==> (env.calls, err) == Hosted.StopFrom(env.answer, hostedServices, |hostedServices|, None, old(env.calls))
    {
      if !built {
        return Some(Sentinel(ContainerNotBuilt, []));
      }
      var firstErr: Option<Error> := None;
      var i := |hostedServices| - 1;
      while i >= 0
        invariant -1 <= i < |hostedServices|
        invariant Hosted.StopFrom(env.answer, hostedServices, |hostedServices|, None, old(env.calls)) ==
                  Hosted.StopFrom(env.answer, hostedServices, i + 1, firstErr, env.calls)
      {
        var e := env.Invoke(StopCall(hostedServices[i]));
        if e.Some? && firstErr.None? {
          firstErr := e;
        }
        i := i - 1;
      }
      return firstErr;
    }

    /** CreateScope (container.go:147-155). */
    method CreateScope() returns (r: Exit<Scope>)
      ensures !built ==> r == Fatal(ContainerNotBuilt, [])
      ensures built ==>
        r.Normal? && fresh(r.value) && r.value.container == this && !r.value.isGlobal && r.value.instances == map[]
    {
      if !built {
        return Fatal(ContainerNotBuilt, []);
      }
      var s := new Scope(this, false);
      return Normal(s);
    }
  }

  /** RequireServicePtr[T] (container.go:273-275): from the global scope, nil until the first registration. */
  method RequireServicePtr(c: Container, t: GoType, env: Env) returns (r: Exit<Result<Unwrap.Dyn>>)
    requires c.Valid()
    modifies c.Sites`slot, ScopeFrame(c.global), env
    ensures c.Valid()
    ensures c.global == null ==> r == Panic(NilDereference) && unchanged(env)
    ensures c.global != null ==>
      Outcome(r, StateOf(c.Sites, env), ScopeOf(c.global)) == old(PtrOutcome(c.global, t, env))
  {
    r := RequireServicePtrForScope(c.global, t, env);
  }

  /** RequireService[T] (container.go:282-284): from the global scope, nil until the first registration. */
  method RequireService(c: Container, t: GoType, env: Env, impl: Implements) returns (r: Exit<Result<Unwrap.Dyn>>)
    requires c.Valid()
    modifies c.Sites`slot, ScopeFrame(c.global), env
    ensures c.Valid()
    ensures c.global == null ==> r == Panic(NilDereference) && unchanged(env)
    ensures c.global != null ==>
      Outcome(r, StateOf(c.Sites, env), ScopeOf(c.global)) == old(ServiceOutcome(c.global, t, env, impl))
  {
    r := RequireServiceForScope(c.global, t, env, impl);
  }
}
