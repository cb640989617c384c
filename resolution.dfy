// Reference semantics of resolving one call site (callsite.go:37-107): build dispatches on the
// lifetime, buildSingleton runs the constructor once and caches the pair it returns,
// buildTransient constructs every time, buildScoped constructs once per scope, and the
// constructor allocates the instance, builds the dependencies in declared order and calls Init.
//
// Sites are identified by a type parameter S (the call site objects, in the container), and
// everything the resolution reads or writes is threaded through explicitly: the linked
// dependencies (a Plan), the singleton slots, the allocator, the log of Init calls and the
// instance cache of the scope. A ghost rank that decreases along the linked dependencies
// bounds the recursion; Build only links call sites whose dependency graph passed
// checkCircle, which provides such a rank.

module Resolution {
  import opened Errors
  import opened Types
  import opened Environment

  /** What a linked call site contributes: its name, its lifetime, its linked dependencies. */
  datatype SiteInfo<S> = SiteInfo(name: string, lifetime: Lifetime, deps: seq<S>)

  type Plan<S> = map<S, SiteInfo<S>>

  /**
   * A singleton's sync.Once with its cached (instance, constructorError) pair: None until the
   * once has run, then the pair forever.
   */
  type Slot = Option<Result<Handle>>

  datatype State<S> = State(slots: map<S, Slot>, next: Handle, calls: seq<Call>)

  /** The *Scope argument: nil, or a scope with its flag and its cached scoped instances. */
  datatype ScopeArg = NoScope | InScope(isGlobal: bool, cache: map<string, Handle>)

  /** What a build step leaves behind: the new state, the scope, and the (value, error) pair. */
  datatype Step<S, T> = Step(state: State<S>, scope: ScopeArg, result: Result<T>)

  predicate IsSingleton(lt: Lifetime)
  {
    lt == Singleton || lt == HostedService
  }

  /** Linked dependencies are sites of the plan, of strictly smaller rank. */
  ghost predicate Ranked<S>(p: Plan<S>, rank: map<S, nat>)
  {
    p.Keys <= rank.Keys &&
    forall x, i :: x in p && 0 <= i < |p[x].deps| ==> p[x].deps[i] in p && rank[p[x].deps[i]] < rank[x]
  }

  /**
   * What any build step preserves: no site appears or disappears, the allocator and the call
   * log only grow, a singleton slot once filled never changes, a scope stays the same kind of
   * scope and never forgets a cached instance, and the global scope caches nothing.
   */
  ghost predicate Grows<S>(st: State<S>, sc: ScopeArg, st': State<S>, sc': ScopeArg)
  {
    st'.slots.Keys == st.slots.Keys &&
    st.next <= st'.next &&
    st.calls <= st'.calls &&
    (forall y :: y in st.slots && st.slots[y].Some? ==> st'.slots[y] == st.slots[y]) &&
    (sc.NoScope? ==> sc' == NoScope) &&
    (sc.InScope? ==>
       sc'.InScope? && sc'.isGlobal == sc.isGlobal &&
       (forall k :: k in sc.cache ==> k in sc'.cache && sc'.cache[k] == sc.cache[k]) &&
       (sc.isGlobal ==> sc' == sc))
  }

  /** Every Init call made by a step has as receiver an instance the step allocated. */
  ghost predicate InitsWithin<S>(st: State<S>, st': State<S>)
    requires st.calls <= st'.calls
  {
    forall j :: |st.calls| <= j < |st'.calls| ==>
      st'.calls[j].InitCall? && st.next <= st'.calls[j].receiver < st'.next
  }

  /** Every name a step newly caches in the scope is the name of a site of rank below n. */
  ghost predicate CachedBelow<S>(p: Plan<S>, rank: map<S, nat>, n: nat, sc: ScopeArg, sc': ScopeArg)
    requires p.Keys <= rank.Keys
  {
    sc.InScope? && sc'.InScope? ==>
      forall k :: k in sc'.cache && k !in sc.cache ==>
        exists z :: z in p && p[z].name == k && rank[z] < n
  }

  lemma CachedBelowTrans<S>(p: Plan<S>, rank: map<S, nat>, n1: nat, n2: nat, n: nat,
                            sc1: ScopeArg, sc2: ScopeArg, sc3: ScopeArg)
    requires p.Keys <= rank.Keys && n1 <= n && n2 <= n
    requires sc1.InScope? ==> sc2.InScope?
    requires sc1.InScope? ==> forall k :: k in sc1.cache ==> k in sc2.cache
    requires CachedBelow(p, rank, n1, sc1, sc2) && CachedBelow(p, rank, n2, sc2, sc3)
    ensures CachedBelow(p, rank, n, sc1, sc3)
  {
  }

  /** build(s) (callsite.go:37-50). */
  function Build<S>(p: Plan<S>, rank: map<S, nat>, answer: Oracle, x: S, sc: ScopeArg, st: State<S>): (r: Step<S, Handle>)
    requires Ranked(p, rank) && x in p && p.Keys <= st.slots.Keys
    decreases rank[x], 3, 0
    ensures Grows(st, sc, r.state, r.scope) && InitsWithin(st, r.state)
    ensures CachedBelow(p, rank, rank[x] + 1, sc, r.scope)
    ensures IsSingleton(p[x].lifetime) ==> r.state.slots[x] == Some(r.result)
  {
    var lt := p[x].lifetime;
    if lt == HostedService || lt == Singleton then BuildSingleton(p, rank, answer, x, sc, st)
    else if lt == Transient then BuildTransient(p, rank, answer, x, sc, st)
    else if lt == Scoped then BuildScoped(p, rank, answer, x, sc, st)
    else Step(st, sc, Err(Sentinel(UnknownLifetime, [p[x].name])))
  }

  /** buildSingleton (callsite.go:78-83): the once runs the constructor with a nil scope. */
  function BuildSingleton<S>(p: Plan<S>, rank: map<S, nat>, answer: Oracle, x: S, sc: ScopeArg, st: State<S>): (r: Step<S, Handle>)
    requires Ranked(p, rank) && x in p && p.Keys <= st.slots.Keys
    decreases rank[x], 2, 0
    ensures Grows(st, sc, r.state, r.scope) && InitsWithin(st, r.state)
    ensures r.scope == sc
    ensures r.state.slots[x] == Some(r.result)
  {
    match st.slots[x]
    case Some(done) => Step(st, sc, done)
    case None =>
      var c := Construct(p, rank, answer, x, NoScope, st);
      Step(c.state.(slots := c.state.slots[x := Some(c.result)]), sc, c.result)
  }

  /** buildTransient (callsite.go:86-88): the constructor with a nil scope, every time. */
  function BuildTransient<S>(p: Plan<S>, rank: map<S, nat>, answer: Oracle, x: S, sc: ScopeArg, st: State<S>): (r: Step<S, Handle>)
    requires Ranked(p, rank) && x in p && p.Keys <= st.slots.Keys
    decreases rank[x], 2, 0
    ensures Grows(st, sc, r.state, r.scope) && InitsWithin(st, r.state)
    ensures r.scope == sc
  {
    var c := Construct(p, rank, answer, x, NoScope, st);
    Step(c.state, sc, c.result)
  }

  /** buildScoped(s) (callsite.go:91-107). */
  function BuildScoped<S>(p: Plan<S>, rank: map<S, nat>, answer: Oracle, x: S, sc: ScopeArg, st: State<S>): (r: Step<S, Handle>)
    requires Ranked(p, rank) && x in p && p.Keys <= st.slots.Keys
    decreases rank[x], 2, 0
    ensures Grows(st, sc, r.state, r.scope) && InitsWithin(st, r.state)
    ensures CachedBelow(p, rank, rank[x] + 1, sc, r.scope)
  {
    match sc
    case NoScope => Step(st, sc, Err(Sentinel(ScopeIsNil, [])))
    case InScope(isGlobal, cache) =>
      if isGlobal then Step(st, sc, Err(Sentinel(ScopedDependencyInGlobalScope, [])))
      else if p[x].name in cache then Step(st, sc, Ok(cache[p[x].name]))
      else
        var c := Construct(p, rank, answer, x, sc, st);
        if c.result.Err? then c
        else
          CachedBelowTrans(p, rank, rank[x], rank[x] + 1, rank[x] + 1, sc, c.scope,
                           InScope(false, c.scope.cache[p[x].name := c.result.value]));
          Step(c.state, InScope(false, c.scope.cache[p[x].name := c.result.value]), c.result)
  }

  /**
   * constructor(s) (callsite.go:54-75): allocate the instance, build each dependency with the
   * same scope, then call Init with the instance as receiver.
   */
  function Construct<S>(p: Plan<S>, rank: map<S, nat>, answer: Oracle, x: S, sc: ScopeArg, st: State<S>): (r: Step<S, Handle>)
    requires Ranked(p, rank) && x in p && p.Keys <= st.slots.Keys
    decreases rank[x], 1, 0
    ensures Grows(st, sc, r.state, r.scope) && InitsWithin(st, r.state)
    ensures CachedBelow(p, rank, rank[x], sc, r.scope)
    ensures st.next < r.state.next
    ensures r.result.Ok? ==> r.result.value == st.next
  {
    var receiver := st.next;
    var d := Deps(p, rank, answer, x, 0, [], sc, st.(next := st.next + 1));
    match d.result
    case Err(e) => Step(d.state, d.scope, Err(e))
    case Ok(args) =>
      var call := InitCall(p[x].name, receiver, args);
      var st' := d.state.(calls := d.state.calls + [call]);
      match answer(call, d.state.calls)
      case Some(e) => Step(st', d.scope, Err(InitFailed(p[x].name, e)))
      case None => Step(st', d.scope, Ok(receiver))
  }

  /**
   * The loop of the constructor over the linked dependencies, continued from index i with the
   * instances built so far.
   */
  function Deps<S>(p: Plan<S>, rank: map<S, nat>, answer: Oracle, x: S, i: nat, args: seq<Handle>,
                   sc: ScopeArg, st: State<S>): (r: Step<S, seq<Handle>>)
    requires Ranked(p, rank) && x in p && p.Keys <= st.slots.Keys && i <= |p[x].deps|
    decreases rank[x], 0, |p[x].deps| - i
    ensures Grows(st, sc, r.state, r.scope) && InitsWithin(st, r.state)
    ensures CachedBelow(p, rank, rank[x], sc, r.scope)
    ensures r.result.Ok? ==> |r.result.value| == |args| + |p[x].deps| - i
  {
    if i == |p[x].deps| then Step(st, sc, Ok(args))
    else
      var d := p[x].deps[i];
      var b := Build(p, rank, answer, d, sc, st);
      match b.result
      case Err(e) => Step(b.state, b.scope, Err(Wrapped(p[d].name, e)))
      case Ok(h) =>
        var r := Deps(p, rank, answer, x, i + 1, args + [h], b.scope, b.state);
        CachedBelowTrans(p, rank, rank[d] + 1, rank[x], rank[x], sc, b.scope, r.scope);
        r
  }

  /** One turn of the argument loop: a dependency that builds adds its instance to the arguments. */
  lemma DepsStep<S>(p: Plan<S>, rank: map<S, nat>, answer: Oracle, x: S, i: nat, args: seq<Handle>,
                    sc: ScopeArg, st: State<S>, h: Handle, sc': ScopeArg, st': State<S>)
    requires Ranked(p, rank) && x in p && p.Keys <= st.slots.Keys && i < |p[x].deps|
    requires Build(p, rank, answer, p[x].deps[i], sc, st) == Step(st', sc', Ok(h))
    ensures p.Keys <= st'.slots.Keys
    ensures Deps(p, rank, answer, x, i, args, sc, st) == Deps(p, rank, answer, x, i + 1, args + [h], sc', st')
  {
  }

  /** One turn of the argument loop: a dependency that fails ends it with the error wrapped in its name. */
  lemma DepsStop<S>(p: Plan<S>, rank: map<S, nat>, answer: Oracle, x: S, i: nat, args: seq<Handle>,
                    sc: ScopeArg, st: State<S>, e: Error, sc': ScopeArg, st': State<S>)
    requires Ranked(p, rank) && x in p && p.Keys <= st.slots.Keys && i < |p[x].deps|
    requires Build(p, rank, answer, p[x].deps[i], sc, st) == Step(st', sc', Err(e))
    ensures Deps(p, rank, answer, x, i, args, sc, st) == Step(st', sc', Err(Wrapped(p[p[x].deps[i]].name, e)))
  {
  }

  /**
   * The dependencies of x from index i, built one after another: the j-th is built from the
   * state and scope the (j-1)-th left and returns hs[j]. sts and scs hold the state and scope
   * before each build, and after the last.
   */
  ghost predicate BuiltInTurn<S>(p: Plan<S>, rank: map<S, nat>, answer: Oracle, x: S, i: nat,
                                 sts: seq<State<S>>, scs: seq<ScopeArg>, hs: seq<Handle>)
    requires Ranked(p, rank) && x in p
  {
    i + |hs| <= |p[x].deps| && |sts| == |hs| + 1 && |scs| == |hs| + 1 &&
    (forall j :: 0 <= j < |hs| ==>
       p.Keys <= sts[j].slots.Keys &&
       Build(p, rank, answer, p[x].deps[i + j], scs[j], sts[j]) == Step(sts[j + 1], scs[j + 1], Ok(hs[j])))
  }

  /**
   * How the argument loop from index i ends, given the builds hs it made in turn: with every
   * instance appended to args, or, when the build at index m fails, with that error wrapped
   * with the dependency's name.
   */
  ghost predicate DepsEnd<S>(p: Plan<S>, rank: map<S, nat>, answer: Oracle, x: S, i: nat, args: seq<Handle>,
                             sc: ScopeArg, st: State<S>, m: nat, last: State<S>, lastScope: ScopeArg, hs: seq<Handle>)
    requires Ranked(p, rank) && x in p && p.Keys <= st.slots.Keys && p.Keys <= last.slots.Keys
    requires i <= |p[x].deps| && m <= |p[x].deps|
  {
    var d := Deps(p, rank, answer, x, i, args, sc, st);
    if m == |p[x].deps| then d == Step(last, lastScope, Ok(args + hs))
    else
      var b := Build(p, rank, answer, p[x].deps[m], lastScope, last);
      b.result.Err? && d == Step(b.state, b.scope, Err(Wrapped(p[p[x].deps[m]].name, b.result.error)))
  }

  /**
   * The argument loop builds the dependencies in declared order, each from the state and
   * scope the previous one left. If all of them build, it returns their instances in that
   * order. Otherwise the first that fails, at index m, ends the loop: its error is returned
   * wrapped with its name, and no dependency after it is built.
   */
  lemma {:induction false} DepsInOrder<S>(p: Plan<S>, rank: map<S, nat>, answer: Oracle, x: S, i: nat,
                                          args: seq<Handle>, sc: ScopeArg, st: State<S>)
    returns (m: nat, sts: seq<State<S>>, scs: seq<ScopeArg>, hs: seq<Handle>)
    requires Ranked(p, rank) && x in p && p.Keys <= st.slots.Keys && i <= |p[x].deps|
    ensures BuiltInTurn(p, rank, answer, x, i, sts, scs, hs) && m == i + |hs|
    ensures sts[0] == st && scs[0] == sc && p.Keys <= sts[|hs|].slots.Keys
    ensures DepsEnd(p, rank, answer, x, i, args, sc, st, m, sts[|hs|], scs[|hs|], hs)
    decreases |p[x].deps| - i
  {
    if i == |p[x].deps| {
      m, sts, scs, hs := i, [st], [sc], [];
      assert args + hs == args;
      return;
    }
    var b := Build(p, rank, answer, p[x].deps[i], sc, st);
    if b.result.Err? {
      DepsStop(p, rank, answer, x, i, args, sc, st, b.result.error, b.scope, b.state);
      m, sts, scs, hs := i, [st], [sc], [];
      return;
    }
    var h := b.result.value;
    DepsStep(p, rank, answer, x, i, args, sc, st, h, b.scope, b.state);
    var sts', scs', hs';
    m, sts', scs', hs' := DepsInOrder(p, rank, answer, x, i + 1, args + [h], b.scope, b.state);
    BuiltInTurnCons(p, rank, answer, x, i, st, sc, h, sts', scs', hs');
    DepsEndCons(p, rank, answer, x, i, args, sc, st, h, b.scope, b.state, m, sts'[|hs'|], scs'[|hs'|], hs');
    sts, scs, hs := [st] + sts', [sc] + scs', [h] + hs';
    assert sts[|hs|] == sts'[|hs'|] && scs[|hs|] == scs'[|hs'|];
  }

  /** How the loop ends from i + 1, after dependency i built as h, is how it ends from i. */
  lemma DepsEndCons<S>(p: Plan<S>, rank: map<S, nat>, answer: Oracle, x: S, i: nat, args: seq<Handle>,
                       sc: ScopeArg, st: State<S>, h: Handle, sc': ScopeArg, st': State<S>,
                       m: nat, last: State<S>, lastScope: ScopeArg, hs: seq<Handle>)
    requires Ranked(p, rank) && x in p && p.Keys <= st.slots.Keys && p.Keys <= st'.slots.Keys
    requires p.Keys <= last.slots.Keys && i < |p[x].deps| && m <= |p[x].deps|
    requires Deps(p, rank, answer, x, i, args, sc, st) == Deps(p, rank, answer, x, i + 1, args + [h], sc', st')
    requires DepsEnd(p, rank, answer, x, i + 1, args + [h], sc', st', m, last, lastScope, hs)
    ensures DepsEnd(p, rank, answer, x, i, args, sc, st, m, last, lastScope, [h] + hs)
  {
    assert args + [h] + hs == args + ([h] + hs);
  }

  /** A build of dependency i that succeeds, followed by the builds from i + 1, are the builds from i. */
  lemma BuiltInTurnCons<S>(p: Plan<S>, rank: map<S, nat>, answer: Oracle, x: S, i: nat, st: State<S>, sc: ScopeArg,
                           h: Handle, sts: seq<State<S>>, scs: seq<ScopeArg>, hs: seq<Handle>)
    requires Ranked(p, rank) && x in p && p.Keys <= st.slots.Keys && i < |p[x].deps|
    requires BuiltInTurn(p, rank, answer, x, i + 1, sts, scs, hs)
    requires Build(p, rank, answer, p[x].deps[i], sc, st) == Step(sts[0], scs[0], Ok(h))
    ensures BuiltInTurn(p, rank, answer, x, i, [st] + sts, [sc] + scs, [h] + hs)
  {
    var sts1, scs1, hs1 := [st] + sts, [sc] + scs, [h] + hs;
    forall j | 0 <= j < |hs1|
      ensures p.Keys <= sts1[j].slots.Keys &&
              Build(p, rank, answer, p[x].deps[i + j], scs1[j], sts1[j]) == Step(sts1[j + 1], scs1[j + 1], Ok(hs1[j]))
    {
      if j > 0 {
        assert sts1[j] == sts[j - 1] && scs1[j] == scs[j - 1] && hs1[j] == hs[j - 1];
        assert sts1[j + 1] == sts[j] && scs1[j + 1] == scs[j];
        assert p[x].deps[i + j] == p[x].deps[(i + 1) + (j - 1)];
      }
    }
  }

  /**
   * The constructor allocates the receiver, then runs the argument loop with the allocator
   * advanced. When every dependency builds, Init is called last, on the receiver, with the
   * dependencies' instances in declared order, and the construction succeeds exactly when Init
   * returns no error. Otherwise the first failing dependency's error, wrapped with its name, is
   * the result, and Init is not called.
   */
  lemma ConstructInOrder<S>(p: Plan<S>, rank: map<S, nat>, answer: Oracle, x: S, sc: ScopeArg, st: State<S>)
    returns (sts: seq<State<S>>, scs: seq<ScopeArg>, hs: seq<Handle>)
    requires Ranked(p, rank) && x in p && p.Keys <= st.slots.Keys
    ensures BuiltInTurn(p, rank, answer, x, 0, sts, scs, hs)
    ensures sts[0] == st.(next := st.next + 1) && scs[0] == sc && p.Keys <= sts[|hs|].slots.Keys
    ensures var c := Construct(p, rank, answer, x, sc, st);
      var last := sts[|hs|];
      if |hs| == |p[x].deps| then
        var call := InitCall(p[x].name, st.next, hs);
        c.state == last.(calls := last.calls + [call]) && c.scope == scs[|hs|] &&
        c.result == (if answer(call, last.calls).None? then Ok(st.next) else Err(InitFailed(p[x].name, answer(call, last.calls).value)))
      else
        var b := Build(p, rank, answer, p[x].deps[|hs|], scs[|hs|], last);
        b.result.Err? && c == Step(b.state, b.scope, Err(Wrapped(p[p[x].deps[|hs|]].name, b.result.error)))
  {
    var m;
    m, sts, scs, hs := DepsInOrder(p, rank, answer, x, 0, [], sc, st.(next := st.next + 1));
    assert [] + hs == hs;
  }

  // ----- properties of resolution -----

  /** A singleton whose once has run returns the cached pair, failure included, and does nothing. */
  lemma SingletonCached<S>(p: Plan<S>, rank: map<S, nat>, answer: Oracle, x: S, sc: ScopeArg, st: State<S>)
    requires Ranked(p, rank) && x in p && p.Keys <= st.slots.Keys
    requires IsSingleton(p[x].lifetime) && st.slots[x].Some?
    ensures Build(p, rank, answer, x, sc, st) == Step(st, sc, st.slots[x].value)
  {
  }

  /**
   * Resolving a singleton a second time, from any scope, returns the same pair as the first
   * time and leaves the state as the first resolution left it.
   */
  lemma SingletonOnce<S>(p: Plan<S>, rank: map<S, nat>, answer: Oracle, x: S, sc: ScopeArg, sc': ScopeArg, st: State<S>)
    requires Ranked(p, rank) && x in p && p.Keys <= st.slots.Keys
    requires IsSingleton(p[x].lifetime)
    ensures var b1 := Build(p, rank, answer, x, sc, st);
      Build(p, rank, answer, x, sc', b1.state) == Step(b1.state, sc', b1.result)
  {
    var b1 := Build(p, rank, answer, x, sc, st);
    SingletonCached(p, rank, answer, x, sc', b1.state);
  }

  /**
   * Outside Scoped, the scope passed in plays no part: the result and the new state are the
   * same for every scope, and the scope comes back untouched.
   */
  lemma UnscopedIgnoresScope<S>(p: Plan<S>, rank: map<S, nat>, answer: Oracle, x: S, sc: ScopeArg, sc': ScopeArg, st: State<S>)
    requires Ranked(p, rank) && x in p && p.Keys <= st.slots.Keys
    requires p[x].lifetime != Scoped
    ensures var b := Build(p, rank, answer, x, sc, st);
      var b' := Build(p, rank, answer, x, sc', st);
      b.result == b'.result && b.state == b'.state && b.scope == sc
  {
  }

  /** A transient resolution that succeeds returns the instance it has just allocated. */
  lemma TransientFresh<S>(p: Plan<S>, rank: map<S, nat>, answer: Oracle, x: S, sc: ScopeArg, st: State<S>)
    requires Ranked(p, rank) && x in p && p.Keys <= st.slots.Keys
    requires p[x].lifetime == Transient
    ensures var b := Build(p, rank, answer, x, sc, st);
      b.state.next > st.next && (b.result.Ok? ==> b.result.value == st.next)
  {
  }

  /** Two successive transient resolutions never return the same instance. */
  lemma TransientTwiceDistinct<S>(p: Plan<S>, rank: map<S, nat>, answer: Oracle, x: S, sc: ScopeArg, st: State<S>)
    requires Ranked(p, rank) && x in p && p.Keys <= st.slots.Keys
    requires p[x].lifetime == Transient
    ensures var b1 := Build(p, rank, answer, x, sc, st);
      var b2 := Build(p, rank, answer, x, b1.scope, b1.state);
      b1.result.Ok? && b2.result.Ok? ==> b1.result.value != b2.result.value
  {
    var b1 := Build(p, rank, answer, x, sc, st);
    TransientFresh(p, rank, answer, x, sc, st);
    TransientFresh(p, rank, answer, x, b1.scope, b1.state);
  }

  /** A scoped site fails without a scope and in the global scope, and does nothing then. */
  lemma ScopedRefused<S>(p: Plan<S>, rank: map<S, nat>, answer: Oracle, x: S, sc: ScopeArg, st: State<S>)
    requires Ranked(p, rank) && x in p && p.Keys <= st.slots.Keys
    requires p[x].lifetime == Scoped
    ensures sc.NoScope? ==>
      Build(p, rank, answer, x, sc, st) == Step(st, sc, Err(Sentinel(ScopeIsNil, [])))
    ensures sc.InScope? && sc.isGlobal ==>
      Build(p, rank, answer, x, sc, st) == Step(st, sc, Err(Sentinel(ScopedDependencyInGlobalScope, [])))
  {
  }

  /**
   * In a non-global scope a scoped site returns the instance the scope holds under its name;
   * otherwise it constructs one, and on success the scope holds the new instance under its name.
   */
  lemma ScopedCaches<S>(p: Plan<S>, rank: map<S, nat>, answer: Oracle, x: S, sc: ScopeArg, st: State<S>)
    requires Ranked(p, rank) && x in p && p.Keys <= st.slots.Keys
    requires p[x].lifetime == Scoped && sc.InScope? && !sc.isGlobal
    ensures var b := Build(p, rank, answer, x, sc, st);
      (p[x].name in sc.cache ==> b == Step(st, sc, Ok(sc.cache[p[x].name]))) &&
      (p[x].name !in sc.cache && b.result.Ok? ==>
         b.result.value == st.next && b.scope.InScope? && p[x].name in b.scope.cache &&
         b.scope.cache[p[x].name] == st.next)
  {
  }

  /** Within one scope, a scoped site resolved a second time returns the same instance and does nothing. */
  lemma ScopedOncePerScope<S>(p: Plan<S>, rank: map<S, nat>, answer: Oracle, x: S, sc: ScopeArg, st: State<S>)
    requires Ranked(p, rank) && x in p && p.Keys <= st.slots.Keys
    requires p[x].lifetime == Scoped && sc.InScope? && !sc.isGlobal
    ensures var b1 := Build(p, rank, answer, x, sc, st);
      b1.result.Ok? ==>
        Build(p, rank, answer, x, b1.scope, b1.state) == Step(b1.state, b1.scope, b1.result)
  {
    var b1 := Build(p, rank, answer, x, sc, st);
    ScopedCaches(p, rank, answer, x, sc, st);
    if b1.result.Ok? {
      ScopedCaches(p, rank, answer, x, b1.scope, b1.state);
    }
  }

  /** Two fresh scopes get two different instances of a scoped site. */
  lemma ScopesDoNotShare<S>(p: Plan<S>, rank: map<S, nat>, answer: Oracle, x: S, st: State<S>)
    requires Ranked(p, rank) && x in p && p.Keys <= st.slots.Keys
    requires p[x].lifetime == Scoped
    ensures var b1 := Build(p, rank, answer, x, InScope(false, map[]), st);
      var b2 := Build(p, rank, answer, x, InScope(false, map[]), b1.state);
      b1.result.Ok? && b2.result.Ok? ==> b1.result.value != b2.result.value
  {
    var b1 := Build(p, rank, answer, x, InScope(false, map[]), st);
    ScopedCaches(p, rank, answer, x, InScope(false, map[]), st);
    ScopedCaches(p, rank, answer, x, InScope(false, map[]), b1.state);
  }

  ghost predicate UniqueNames<S>(p: Plan<S>)
  {
    forall y, z :: y in p && z in p && p[y].name == p[z].name ==> y == z
  }

  /** When site names are unique, a scoped construction that fails leaves its name uncached. */
  lemma ScopedFailureCachesNothing<S>(p: Plan<S>, rank: map<S, nat>, answer: Oracle, x: S, sc: ScopeArg, st: State<S>)
    requires Ranked(p, rank) && x in p && p.Keys <= st.slots.Keys
    requires UniqueNames(p)
    requires p[x].lifetime == Scoped && sc.InScope? && p[x].name !in sc.cache
    ensures var b := Build(p, rank, answer, x, sc, st);
      b.result.Err? ==> b.scope.InScope? && p[x].name !in b.scope.cache
  {
    var b := Build(p, rank, answer, x, sc, st);
    if !sc.isGlobal && b.result.Err? {
      assert b == BuildScoped(p, rank, answer, x, sc, st);
      var c := Construct(p, rank, answer, x, sc, st);
      assert b == c;
    }
  }

  /**
   * A construction that reaches Init calls it last, with the new instance as receiver and one
   * argument per dependency, and succeeds exactly when Init returns no error; a dependency
   * that fails stops it before Init, which is then never called on the new instance.
   */
  lemma ConstructOutcome<S>(p: Plan<S>, rank: map<S, nat>, answer: Oracle, x: S, sc: ScopeArg, st: State<S>)
    requires Ranked(p, rank) && x in p && p.Keys <= st.slots.Keys
    ensures var c := Construct(p, rank, answer, x, sc, st);
      var calls := c.state.calls;
      (c.result.Ok? || c.result.error.InitFailed? <==>
         |calls| > |st.calls| && calls[|calls| - 1].InitCall? && calls[|calls| - 1].receiver == st.next) &&
      (c.result.Ok? || c.result.error.InitFailed? ==>
         calls[|calls| - 1] == InitCall(p[x].name, st.next, calls[|calls| - 1].args) &&
         |calls[|calls| - 1].args| == |p[x].deps| &&
         (c.result.Ok? <==> answer(calls[|calls| - 1], calls[..|calls| - 1]).None?)) &&
      (c.result.Err? && !c.result.error.InitFailed? ==>
         (exists i :: 0 <= i < |p[x].deps| && c.result.error.Wrapped? && c.result.error.name == p[p[x].deps[i]].name) &&
         forall j :: |st.calls| <= j < |calls| ==> calls[j].receiver != st.next)
  {
    var st1 := st.(next := st.next + 1);
    var d := Deps(p, rank, answer, x, 0, [], sc, st1);
    if d.result.Err? {
      DepsFailure(p, rank, answer, x, 0, [], sc, st1);
    } else {
      assert d.state.calls + [InitCall(p[x].name, st.next, d.result.value)] == Construct(p, rank, answer, x, sc, st).state.calls;
    }
  }

  lemma {:induction false} DepsFailure<S>(p: Plan<S>, rank: map<S, nat>, answer: Oracle, x: S, i: nat, args: seq<Handle>,
                                          sc: ScopeArg, st: State<S>)
    requires Ranked(p, rank) && x in p && p.Keys <= st.slots.Keys && i <= |p[x].deps|
    requires Deps(p, rank, answer, x, i, args, sc, st).result.Err?
    ensures var e := Deps(p, rank, answer, x, i, args, sc, st).result.error;
      e.Wrapped? && exists j :: i <= j < |p[x].deps| && e.name == p[p[x].deps[j]].name
    decreases |p[x].deps| - i
  {
    var d := p[x].deps[i];
    var b := Build(p, rank, answer, d, sc, st);
    if b.result.Ok? {
      DepsFailure(p, rank, answer, x, i + 1, args + [b.result.value], b.scope, b.state);
    }
  }
}
