# A verified model of a reflection-based dependency-injection container

The Go package `container` is a dependency-injection container. A program registers struct types
with a lifetime: Singleton, Transient, Scoped or HostedService. Each struct's `Init` method
declares the dependencies of that type through its parameters. `Build` checks the dependency
graph, links every call site to the sites it depends on, and constructs the hosted services
eagerly. The typed entry points `RequireService*` then resolve instances:

- Singletons and hosted services are built once.
- Transients are built on every request.
- Scoped instances are built once per scope.

Hosted services are started in registration order and stopped in reverse order.

This project models that engine in Dafny and proves what it promises. What it models:

- the registry and the registration rules (`add`, `addI`);
- the depth-first cycle check (`checkCircle`);
- the linking of call sites (`BuildCallSite`) with the captive-dependency rule;
- `Build`;
- the lifetime dispatch, construction and caching of instances (`build`, `buildSingleton`,
  `buildTransient`, `buildScoped`, `constructor`);
- the entry points (`RequireServicePtrForScope`, `RequireServiceForScope` and the global-scope
  wrappers);
- the type assertions behind them (`unwrapT`, `unwrapI`, `unwrapPtr`);
- `StartAsync` and `StopAsync`.

Modules:

- `Errors` (errors.dfy) holds the sentinel errors as an `ErrorKind` datatype. It also models
  wrapping, with `errors.Is` following the wrap chain. A Go panic is a separate `Exit.Panic`
  outcome.
- `Types` (types.dfy) replaces reflection with a record per type argument: its name, its kind
  and the signature of its `Init`. It holds `nameFor` and `nameForI`, and the lifetimes with
  their Go values.
- `Environment` (environment.dfy) is everything the code reaches outside itself:
  - an allocator of fresh instance handles, for `new(T)`;
  - an oracle that answers every call into user code (`Init`, `Start`, `Stop`), given the calls
    made before it;
  - the log of those calls.
- `Graph` (graph.dfy) holds `checkCircle` as two mutually recursive functions over the graph
  induced by the registry. A reference predicate over walks states what the check decides. A
  rank bounds the resolution recursion below every linked site.
- `Registration` (registration.dfy) holds the checks `add` and `addI` make, as functions of the
  type arguments and of the keys already registered.
- `Resolution` (resolution.dfy) is the reference semantics of resolving one call site. It is a
  family of functions that threads through four things: the singleton slots, the allocator, the
  log of `Init` calls and the scope's instance cache.
- `Unwrap` (unwrap.dfy) holds the three unwrap helpers, over a small universe of dynamic values.
- `Hosted` (hosted.dfy) holds the start and stop loops as functions, each with a reference
  description.
- `DIContainer` (container.dfy) holds the imperative engine, in three classes:
  - `CallSite` has the write-once singleton `slot` and the linked `dependencies`.
  - `Scope` has the `instances` map.
  - `Container` has `registry`, `hostedServiceSites`, `global`, `built` and `hostedServices`.

  The methods of all three are proved against the functions of the modules above.
- `Scenario` (scenario.dfy) is the worked example of the package's tests.

## Model

| member | source | states |
|---|---|---|
| Types.NameFor | container.go:33 | A non-interface type is keyed by its own name. An interface type's zero value prints as "<nil>". |
| Types.NameForI | container.go:34 | The pointer name is "*" followed by the type's name, one character longer. |
| Types.DropFirst | container.go:167 | Dropping the first character of a dependency name leaves what follows it. Put back in front, that character restores the name. |
| Types.ServiceKey | scope.go:113-119 | RequireServiceForScope looks up "*"+I for an interface I and the type's own name otherwise. The key it looks up is never empty or "<nil>". |
| Errors.Is | errors.go:8-67 | errors.Is over the wrapping the container uses: a sentinel matches its own kind, every wrapper passes the test to its cause, and an Init failure also matches ErrFailedToBuildDependency. Its reference definition is Errors.Chain, related by Errors.IsOnChain. |
| Errors.Chain | callsite.go:61-71 | The errors unwrapping reaches from an error, the error itself first, then each wrapped cause. |
| Errors.IsOnChain | errors.go:8-67 | errors.Is finds a sentinel exactly when some error on the unwrap chain is that sentinel, or is an Init failure and the sentinel is ErrFailedToBuildDependency. |
| Registration.DependencyNamesCorrect | container.go:106-119 | The dependency loop yields the Init parameters after the receiver whose kind is Struct, Pointer or Interface, in declared order. It succeeds exactly when those names are distinct. Otherwise it panics naming the first repeated one. |
| Registration.CollectFrom | container.go:106-119 | The dependency loop from parameter i, skipping the receiver. It is specified by Registration.CollectFromCorrect. |
| Registration.CollectFromCorrect | container.go:106-119 | From parameter i on, with distinct names collected so far, the loop appends the declared dependency names when the result stays distinct, and otherwise panics with the first repeated one. |
| Registration.DependencyNames | container.go:106-119 | The loop from the first parameter. It is specified by Registration.DependencyNamesCorrect. |
| Registration.AddVerdict | container.go:90-124 | The checks of add in source order: struct kind, an Init method, one result, an error result, distinct dependency names, a new key. The first that fails gives the panic. It is specified by Registration.AddVerdictAccepts. |
| Registration.RouteAddI | container.go:40-69 | The decision of addI: the three type checks in source order, then alias, refusal or fresh registration by which keys are taken. It is specified by Registration.RouteAddICases. |
| Registration.AddVerdictAccepts | container.go:90-124 | add's checks, in source order, accept a type in exactly one case: a struct whose *T has an Init with one result implementing error, distinct dependency names and a key not yet registered. They then yield the declared dependency names. |
| Registration.RouteAddICases | container.go:43-71 | A well-typed pair is refused with ErrTypeAlreadyRegistered exactly when the interface key is taken. It is aliased when T is registered and registered afresh when it is not. |
| Graph.CheckCircle | container.go:157-177 | An absent key gives ErrDependencyNotFound. Any failure is ErrDependencyNotFound or ErrCircleDependency. The recursion terminates because the visited keys grow. |
| Graph.CheckDeps | container.go:166-175 | The loop over a site's dependency names fails only with ErrDependencyNotFound or ErrCircleDependency. |
| Graph.CheckCircleCorrect | container.go:157-177 | The check from a key succeeds exactly when every walk of the dependency graph from that key repeats no key and ends at a registered key. |
| Graph.CircleReportsPath | container.go:165-170 | The path an ErrCircleDependency names is the visited keys followed by a walk of the graph from the key. The last site of that walk has a dependency already on the path. |
| Graph.CheckDepsFound | container.go:158-161 | Every dependency of a list that passes the check is a registry key. |
| Graph.CheckCircleDeps | container.go:165-175 | A key that passes the check is registered, and its dependency list passes the check from an empty path. |
| Graph.RankDecreases | container.go:171 | Following a dependency of a checked list reaches a checked list of strictly smaller rank. |
| Resolution.Build | callsite.go:37-50 | The dispatch never loses a cached singleton instance or a scoped instance and only appends Init calls. Afterwards a singleton's slot holds exactly the pair returned. |
| Resolution.BuildSingleton | callsite.go:78-83 | The scope comes back unchanged, and afterwards the slot holds the pair returned. |
| Resolution.BuildTransient | callsite.go:86-88 | The scope comes back unchanged, and the state only grows. |
| Resolution.BuildScoped | callsite.go:91-107 | No cached instance is lost, and the Init calls only grow. |
| Resolution.Construct | callsite.go:54-75 | The receiver is freshly allocated. A success returns it. |
| Resolution.Deps | callsite.go:58-64 | A successful argument loop yields one instance per remaining dependency. Their order and the first failure are stated by Resolution.DepsInOrder. |
| Resolution.DepsInOrder | callsite.go:58-64 | The argument loop builds the dependencies in declared order, each from the state and scope the previous build left. When all of them build, it returns their instances in that order. Otherwise the first failing dependency ends the loop, its error wrapped with its name, and no later dependency is built. |
| Resolution.SingletonCached | callsite.go:78-83 | A singleton whose once has run returns its cached pair and changes nothing, even when that pair is a failure. |
| Resolution.SingletonOnce | callsite.go:78-83 | A second resolution of a singleton, from any scope, returns the first pair and changes nothing. |
| Resolution.UnscopedIgnoresScope | callsite.go:42-44 | Outside Scoped, the result and the new state do not depend on the scope passed in, and the scope is untouched. |
| Resolution.TransientFresh | callsite.go:86-88 | A transient resolution allocates. A success returns the instance just allocated. |
| Resolution.TransientTwiceDistinct | callsite.go:86-88 | Two successive transient resolutions never return the same instance. |
| Resolution.ScopedRefused | callsite.go:92-97 | A nil scope gives ErrScopeIsNil and the global scope gives ErrScopedDependencyInGlobalScope. Neither changes anything. |
| Resolution.ScopedCaches | callsite.go:98-106 | A cache hit returns the cached instance and changes nothing. A miss that succeeds caches the new instance under the site's name. |
| Resolution.ScopedOncePerScope | callsite.go:98-106 | Within one scope, a second resolution returns the same instance and changes nothing. |
| Resolution.ScopesDoNotShare | callsite.go:98-106 | Two fresh scopes receive different instances. |
| Resolution.ScopedFailureCachesNothing | callsite.go:101-104 | With unique site names, a failed construction leaves the name uncached. |
| Resolution.ConstructOutcome | callsite.go:54-75 | Init is reached exactly when the last call is an Init on the new instance. It then has one argument per dependency, and the construction succeeds exactly when Init returns no error. A failure before Init is wrapped with a dependency's name, and no Init runs on the new instance. |
| Resolution.ConstructInOrder | callsite.go:54-75 | The receiver is allocated, then the dependencies are built in order through one scope. When all build, Init runs last on the receiver with their instances in declared order, and the construction succeeds exactly when Init returns no error. Otherwise the first failing dependency's wrapped error is the result and Init is not called. |
| Unwrap.UnwrapTInstance | scope.go:42-51 | A call site's instance of struct n passes unwrapT[T] exactly when T is n. Otherwise the result is the mismatch error. |
| Unwrap.UnwrapT | scope.go:42-51 | unwrapT[T] succeeds exactly on a non-nil value whose dynamic type is *T, and returns it unchanged. A failure is the unwrap error for T, marked as nil exactly when the value is nil. |
| Unwrap.UnwrapI | scope.go:53-62 | unwrapI[I] succeeds exactly when the value asserts to I, and returns it unchanged. A failure is the unwrap error for I, marked as nil exactly when the value is nil. |
| Unwrap.UnwrapPtr | scope.go:29-40 | unwrapPtr[T] fails exactly on the nil value, with the nil unwrap error for T. Its result on a pointer is stated by Unwrap.UnwrapPtrPeels. |
| Unwrap.UnwrapIInstance | scope.go:53-62 | An instance of struct n passes unwrapI[I] exactly when *n implements I. |
| Unwrap.Outermost | scope.go:29-40 | The outermost pointer level that asserts to T: no level above it asserts, and None means that no level asserts. |
| Unwrap.UnwrapPtrPeels | scope.go:29-40 | unwrapPtr on a non-nil pointer never fails. It returns the outermost level whose type is T, or the zero value of T when there is none. |
| Unwrap.UnwrapPtrStructGivesZero | scope.go:33-39 | Asked for a struct type T, unwrapPtr turns the *T a call site returns into T's zero value, with no error. |
| Hosted.StartAllCorrect | container.go:297-302 | StartAsync starts the services in order up to and including the first that fails. It returns that one's error wrapped with its index. Later services are never started. |
| Hosted.StopAllCorrect | container.go:316-322 | StopAsync stops every service, last registered first, whatever they answer. It returns the first error met in that order. |
| Hosted.StartFrom | container.go:297-302 | The start loop from service i. It is specified by Hosted.StartAllCorrect. |
| Hosted.StartFromCorrect | container.go:297-302 | With services before i already started without error, the loop from i gives the outcome StartAllCorrect states. |
| Hosted.StopFrom | container.go:316-322 | The stop loop with i services left, walking backwards. It is specified by Hosted.StopAllCorrect. |
| Hosted.StopFromCorrect | container.go:316-322 | With the last services already stopped and the first of their errors kept, the loop gives the outcome StopAllCorrect states. |
| DIContainer.WireCorrect | callsite.go:113-125 | Linking succeeds exactly when every dependency key is registered and none is captive. It then yields the sites in the order of the names. With every key registered it never panics, and its only error is ErrCaptiveDependency. |
| DIContainer.Wire | callsite.go:113-124 | The linking loop from name i with the sites found so far. It is specified by DIContainer.WireCorrect and DIContainer.WireStopsAtFirstCaptive. |
| DIContainer.WireStopsAtFirstCaptive | callsite.go:114-119 | A linking that returns an error stopped at the first captive dependency: all names before it are registered and not captive. The error is ErrCaptiveDependency naming that dependency and the owner. |
| DIContainer.LinkFailureKinds | container.go:194-203 | The panic of a failed link is an error value. For a key that is not resolvable it wraps ErrDependencyNotFound or ErrCircleDependency. For a resolvable key it wraps ErrCaptiveDependency, and the key's site has a captive dependency. |
| DIContainer.LinkMissingOnlyDependency | container.go:195-198 | A site whose only dependency is not registered makes the key loop panic with ErrDependencyNotFound for that dependency, wrapped with the key. |
| DIContainer.EngineRanked | container.go:194-204 | Linked sites form a ranked plan: every linked dependency is a site of strictly smaller rank. |
| DIContainer.CallSite.constructor | container.go:125-132 | A new site has the given name, lifetime and dependency names. It is unlinked and its once has not run. |
| DIContainer.CallSite.Build | callsite.go:37-50 | The new slots, allocator, call log and scope cache, and the result, are those of Resolution.Build. |
| DIContainer.CallSite.BuildSingleton | callsite.go:78-83 | Agrees with Resolution.BuildSingleton. |
| DIContainer.CallSite.BuildTransient | callsite.go:86-88 | Agrees with Resolution.BuildTransient. |
| DIContainer.CallSite.BuildScoped | callsite.go:91-107 | Agrees with Resolution.BuildScoped. |
| DIContainer.CallSite.ConstructScoped | callsite.go:100-106 | The cache miss of buildScoped agrees with Resolution.BuildScoped. |
| DIContainer.CallSite.Constructor | callsite.go:54-75 | Agrees with Resolution.Construct. |
| DIContainer.CallSite.ResolveArguments | callsite.go:58-64 | The argument loop agrees with Resolution.Deps from the first dependency. |
| DIContainer.CallSite.ResolveArgument | callsite.go:59-63 | One turn of the loop: a success continues Resolution.Deps with one more argument, and a failure is where it ends. |
| DIContainer.CallSite.BuildCallSite | callsite.go:109-127 | The outcome depends only on the registry and the site's own declaration. A missing key is a runtime panic. A captive dependency is returned as an error. Otherwise the dependencies become the registered sites in dependency order. A failure links nothing. Repeated calls therefore give the same list. |
| DIContainer.RequireServicePtrForScope | scope.go:90-107 | The result, the singleton slots and the scope are PtrOutcome of the state before. A nil scope is dereferenced. |
| DIContainer.RequireServiceForScope | scope.go:109-129 | The result, the singleton slots and the scope are ServiceOutcome of the state before. A nil scope is dereferenced. |
| DIContainer.NotBuiltIsFatal | scope.go:91-93 | Both entry points panic with ErrContainerNotBuilt before Build, whatever the type. |
| DIContainer.BuiltNeverFatal | scope.go:94-97 | After a Build that returned normally, so that every site is linked, RequireServiceForScope never panics. RequireServicePtrForScope panics, with ErrExtractDependencyName, exactly for an interface type or a type named "<nil>". |
| DIContainer.NotFoundChangesNothing | scope.go:98-101 | An unregistered key returns ErrDependencyNotFound from both entry points, and nothing changes. |
| DIContainer.InterfaceResolvesAlias | scope.go:113-128 | For an interface I, RequireServiceForScope resolves the site under "*"+I, the key addI stores. A build error reaches the caller unchanged. |
| DIContainer.Container.constructor | container.go:25-31 | The zero Container has an empty registry, no global scope and no hosted services, and is not built. |
| DIContainer.Container.Add | container.go:73-141 | After Build, add panics with ErrContainerAlreadyBuilt and changes nothing. Otherwise it allocates the global scope first, whatever happens next. A refused type then leaves the registry alone. An accepted type stores one new site under N and "*"+N, and appends a HostedService site to the hosted sites. |
| DIContainer.Container.Register | container.go:90-140 | The part of add after the allocation: the same outcome, and the container stays valid. |
| DIContainer.Container.Checks | container.go:90-124 | The imperative checks and dependency loop agree with Registration.AddVerdict. |
| DIContainer.Container.AddI | container.go:36-72 | After Build, addI panics with ErrContainerAlreadyBuilt. A refusal changes nothing. An alias adds only "*"+I, to the existing site, ignoring the lifetime. A fresh registration allocates the global scope first when there is none, as add does, and then stores the new site under N, "*"+N and "*"+I. |
| DIContainer.Container.Build | container.go:188-215 | Build is set on every exit; with no registry nothing else happens. A normal exit has every key resolvable, linked and free of captive edges. Each hosted site's slot then holds its instance, and the instances implementing IHostedService are appended in registration order. A panic is the one the key loop raises at some key, as LinkFailedAt describes, or a failed hosted build's error wrapped with the site's name. |
| DIContainer.Container.LinkAndStart | container.go:194-214 | The key loop, then the hosted loop, with the outcomes and panic values of Build. |
| DIContainer.Container.LinkAll | container.go:194-204 | Every key is cycle-checked and linked, in an arbitrary order. A panic means that some key is unresolvable or has a captive edge, and its value is the one the key loop raises at that key. |
| DIContainer.Container.LinkKey | container.go:195-203 | One key: the cycle check, then linking. A success makes the key resolvable, linked and free of captive edges. A panic links nothing. When the cycle check fails its value is that error wrapped with the key; otherwise it is ErrCaptiveDependency for the first captive dependency, naming it and the site. |
| DIContainer.Container.BuildHosted | container.go:206-214 | The hosted loop: each site's slot holds its instance, and the IHostedService ones are appended in order. A failure panics with the error wrapped with the site's name. |
| DIContainer.Container.BuildHostedSites | container.go:206-214 | The same loop over a given list of hosted sites. |
| DIContainer.Container.BuildHostedSite | container.go:207 | One hosted build fills the site's slot and keeps every slot already filled. |
| DIContainer.Container.StartAsync | container.go:292-303 | Before Build it returns ErrContainerNotBuilt and calls nothing. After Build it agrees with the start loop of Hosted. |
| DIContainer.Container.StopAsync | container.go:311-323 | Before Build it returns ErrContainerNotBuilt and calls nothing. After Build it agrees with the stop loop of Hosted. |
| DIContainer.Container.CreateScope | container.go:147-155 | Before Build it panics with ErrContainerNotBuilt. After Build it returns a fresh non-global scope of this container with no instances. |
| DIContainer.RequireServicePtr | container.go:273-275 | RequireServicePtrForScope from the global scope. With no registration yet the global scope is nil, and the call panics. |
| DIContainer.RequireService | container.go:282-284 | RequireServiceForScope from the global scope. With no registration yet it panics in the same way. |
| Scenario.ResolveSingletonTwice | container_test.go:57-98 | Singleton B depends on Transient A and Singleton Counter. Resolving B constructs B, then A, then Counter, and runs Init on Counter, then A, then B, with A and B sharing one Counter. So A sees the count 1 and B the count 2. A second resolution returns the same instance and runs no Init, so the counter is not incremented again. |

## Left out

- Reflection is not modelled: `reflect.TypeFor`, `MethodByName`, `PointerTo(...).Implements`,
  and `%T` formatting.
  - A type argument is a `GoType` record and interface satisfaction is an `Implements`
    parameter.
  - An `Init` is an oracle over the call log, and the model does not marshal its arguments.
  - When non-struct parameters are skipped, the number of arguments that `Func.Call` receives
    does not match `Init`'s arity. That mismatch is not modelled. The same panic would follow
    construction from a site whose `dependencies` were never linked; see the next line.
- DIContainer.BuiltNeverFatal: states no outcome for a container whose `Build` panicked and was
  recovered. `built` is then set while some sites keep no dependencies. Go's `Func.Call` would
  then panic on too few arguments, which the model does not represent, so the lemma requires
  every site to be linked, as a normal exit of `Build` guarantees.
- DIContainer.Container.Build: the order in which the hosted builds append their construction
  calls to the call log is not stated. Only the slots and the order of `hostedServices` are.
- Types.DropFirst drops the first character of a dependency name, while Go's `dep[1:]` drops
  its first byte. The two differ only for a name whose first character is not ASCII, such as a
  struct parameter whose package name starts with a non-ASCII letter.
- Error and panic messages are not modelled.
  - An error records its sentinel, the names it mentions and how it is wrapped; `errors.Is`
    follows that chain.
  - The two panics of add with a plain string are separate `PanicValue` cases, without their
    text.
  - The contexts passed to `StartAsync` and `StopAsync` are not modelled.
- `sync.Once` in `buildSingleton` is a sequential write-once slot. Concurrent resolution is not
  modelled.
- The exported `Add*` wrappers (container.go:221-266) only call `add` or `addI` with a fixed
  lifetime, so only `add` and `addI` are modelled.
- A `Scope` returns the cached `any` with the cast `.(*T)` (callsite.go:99). That cast always
  succeeds, because the cache only holds values that site built, so the model does not perform
  it.
- `buildScoped` tests `s.instances[c.name] != nil`. The model tests whether the key is present,
  which is the same test because the cache only ever holds non-nil pointers.
- The second emptiness check in RequireServiceForScope (scope.go:116-118) cannot fire, since
  `nameForI` always starts with `*`. The model leaves it out.
- Go iterates a map in an arbitrary order. Build's key loop is modelled as a choice of any
  remaining key, so its properties hold whatever the order. Which key is reported first is not
  modelled.
- The test scenario for Transient A (TestTransient, container_test.go:100-111) is covered by the
  general lemmas `TransientFresh` and `TransientTwiceDistinct`. It has no scenario of its own.
- constructor.go and initializable.go are not part of this model. They hold a fixed-arity
  construction path that nothing calls.
- The `container/` directory, root item.go and utility/utility.go are not part of this model.
  They are an earlier iteration that no longer compiles against the live package.
- hostedService.go is not part of this model. Start and Stop are oracle calls, and the
  `BackGroundService` busy loop is concurrency.
- The tests of `AddValue`, `nameForT` and `nameForPtr` are not modelled, because those functions
  do not exist in the live package.
- The benchmarks are not modelled.

Where the documented behaviour and the code differ, the model follows the code:

- `ErrCaptiveDependency` reads as if a singleton may depend on neither a Scoped nor a Transient
  site. `BuildCallSite` refuses only a direct dependency on a Scoped site (callsite.go:117).
  Indirect dependencies are not checked.
- `RequireService` documents pointer and interface types. For a struct type T, `unwrapPtr`
  receives a `*T`, and the assertion to T fails. It then returns T's zero value with a nil error
  (`UnwrapPtrStructGivesZero`).
- `RequireService` and `RequireServicePtr` read `c.global`, which is nil until the first
  registration. On a container with no registrations, built or not, they dereference nil and
  panic instead of reporting ErrContainerNotBuilt.
- `Build` does not test `built`. A second `Build` runs the hosted loop again, and the cached
  instances are appended to `hostedServices` a second time. The model's `Build` allows this.
- BuildCallSite's lookup of a missing key calls `Lifetime()` on a nil interface before the
  not-found check (callsite.go:115-121). The model treats that as a runtime panic. Build always
  runs the cycle check first, which rejects missing keys, so that path is unreachable from
  Build.
