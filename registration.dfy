// The checks add and addI make before they touch the registry (container.go:36-141), as
// functions of the type arguments and of the keys already registered.

module Registration {
  import opened Errors
  import opened Types
  import Graph

  /** Kinds of Init parameters that name a dependency (container.go:113). */
  predicate IsDependencyKind(k: Kind)
  {
    k == Struct || k == Pointer || k == Interface
  }

  /**
   * The loop of add over the parameters of Init (container.go:106-119), continued from
   * parameter i with the dependency names collected so far.
   */
  function CollectFrom(params: seq<Param>, owner: string, i: nat, acc: seq<TypeName>): Exit<seq<TypeName>>
    decreases |params| - i
  {
    if i >= |params| then Normal(acc)
    else if i == 0 then CollectFrom(params, owner, 1, acc)
    else if !IsDependencyKind(params[i].kind) then CollectFrom(params, owner, i + 1, acc)
    else if params[i].typeName in acc then Panic(DuplicateParameter(params[i].typeName, owner))
    else CollectFrom(params, owner, i + 1, acc + [params[i].typeName])
  }

  /** The dependency names of a call site, from its Init parameters. */
  function DependencyNames(params: seq<Param>, owner: string): Exit<seq<TypeName>>
  {
    CollectFrom(params, owner, 0, [])
  }

  /** The parameters after the receiver. */
  function Arguments(params: seq<Param>): seq<Param>
  {
    if |params| == 0 then [] else params[1..]
  }

  /** The names of the parameters whose kind names a dependency, in order. */
  function Declared(ps: seq<Param>): seq<TypeName>
  {
    if ps == [] then []
    else (if IsDependencyKind(ps[0].kind) then [ps[0].typeName] else []) + Declared(ps[1..])
  }

  /**
   * The collected names are the declared dependency names when these are distinct; otherwise
   * add panics naming the first declared name that repeats an earlier one.
   */
  lemma DependencyNamesCorrect(params: seq<Param>, owner: string)
    ensures var d := Declared(Arguments(params));
      var r := DependencyNames(params, owner);
      (r.Normal? <==> Graph.Distinct(d)) &&
      (r.Normal? ==> r.value == d) &&
      (r.Panic? ==> exists j :: 0 <= j < |d| && d[j] in d[..j] && Graph.Distinct(d[..j]) &&
                               r.reason == DuplicateParameter(d[j], owner))
  {
    if |params| > 0 {
      CollectFromCorrect(params, owner, 1, []);
      assert [] + Declared(params[1..]) == Declared(params[1..]);
    }
  }

  lemma {:induction false} CollectFromCorrect(params: seq<Param>, owner: string, i: nat, acc: seq<TypeName>)
    requires 1 <= i <= |params| && Graph.Distinct(acc)
    ensures var d := acc + Declared(params[i..]);
      var r := CollectFrom(params, owner, i, acc);
      (r.Normal? <==> Graph.Distinct(d)) &&
      (r.Normal? ==> r.value == d) &&
      (r.Panic? ==> exists j :: |acc| <= j < |d| && d[j] in d[..j] && Graph.Distinct(d[..j]) &&
                               r.reason == DuplicateParameter(d[j], owner))
    decreases |params| - i
  {
    if i == |params| {
      assert params[i..] == [];
      assert acc + [] == acc;
    } else {
      var p := params[i];
      assert params[i..] == [p] + params[i + 1..];
      var rest := Declared(params[i + 1..]);
      if !IsDependencyKind(p.kind) {
        assert Declared(params[i..]) == rest;
        CollectFromCorrect(params, owner, i + 1, acc);
      } else if p.typeName in acc {
        var d := acc + Declared(params[i..]);
        assert Declared(params[i..]) == [p.typeName] + rest;
        assert d[|acc|] == p.typeName;
        assert d[..|acc|] == acc;
        var k :| 0 <= k < |acc| && acc[k] == p.typeName;
        assert d[k] == d[|acc|];
      } else {
        var acc' := acc + [p.typeName];
        assert Graph.Distinct(acc') by {
          forall a, b | 0 <= a < b < |acc'|
            ensures acc'[a] != acc'[b]
          {
            if b == |acc| {
              assert acc'[a] == acc[a];
            }
          }
        }
        assert Declared(params[i..]) == [p.typeName] + rest;
        assert acc + Declared(params[i..]) == acc' + rest;
        CollectFromCorrect(params, owner, i + 1, acc');
      }
    }
  }

  /**
   * The checks of add after the lazy allocation (container.go:90-124), first failure first:
   * the dependency names of the new site, or what add panics with.
   */
  function AddVerdict(t: GoType, keys: set<string>): Exit<seq<TypeName>>
  {
    var name := NameFor(t);
    if t.kind != Struct then Fatal(ShouldBeStructType, [name])
    else if t.init.None? then Fatal(ShouldImplementInitMethod, [name])
    else if t.init.value.numOut != 1 then Fatal(ShouldImplementInitMethod, [name])
    else if !t.init.value.firstOutIsError then Fatal(ShouldImplementInitMethod, [name])
    else
      match DependencyNames(t.init.value.params, name)
      case Panic(p) => Panic(p)
      case Normal(ds) => if name in keys then Panic(DuplicateKey(name)) else Normal(ds)
  }

  /** add accepts exactly a struct with an Init method returning one error, distinct dependencies and a new name. */
  lemma AddVerdictAccepts(t: GoType, keys: set<string>)
    ensures AddVerdict(t, keys).Normal? <==>
      t.kind == Struct && t.init.Some? && t.init.value.numOut == 1 && t.init.value.firstOutIsError &&
      Graph.Distinct(Declared(Arguments(t.init.value.params))) && t.name !in keys
    ensures AddVerdict(t, keys).Normal? ==>
      AddVerdict(t, keys).value == Declared(Arguments(t.init.value.params))
  {
    if t.kind == Struct && t.init.Some? {
      DependencyNamesCorrect(t.init.value.params, NameFor(t));
    }
  }

  datatype AddIRoute =
    | Alias                       // T already registered, interface key new: alias it (container.go:59-62)
    | Register                    // neither registered: add T, then alias (container.go:70-71)
    | Refuse(reason: PanicValue)  // addI panics

  /** The decision addI makes before it changes anything (container.go:40-69). */
  function RouteAddI(i: GoType, t: GoType, impl: Implements, keys: set<string>): AddIRoute
  {
    var nameT := NameFor(t);
    var nameI := NameForI(i);
    if i.kind != Interface then Refuse(PanicError(Sentinel(ShouldBeInterfaceType, [nameI])))
    else if t.kind != Struct then Refuse(PanicError(Sentinel(ShouldBeStructType, [nameT])))
    else if !impl(NameForI(t), i.name) then Refuse(PanicError(Sentinel(ShouldImplementInterface, [nameT, nameI])))
    else if nameT in keys && nameI !in keys then Alias
    else if nameT in keys && nameI in keys then Refuse(PanicError(Sentinel(TypeAlreadyRegistered, [nameT, nameI])))
    else if nameT !in keys && nameI in keys then Refuse(PanicError(Sentinel(TypeAlreadyRegistered, [nameI])))
    else Register
  }

  /**
   * For a well-typed pair, addI refuses exactly when the interface key is taken; otherwise it
   * aliases an existing T or registers T afresh, whatever the lifetime asked for.
   */
  lemma RouteAddICases(i: GoType, t: GoType, impl: Implements, keys: set<string>)
    ensures var r := RouteAddI(i, t, impl, keys);
      (r.Refuse? <==> i.kind != Interface || t.kind != Struct || !impl(NameForI(t), i.name) ||
                      NameForI(i) in keys) &&
      (r.Refuse? && r.reason.PanicError? && Is(r.reason.err, TypeAlreadyRegistered) <==>
         i.kind == Interface && t.kind == Struct && impl(NameForI(t), i.name) && NameForI(i) in keys) &&
      (r == Alias <==> !r.Refuse? && t.name in keys) &&
      (r == Register <==> !r.Refuse? && t.name !in keys)
  {
  }
}
