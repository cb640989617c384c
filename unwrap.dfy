// The unwrap helpers of scope.go:29-62: type assertions on the value a call site returned.

module Unwrap {
  import opened Errors
  import opened Types
  import opened Environment

  /** A value held in an `any`. */
  datatype Dyn =
    | Nil                                        // the nil interface value
    | Zero(typeName: string)                     // the zero value of a non-pointer, non-interface type
    | Ref(depth: nat, elem: string, obj: Handle) // depth + 1 pointer levels above instance obj of struct elem

  function Stars(n: nat): (r: string)
    ensures |r| == n && forall i :: 0 <= i < n ==> r[i] == '*'
  {
    if n == 0 then "" else "*" + Stars(n - 1)
  }

  /** The dynamic type of a non-nil value, as %T prints it. */
  function DynType(v: Dyn): string
    requires v != Nil
  {
    match v
    case Zero(t) => t
    case Ref(d, e, _) => Stars(d + 1) + e
  }

  /** Whether v.(T) succeeds. */
  predicate Asserts(v: Dyn, t: GoType, impl: Implements)
  {
    v != Nil && (if t.kind == Interface then impl(DynType(v), t.name) else DynType(v) == t.name)
  }

  /** *new(T). */
  function ZeroOf(t: GoType): Dyn
  {
    if t.kind == Pointer || t.kind == Interface then Nil else Zero(t.name)
  }

  /** unwrapT[T] (scope.go:42-51): v.(*T). */
  function UnwrapT(t: GoType, v: Dyn): (r: Result<Dyn>)
    ensures r.Ok? <==> v != Nil && DynType(v) == NameForI(t)
    ensures r.Ok? ==> r.value == v
    ensures r.Err? ==> r.error == UnwrapFailed(NameFor(t), v == Nil)
  {
    if v == Nil then Err(UnwrapFailed(NameFor(t), true))
    else if DynType(v) == NameForI(t) then Ok(v)
    else Err(UnwrapFailed(NameFor(t), false))
  }

  /** unwrapI[I] (scope.go:53-62): v.(I). */
  function UnwrapI(i: GoType, v: Dyn, impl: Implements): (r: Result<Dyn>)
    ensures r.Ok? <==> Asserts(v, i, impl)
    ensures r.Ok? ==> r.value == v
    ensures r.Err? ==> r.error == UnwrapFailed(NameFor(i), v == Nil)
  {
    if v == Nil then Err(UnwrapFailed(NameFor(i), true))
    else if Asserts(v, i, impl) then Ok(v)
    else Err(UnwrapFailed(NameFor(i), false))
  }

  /**
   * unwrapPtr[T] (scope.go:29-40): v.(T), retried one pointer level down while v points to a
   * pointer; a failed assertion on anything else gives the zero value of T and no error.
   */
  function UnwrapPtr(t: GoType, v: Dyn, impl: Implements): (r: Result<Dyn>)
    decreases if v.Ref? then v.depth else 0
    ensures r.Err? <==> v == Nil
    ensures r.Err? ==> r.error == UnwrapFailed(NameFor(t), true)
  {
    if v == Nil then Err(UnwrapFailed(NameFor(t), true))
    else if Asserts(v, t, impl) then Ok(v)
    else if v.Ref? && v.depth >= 1 then UnwrapPtr(t, Ref(v.depth - 1, v.elem, v.obj), impl)
    else Ok(ZeroOf(t))
  }

  /** unwrapT accepts an instance of struct n exactly when T is n. */
  lemma UnwrapTInstance(t: GoType, n: string, h: Handle)
    ensures UnwrapT(t, Ref(0, n, h)) == (if n == t.name then Ok(Ref(0, n, h)) else Err(UnwrapFailed(NameFor(t), false)))
  {
    assert DynType(Ref(0, n, h)) == "*" + n;
    if "*" + n == "*" + t.name {
      assert ("*" + n)[1..] == n && ("*" + t.name)[1..] == t.name;
    }
  }

  /** unwrapI accepts an instance of struct n exactly when *n implements I. */
  lemma UnwrapIInstance(i: GoType, n: string, h: Handle, impl: Implements)
    requires i.kind == Interface
    ensures UnwrapI(i, Ref(0, n, h), impl).Ok? <==> impl("*" + n, i.name)
  {
    assert DynType(Ref(0, n, h)) == "*" + n;
  }

  /** The outermost pointer level, at most d, at which a pointer to instance h of e asserts to T. */
  function Outermost(t: GoType, d: nat, e: string, h: Handle, impl: Implements): (r: Option<nat>)
    ensures r.Some? ==> r.value <= d && Asserts(Ref(r.value, e, h), t, impl) &&
                        forall j :: r.value < j <= d ==> !Asserts(Ref(j, e, h), t, impl)
    ensures r.None? ==> forall j :: 0 <= j <= d ==> !Asserts(Ref(j, e, h), t, impl)
  {
    if Asserts(Ref(d, e, h), t, impl) then Some(d)
    else if d == 0 then None
    else Outermost(t, d - 1, e, h, impl)
  }

  /**
   * unwrapPtr never fails on a non-nil pointer: it returns the value at the outermost pointer
   * level whose type matches T, or the zero value of T when no level matches.
   */
  lemma {:induction false} UnwrapPtrPeels(t: GoType, d: nat, e: string, h: Handle, impl: Implements)
    ensures UnwrapPtr(t, Ref(d, e, h), impl) ==
      match Outermost(t, d, e, h, impl)
      case Some(j) => Ok(Ref(j, e, h))
      case None => Ok(ZeroOf(t))
    decreases d
  {
    if !Asserts(Ref(d, e, h), t, impl) && d > 0 {
      UnwrapPtrPeels(t, d - 1, e, h, impl);
    }
  }

  /**
   * Asked for a struct type, unwrapPtr turns the instance of that struct into the zero value
   * and no error: the pointer the call site returns never has type T itself.
   */
  lemma UnwrapPtrStructGivesZero(t: GoType, h: Handle, impl: Implements)
    requires t.kind == Struct
    ensures UnwrapPtr(t, Ref(0, t.name, h), impl) == Ok(Zero(t.name))
  {
    assert DynType(Ref(0, t.name, h)) == "*" + t.name;
    assert |"*" + t.name| != |t.name|;
  }
}
