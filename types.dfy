// The part of Go's type system the container looks at through reflection: a type's name
// (as reflect and %T print it), its kind, and the shape of its Init method.

module Types {
  import opened Errors

  /** reflect never prints an empty type name, so `dep[1:]` is always defined. */
  type TypeName = s: string | |s| > 0 witness "T"

  datatype Kind = Struct | Pointer | Interface | Other

  /** A parameter of an Init method: the name arg.String() gives and its kind. */
  datatype Param = Param(typeName: TypeName, kind: Kind)

  /**
   * The Init method found on *T: its parameters, receiver included at index 0, how many
   * results it has, and whether its first result implements error.
   */
  datatype InitSig = InitSig(params: seq<Param>, numOut: nat, firstOutIsError: bool)

  /** A type argument T: its name, its kind and, for a struct, the Init method of *T. */
  datatype GoType = GoType(name: TypeName, kind: Kind, init: Option<InitSig>)

  /** Implements(dynamicType, interfaceName): whether a type implements an interface. */
  type Implements = (string, string) -> bool

  /** The interface every hosted service implements (hostedService.go). */
  const HostedServiceInterface: string := "container.IHostedService"

  /** nameFor[T]: %T of the zero value of T, which is "<nil>" for an interface type. */
  function NameFor(t: GoType): (r: string)
    ensures t.kind == Interface ==> r == "<nil>"
    ensures t.kind != Interface ==> r == t.name
  {
    if t.kind == Interface then "<nil>" else t.name
  }

  /** nameForI[T]: %T of new(T), the pointer type's name. */
  function NameForI(t: GoType): (r: TypeName)
    ensures |r| == |t.name| + 1 && r[0] == '*' && r[1..] == t.name
  {
    "*" + t.name
  }

  /** dep[1:] in Go: a dependency name with its first character dropped. */
  function DropFirst(dep: TypeName): (r: string)
    ensures [dep[0]] + r == dep
  {
    dep[1..]
  }

  /** The registry key RequireServiceForScope looks up for T (scope.go:113-119). */
  function ServiceKey(t: GoType): (r: string)
    ensures t.kind == Interface ==> r == NameForI(t)
    ensures t.kind != Interface && t.name != "<nil>" ==> r == t.name
    ensures r != "" && r != "<nil>"
  {
    var n := NameFor(t);
    if n == "" || n == "<nil>" then NameForI(t) else n
  }

  /** The registration lifetimes (container.go:11-18); any other value is unknown. */
  newtype Lifetime = int
  const Singleton: Lifetime := 0
  const Transient: Lifetime := 1
  const Scoped: Lifetime := 2
  const HostedService: Lifetime := 3
}
