/**
  The heap values of the Goby VM that the object protocol works on.

  Every runtime value embeds the same base state (`BaseObj` in the VM): an
  identity, an owner class, an optional singleton class and an
  instance-variable environment. What distinguishes the concrete value types
  is the `Kind` beside it. Identities are derived from pointer addresses in
  the VM; here they are opaque integers handed in by whoever allocates.
 */
module Values {
  import opened Optional
  import opened RWLock

  /** A method object as dispatch sees it. */
  datatype Method =
    | Compiled(name: string, id: nat)          // `*MethodObject`: compiled from Goby source
    | Builtin(name: string)                    // `*BuiltinMethodObject` written in Go
    | Forwarded(name: string, writeLock: bool) // a concurrent-array forwarding wrapper

  /**
    A class descriptor. `methods` is the class's own table (`RClass.Methods`);
    `ancestry` stands for whatever the ancestor walk of `lookupMethod` finds
    beyond the own table, which the class-hierarchy layer computes.
   */
  datatype Class = Class(name: string, methods: map<string, Method>, ancestry: map<string, Method>)

  /** `BaseObj`: identity, owner class, optional singleton class, instance variables. */
  datatype Base = Base(id: int, cls: Class, singleton: Option<Class>, ivars: map<string, Obj>)

  datatype Kind =
    | NullValue
    | Boolean(b: bool)
    | Integer(n: int)
    | Str(s: string)
    | Array(elements: seq<Obj>)
    | Hash(pairs: map<string, Obj>)
    | ConcurrentHash(store: map<string, Obj>)
    | ConcurrentArray(internal: seq<Obj>, lock: Lock)
    | User                                     // `RObject`: an instance of a class written in Goby

  datatype Obj = Obj(base: Base, kind: Kind)

  /** The error kinds a builtin returns instead of a normal result. */
  datatype ErrorKind = ArgumentError | TypeError | InternalError | NoMethodError

  /** What a builtin method hands back: an object, or an error object of some kind. */
  datatype Reply = Ok(value: Obj) | Fail(error: ErrorKind)

  /** What `Value()` exposes to Go code outside the VM. */
  datatype HostValue =
    | HostNil
    | HostString(s: string)
    | HostElements(elements: seq<Obj>)
    | HostMap(store: map<string, Obj>)

  /**
    The VM-wide singletons and the classes builtins instantiate: the base
    states of `NULL`, `TRUE` and `FALSE`, and the classes given to new
    strings, integers and concurrent collections.
   */
  datatype Runtime = Runtime(
    nullBase: Base,
    trueBase: Base,
    falseBase: Base,
    stringClass: Class,
    integerClass: Class,
    concurrentArrayClass: Class,
    concurrentHashClass: Class)
  {
    function NULL(): Obj { Obj(nullBase, NullValue) }
    function TRUE(): Obj { Obj(trueBase, Boolean(true)) }
    function FALSE(): Obj { Obj(falseBase, Boolean(false)) }

    /** `TRUE` or `FALSE`. */
    function Bool(b: bool): Obj { if b then TRUE() else FALSE() }

    /** `InitStringObject`. */
    function NewString(id: int, s: string): Obj { NewObject(id, stringClass, Str(s)) }

    /** `InitIntegerObject`. */
    function NewInteger(id: int, n: int): Obj { NewObject(id, integerClass, Integer(n)) }
  }

  /**
    `NewBaseObject` with the kind attached: the given identity and owner
    class, no singleton class, no instance variables.
   */
  function NewObject(id: int, cls: Class, kind: Kind): (o: Obj)
    ensures o.base.id == id && o.base.cls == cls && o.kind == kind
    ensures o.base.singleton.None? && o.base.ivars == map[]
  {
    Obj(Base(id, cls, None, map[]), kind)
  }

  /** `order` lists every key of `keys` exactly once, as `Range` or `names()` would visit them. */
  predicate IsEnumeration(order: seq<string>, keys: set<string>)
  {
    && (forall i, j :: 0 <= i < j < |order| ==> order[i] != order[j])
    && (forall i :: 0 <= i < |order| ==> order[i] in keys)
    && (forall k :: k in keys ==> k in order)
  }
}
