/**
  The base object protocol shared by every Goby value (`BaseObj` and
  `RObject` in the VM): class and singleton-class access, instance-variable
  storage, the two-step method lookup with its `method_missing` fallback,
  default truthiness and equality, and the textual forms of user objects.
 */
module Objects {
  import opened Optional
  import opened Decimal
  import opened Values

  const MethodMissing: string := "method_missing"

  /** `Class()`: the class the object was created with. */
  function ClassOf(o: Obj): (r: Class)
    ensures r == o.base.cls
  {
    o.base.cls
  }

  /** `SingletonClass()`: the singleton class, if one was set. */
  function SingletonClassOf(o: Obj): (r: Option<Class>)
    ensures r == o.base.singleton
  {
    o.base.singleton
  }

  /** `id()`: the identity fixed at creation. */
  function ID(o: Obj): (r: int)
    ensures r == o.base.id
  {
    o.base.id
  }

  /** Replaces (or, with `None`, clears) the singleton class; last write wins. */
  function SetSingletonClass(o: Obj, c: Option<Class>): (r: Obj)
    ensures SingletonClassOf(r) == c
    ensures ClassOf(r) == ClassOf(o) && ID(r) == ID(o)
    ensures r.base.ivars == o.base.ivars && r.kind == o.kind
  {
    o.(base := o.base.(singleton := c))
  }

  /** Setting the singleton class twice is the same as setting it once to the second value. */
  lemma SetSingletonClassLastWins(o: Obj, c1: Option<Class>, c2: Option<Class>)
    ensures SetSingletonClass(SetSingletonClass(o, c1), c2) == SetSingletonClass(o, c2)
  {
  }

  /** `(value, found)`: an absent name yields the `NULL` object and `false`. */
  function InstanceVariableGet(rt: Runtime, o: Obj, name: string): (r: (Obj, bool))
    ensures r.1 <==> name in o.base.ivars
    ensures r.1 ==> r.0 == o.base.ivars[name]
    ensures !r.1 ==> r.0 == rt.NULL()
  {
    if name in o.base.ivars then (o.base.ivars[name], true) else (rt.NULL(), false)
  }

  /** `(updated object, returned value)`: stores `value` under `name` and hands `value` back. */
  function InstanceVariableSet(o: Obj, name: string, value: Obj): (r: (Obj, Obj))
    ensures r.1 == value
    ensures forall rt: Runtime :: InstanceVariableGet(rt, r.0, name) == (value, true)
    ensures forall rt: Runtime, n :: n != name ==> InstanceVariableGet(rt, r.0, n) == InstanceVariableGet(rt, o, n)
    ensures ID(r.0) == ID(o) && ClassOf(r.0) == ClassOf(o) && SingletonClassOf(r.0) == SingletonClassOf(o)
    ensures r.0.kind == o.kind
  {
    (o.(base := o.base.(ivars := o.base.ivars[name := value])), value)
  }

  /** Storing the value a variable already holds changes nothing. */
  lemma InstanceVariableSetIdempotent(rt: Runtime, o: Obj, name: string, value: Obj)
    requires InstanceVariableGet(rt, o, name) == (value, true)
    ensures InstanceVariableSet(o, name, value).0 == o
  {
    assert o.base.ivars[name := value] == o.base.ivars;
  }

  /**
    `RClass.lookupMethod`: the class's own table first, then what the
    ancestor walk finds. The walk itself belongs to the class hierarchy.
   */
  function LookupMethod(c: Class, name: string): (r: Option<Method>)
    ensures name in c.methods ==> r == Some(c.methods[name])
    ensures r.None? <==> name !in c.methods && name !in c.ancestry
  {
    if name in c.methods then Some(c.methods[name])
    else if name in c.ancestry then Some(c.ancestry[name])
    else None
  }

  /** `findMethod`: the singleton class wins whenever its lookup succeeds; otherwise the owner class decides. */
  function FindMethod(o: Obj, name: string): (r: Option<Method>)
    ensures (o.base.singleton.Some? && LookupMethod(o.base.singleton.value, name).Some?)
              ==> r == LookupMethod(o.base.singleton.value, name)
    ensures (o.base.singleton.None? || LookupMethod(o.base.singleton.value, name).None?)
              ==> r == LookupMethod(o.base.cls, name)
  {
    var fromSingleton := if o.base.singleton.Some? then LookupMethod(o.base.singleton.value, name) else None;
    if fromSingleton.Some? then fromSingleton else LookupMethod(o.base.cls, name)
  }

  /** The classes consulted by method lookup, in the order they are consulted. */
  function LookupChain(o: Obj): (chain: seq<Class>)
    ensures |chain| == if o.base.singleton.Some? then 2 else 1
    ensures chain[|chain| - 1] == o.base.cls
  {
    (if o.base.singleton.Some? then [o.base.singleton.value] else []) + [o.base.cls]
  }

  /** Reference definition of lookup precedence: the first class of the chain whose lookup succeeds. */
  function FirstHit(chain: seq<Class>, name: string): Option<Method>
  {
    if |chain| == 0 then None
    else if LookupMethod(chain[0], name).Some? then LookupMethod(chain[0], name)
    else FirstHit(chain[1..], name)
  }

  /** `findMethod` is the first hit along the lookup chain. */
  lemma FindMethodIsFirstHit(o: Obj, name: string)
    ensures FindMethod(o, name) == FirstHit(LookupChain(o), name)
  {
    var chain := LookupChain(o);
    var last := [o.base.cls];
    assert last[1..] == [];
    assert FirstHit(last, name) == LookupMethod(o.base.cls, name);
    if o.base.singleton.Some? {
      assert chain[0] == o.base.singleton.value;
      assert chain[1..] == last;
    } else {
      assert chain == last;
    }
  }

  /** A singleton class that defines `name` overrides the owner class. */
  lemma SingletonOverrideWins(o: Obj, c: Class, name: string)
    requires LookupMethod(c, name).Some?
    ensures FindMethod(SetSingletonClass(o, Some(c)), name) == LookupMethod(c, name)
  {
  }

  /** Clearing the singleton class lets dispatch fall through to the owner class. */
  lemma RemovingSingletonFallsBack(o: Obj, name: string)
    ensures FindMethod(SetSingletonClass(o, None), name) == LookupMethod(o.base.cls, name)
  {
  }

  /**
    `findMethodMissing`: the singleton class's own `method_missing`, then the
    owner class's own one, then (only when asked) the full lookup of
    `method_missing`.
   */
  function FindMethodMissing(o: Obj, searchAncestor: bool): (r: Option<Method>)
    ensures (o.base.singleton.Some? && MethodMissing in o.base.singleton.value.methods)
              ==> r == Some(o.base.singleton.value.methods[MethodMissing])
    ensures ((o.base.singleton.None? || MethodMissing !in o.base.singleton.value.methods)
             && MethodMissing in o.base.cls.methods)
              ==> r == Some(o.base.cls.methods[MethodMissing])
    ensures ((o.base.singleton.None? || MethodMissing !in o.base.singleton.value.methods)
             && MethodMissing !in o.base.cls.methods)
              ==> r == (if searchAncestor then FindMethod(o, MethodMissing) else None)
  {
    var fromSingleton :=
      if o.base.singleton.Some? && MethodMissing in o.base.singleton.value.methods
      then Some(o.base.singleton.value.methods[MethodMissing]) else None;
    if fromSingleton.Some? then fromSingleton
    else if MethodMissing in o.base.cls.methods then Some(o.base.cls.methods[MethodMissing])
    else if searchAncestor then FindMethod(o, MethodMissing)
    else None
  }

  /** Without the ancestor search, only the two own tables can supply the hook. */
  lemma MethodMissingOwnTablesOnly(o: Obj)
    ensures FindMethodMissing(o, false).Some? <==>
              (o.base.singleton.Some? && MethodMissing in o.base.singleton.value.methods)
              || MethodMissing in o.base.cls.methods
  {
  }

  /** Searching ancestors only adds hooks: a hook found without it is still the one found with it. */
  lemma MethodMissingSearchMonotone(o: Obj)
    ensures FindMethodMissing(o, false).Some? ==> FindMethodMissing(o, true) == FindMethodMissing(o, false)
  {
  }

  /** With the ancestor search, a hook exists exactly when ordinary lookup of `method_missing` finds one. */
  lemma MethodMissingAgreesWithLookup(o: Obj)
    ensures FindMethodMissing(o, true).Some? <==> FindMethod(o, MethodMissing).Some?
  {
  }

  /** Default truthiness: every object is truthy unless its type overrides it. */
  function BaseIsTruthy(o: Obj): (r: bool)
    ensures r
  {
    true
  }

  /**
    Default `equalTo`: the class names must agree and the deep comparison
    (`reflect.DeepEqual` in the VM, abstract here) must succeed.
   */
  function BaseEqualTo(a: Obj, b: Obj, deepEqual: (Obj, Obj) -> bool): (r: bool)
    ensures a.base.cls.name != b.base.cls.name ==> !r
    ensures r <==> a.base.cls.name == b.base.cls.name && deepEqual(a, b)
  {
    a.base.cls.name == b.base.cls.name && deepEqual(a, b)
  }

  /** `RObject.ToString`: class name and identity between `#<` and ` >`. */
  function UserToString(o: Obj): (r: string)
    ensures var p := "#<" + o.base.cls.name + ":";
            && |p| + 2 < |r| && r[..|p|] == p && r[|r| - 2..] == " >"
            && Parse(r[|p|..|r| - 2]) == Some(o.base.id)
  {
    var p := "#<" + o.base.cls.name + ":";
    var r := p + Show(o.base.id) + " >";
    assert r[|p|..|r| - 2] == Show(o.base.id);
    ParseShow(o.base.id);
    r
  }

  /** Two user objects of one class print alike only if they have the same identity. */
  lemma UserToStringDistinguishesIds(a: Obj, b: Obj)
    requires a.base.cls.name == b.base.cls.name
    requires UserToString(a) == UserToString(b)
    ensures a.base.id == b.base.id
  {
  }

  /** One `name=value ` entry of `Inspect`, rendering the value with its own `ToString`. */
  function IvarEntry(rt: Runtime, o: Obj, name: string, show: Obj -> string): string
  {
    name + "=" + show(InstanceVariableGet(rt, o, name).0) + " "
  }

  /** The instance-variable part of `Inspect`, one entry per name of `order`, in that order. */
  function IvarText(rt: Runtime, o: Obj, order: seq<string>, show: Obj -> string): string
    decreases |order|
  {
    if |order| == 0 then ""
    else IvarText(rt, o, order[..|order| - 1], show) + IvarEntry(rt, o, order[|order| - 1], show)
  }

  /** The rendering of a list of names is the rendering of its parts, one after the other. */
  lemma {:induction false} IvarTextAppend(rt: Runtime, o: Obj, a: seq<string>, b: seq<string>, show: Obj -> string)
    ensures IvarText(rt, o, a + b, show) == IvarText(rt, o, a, show) + IvarText(rt, o, b, show)
    decreases |b|
  {
    if |b| == 0 {
      assert a + b == a;
    } else {
      var b' := b[..|b| - 1];
      assert (a + b)[..|a + b| - 1] == a + b';
      assert (a + b)[|a + b| - 1] == b[|b| - 1];
      IvarTextAppend(rt, o, a, b', show);
    }
  }

  /**
    `RObject.Inspect`: like `ToString`, with every instance variable rendered
    as `name=value ` before the closing `>`. `order` is the order in which the
    environment enumerates its names; `show` is each value's own `ToString`.
   */
  method UserInspect(rt: Runtime, o: Obj, order: seq<string>, show: Obj -> string) returns (s: string)
    ensures s == "#<" + o.base.cls.name + ":" + Show(o.base.id) + " " + IvarText(rt, o, order, show) + ">"
  {
    var iv := "";
    for i := 0 to |order|
      invariant iv == IvarText(rt, o, order[..i], show)
    {
      assert order[..i + 1][..i] == order[..i];
      var (v, _) := InstanceVariableGet(rt, o, order[i]);
      iv := iv + order[i] + "=" + show(v) + " ";
    }
    assert order[..|order|] == order;
    s := "#<" + o.base.cls.name + ":" + Show(o.base.id) + " " + iv + ">";
  }

  /** An object without instance variables inspects exactly as it prints. */
  lemma UserInspectOfBareObject(rt: Runtime, o: Obj, order: seq<string>, show: Obj -> string)
    requires o.base.ivars == map[]
    requires IsEnumeration(order, o.base.ivars.Keys)
    ensures "#<" + o.base.cls.name + ":" + Show(o.base.id) + " " + IvarText(rt, o, order, show) + ">"
              == UserToString(o)
  {
  }

  /** `RObject.Value`: the printed form. */
  function UserValue(o: Obj): (r: HostValue)
    ensures r == HostString(UserToString(o))
    ensures r.HostString? && 4 <= |r.s| && r.s[..2] == "#<" && r.s[|r.s| - 2..] == " >"
  {
    HostString(UserToString(o))
  }
}
