/**
  The `nil` value of Goby (`NullObject`): its fixed textual forms, falsy
  truthiness, identity-only equality, and the builtin methods of the `Null`
  class with their argument-count checks.
 */
module Nulls {
  import opened Optional
  import opened Values

  function ToString(): (s: string)
    ensures s == ""
  {
    ""
  }

  /** `nil` rather than the empty `ToString` form. */
  function Inspect(): (s: string)
    ensures s == "nil" && s != ToString()
  {
    "nil"
  }

  /** `nil` becomes `null` when exported to JSON. */
  function ToJSON(): (s: string)
    ensures s == "null" && s != ToString() && s != Inspect()
  {
    "null"
  }

  function IsTruthy(): (r: bool)
    ensures !r
  {
    false
  }

  function Value(): (r: HostValue)
    ensures r.HostNil?
  {
    HostNil
  }

  /** Pointer identity with the one `NULL` object. */
  function EqualTo(rt: Runtime, compared: Obj): (r: bool)
    ensures r <==> compared == rt.NULL()
    ensures r ==> compared.kind.NullValue? && compared.base.id == rt.NULL().base.id
  {
    compared == rt.NULL()
  }

  /** `nil` equals itself and nothing that is not a null value. */
  lemma EqualToIsIdentity(rt: Runtime, compared: Obj)
    ensures EqualTo(rt, rt.NULL())
    ensures !compared.kind.NullValue? ==> !EqualTo(rt, compared)
    ensures EqualTo(rt, compared) ==> compared.base.id == rt.NULL().base.id
  {
  }

  /** `Null.new`: instances cannot be created. */
  function ClassNew(args: seq<Obj>): (r: Reply)
    ensures r == Fail(NoMethodError)
  {
    Fail(NoMethodError)
  }

  /** `!`: always `true`, whatever the arguments. */
  function Not(rt: Runtime, args: seq<Obj>): (r: Reply)
    ensures r == Ok(rt.TRUE())
  {
    Ok(rt.TRUE())
  }

  /** `to_i`: the integer 0. */
  function ToI(rt: Runtime, args: seq<Obj>, newId: int): (r: Reply)
    ensures r.Fail? <==> |args| != 0
    ensures r.Fail? ==> r.error == ArgumentError
    ensures r.Ok? ==> r.value.kind == Integer(0) && r.value.base.cls == rt.integerClass
  {
    if |args| != 0 then Fail(ArgumentError) else Ok(rt.NewInteger(newId, 0))
  }

  /** `to_s`: a new string holding the `ToString` form. */
  function ToS(rt: Runtime, args: seq<Obj>, newId: int): (r: Reply)
    ensures r.Fail? <==> |args| != 0
    ensures r.Fail? ==> r.error == ArgumentError
    ensures r.Ok? ==> r.value.kind == Str("") && r.value.base.cls == rt.stringClass
  {
    if |args| != 0 then Fail(ArgumentError) else Ok(rt.NewString(newId, ToString()))
  }

  /** `inspect`: a new string holding the `Inspect` form. */
  function InspectMethod(rt: Runtime, args: seq<Obj>, newId: int): (r: Reply)
    ensures r.Fail? <==> |args| != 0
    ensures r.Fail? ==> r.error == ArgumentError
    ensures r.Ok? ==> r.value.kind == Str("nil") && r.value.base.cls == rt.stringClass
  {
    if |args| != 0 then Fail(ArgumentError) else Ok(rt.NewString(newId, Inspect()))
  }

  /** `!=`: `true` exactly when the one argument is not a null value. */
  function NotEqual(rt: Runtime, args: seq<Obj>): (r: Reply)
    ensures r.Fail? <==> |args| != 1
    ensures r.Fail? ==> r.error == ArgumentError
    ensures r.Ok? ==> (r.value == rt.TRUE() <==> !args[0].kind.NullValue?)
    ensures r.Ok? ==> (r.value == rt.FALSE() <==> args[0].kind.NullValue?)
    ensures r.Ok? ==> r.value.kind.Boolean?
  {
    if |args| != 1 then Fail(ArgumentError)
    else if !args[0].kind.NullValue? then Ok(rt.TRUE())
    else Ok(rt.FALSE())
  }

  /**
    `!=` tests the argument's type while `equalTo` tests identity; as long as
    `NULL` is the only null value they agree: `nil != x` is the negation of
    `nil.equalTo(x)`.
   */
  lemma NotEqualNegatesEqualTo(rt: Runtime, x: Obj)
    requires x.kind.NullValue? ==> x == rt.NULL()
    ensures NotEqual(rt, [x]) == Ok(rt.Bool(!EqualTo(rt, x)))
  {
  }

  /** `nil?`: `true`, with no arguments. */
  function IsNil(rt: Runtime, args: seq<Obj>): (r: Reply)
    ensures r.Fail? <==> |args| != 0
    ensures r.Fail? ==> r.error == ArgumentError
    ensures r.Ok? ==> r.value == rt.TRUE()
  {
    if |args| != 0 then Fail(ArgumentError) else Ok(rt.TRUE())
  }

  /** The names `Null` registers as builtin instance methods. */
  const InstanceMethodNames: set<string> := {"!", "to_i", "to_s", "inspect", "!=", "nil?"}

  /** The instance-method table of `Null`: the builtin registered under `name`, if any. */
  function CallInstanceMethod(rt: Runtime, name: string, args: seq<Obj>, newId: int): (r: Option<Reply>)
    ensures r.Some? <==> name in InstanceMethodNames
  {
    match name
    case "!" => Some(Not(rt, args))
    case "to_i" => Some(ToI(rt, args, newId))
    case "to_s" => Some(ToS(rt, args, newId))
    case "inspect" => Some(InspectMethod(rt, args, newId))
    case "!=" => Some(NotEqual(rt, args))
    case "nil?" => Some(IsNil(rt, args))
    case _ => None
  }

  /**
    Arity across the table: `!` accepts anything, `!=` needs exactly one
    argument, and every other builtin of `Null` rejects any argument.
   */
  lemma InstanceMethodArity(rt: Runtime, name: string, args: seq<Obj>, newId: int)
    requires CallInstanceMethod(rt, name, args, newId).Some?
    ensures var r := CallInstanceMethod(rt, name, args, newId).value;
            && (name == "!" ==> r.Ok?)
            && (name == "!=" ==> (r.Fail? <==> |args| != 1))
            && (name != "!" && name != "!=" ==> (r.Fail? <==> |args| != 0))
            && (r.Fail? ==> r.error == ArgumentError)
  {
  }
}
