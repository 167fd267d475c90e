/**
  `RObject.ToJSON`: use the class's own `to_json` method when it has one,
  otherwise fall back to `ToString`.

  The VM looks the method up with a single-result type assertion,
  `findMethod("to_json").(*MethodObject)`, which panics when the lookup
  finds nothing or finds a builtin, so its `!= nil` fallback can never be
  taken. `ToJsonAsWritten` models that code; `ToJson` is the evidently
  intended behaviour (the two-result, `ok`-checking assertion).

  Running the user-defined method belongs to the bytecode evaluator: `run`
  stands for "push the receiver, evaluate the method, pop the result and
  take its `ToString`".
 */
module UserJson {
  import opened Optional
  import opened Decimal
  import opened Values
  import opened Objects

  const ToJsonName: string := "to_json"

  datatype JsonOutcome = Panic | Json(text: string)

  /** True when lookup finds a `to_json` compiled from Goby source. */
  predicate HasCompiledToJson(o: Obj)
  {
    FindMethod(o, ToJsonName).Some? && FindMethod(o, ToJsonName).value.Compiled?
  }

  /** The code as written: anything but a compiled `to_json` makes the type assertion panic. */
  function ToJsonAsWritten(o: Obj, run: (Obj, Method) -> string): (r: JsonOutcome)
    ensures HasCompiledToJson(o) ==> r == Json(run(o, FindMethod(o, ToJsonName).value))
    ensures !HasCompiledToJson(o) ==> r == Panic
  {
    match FindMethod(o, ToJsonName)
    case Some(Compiled(n, id)) => Json(run(o, Compiled(n, id)))
    case _ => Panic
  }

  /** The `ToString` fallback of the code as written is unreachable: every non-panicking outcome ran a compiled method. */
  lemma AsWrittenNeverFallsBack(o: Obj, run: (Obj, Method) -> string)
    ensures ToJsonAsWritten(o, run).Json? ==> HasCompiledToJson(o)
    ensures FindMethod(o, ToJsonName).None? ==> ToJsonAsWritten(o, run) == Panic
  {
  }

  /** A user object whose class and ancestors define no `to_json`. */
  function PlainPoint(): Obj
  {
    NewObject(1, Class("Point", map[], map[]), User)
  }

  /** On `PlainPoint` the code as written panics, where the fallback would give `#<Point:1 >`. */
  lemma AsWrittenPanicsOnPlainObject(run: (Obj, Method) -> string)
    ensures ToJsonAsWritten(PlainPoint(), run) == Panic
    ensures ToJson(PlainPoint(), run) == "#<Point:1 >"
  {
    assert Show(1) == "1";
  }

  /** The intended behaviour: a compiled `to_json` decides; otherwise the printed form is used. */
  function ToJson(o: Obj, run: (Obj, Method) -> string): (r: string)
    ensures HasCompiledToJson(o) ==> r == run(o, FindMethod(o, ToJsonName).value)
    ensures !HasCompiledToJson(o) ==> r == UserToString(o)
  {
    match FindMethod(o, ToJsonName)
    case Some(Compiled(n, id)) => run(o, Compiled(n, id))
    case _ => UserToString(o)
  }

  /** The intended behaviour never panics and agrees with the code as written wherever that does not panic. */
  lemma ToJsonRefinesAsWritten(o: Obj, run: (Obj, Method) -> string)
    ensures ToJsonAsWritten(o, run).Json? ==> ToJsonAsWritten(o, run).text == ToJson(o, run)
    ensures ToJsonAsWritten(o, run).Panic? ==> ToJson(o, run) == UserToString(o)
  {
  }
}
