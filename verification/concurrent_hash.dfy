/**
  `Concurrent::Hash` seen one call at a time: a string-keyed map (a
  `sync.Map` in the VM) with `new`, `[]`, `[]=`, `delete`, `has_key?` and
  `each`, their argument-count and argument-type errors, and the textual
  forms. The order in which `Range` visits the pairs is unspecified and is a
  parameter wherever it shows.
 */
module ConcurrentHashes {
  import opened Optional
  import opened Values

  /** A builtin's reply together with the map as the call leaves it. */
  datatype Step = Step(reply: Reply, store: map<string, Obj>)

  /** The name `checkArgTypes` expects on a key argument's class. */
  const StringClassName: string := "String"

  /**
    A usable key argument: its class is named `String` (the test
    `checkArgTypes` makes) and it carries a string (what `Value().(string)`
    then reads).
   */
  predicate IsKeyArg(arg: Obj)
  {
    arg.base.cls.name == StringClassName && arg.kind.Str?
  }

  /** `checkArgTypes(args, line, String)` on the key argument, then `Value().(string)`. */
  function KeyOf(arg: Obj): (r: Option<string>)
    ensures r.Some? ==> arg.base.cls.name == StringClassName
    ensures arg.base.cls.name != StringClassName ==> r.None?
    ensures r.Some? <==> IsKeyArg(arg)
    ensures r.Some? ==> r.value == arg.kind.s
  {
    if arg.base.cls.name != StringClassName then None
    else if arg.kind.Str? then Some(arg.kind.s)
    else None
  }

  /** `initConcurrentHashObject`: stores every pair of `pairs`, one `Store` per key. */
  method InitConcurrentHashObject(rt: Runtime, pairs: map<string, Obj>, newId: int) returns (h: Obj)
    ensures h.kind == ConcurrentHash(pairs)
    ensures h.base.id == newId && h.base.cls == rt.concurrentHashClass
    ensures h.base.singleton.None? && h.base.ivars == map[]
  {
    var store: map<string, Obj> := map[];
    var rest := pairs.Keys;
    while rest != {}
      invariant rest <= pairs.Keys
      invariant store.Keys == pairs.Keys - rest
      invariant forall k :: k in store ==> store[k] == pairs[k]
      decreases rest
    {
      var key :| key in rest;
      store := store[key := pairs[key]];
      rest := rest - {key};
    }
    h := NewObject(newId, rt.concurrentHashClass, ConcurrentHash(store));
  }

  /** `Concurrent::Hash.new`: empty, or a copy of one `Hash` argument. */
  method New(rt: Runtime, args: seq<Obj>, newId: int) returns (r: Reply)
    ensures |args| > 1 ==> r == Fail(ArgumentError)
    ensures |args| == 0 ==> r.Ok? && r.value.kind == ConcurrentHash(map[])
    ensures |args| == 1 && !args[0].kind.Hash? ==> r == Fail(TypeError)
    ensures |args| == 1 && args[0].kind.Hash? ==> r.Ok? && r.value.kind == ConcurrentHash(args[0].kind.pairs)
    ensures r.Ok? ==> r.value.base.id == newId && r.value.base.cls == rt.concurrentHashClass
  {
    if |args| > 1 {
      return Fail(ArgumentError);
    }
    if |args| == 0 {
      var h := InitConcurrentHashObject(rt, map[], newId);
      return Ok(h);
    }
    if !args[0].kind.Hash? {
      return Fail(TypeError);
    }
    var h := InitConcurrentHashObject(rt, args[0].kind.pairs, newId);
    r := Ok(h);
  }

  /** `[]`: the stored value, or `NULL` for a missing key. */
  function Get(rt: Runtime, store: map<string, Obj>, args: seq<Obj>): (r: Reply)
    ensures |args| != 1 ==> r == Fail(ArgumentError)
    ensures |args| == 1 && !IsKeyArg(args[0]) ==> r == Fail(TypeError)
    ensures |args| == 1 && IsKeyArg(args[0]) ==>
              r == Ok(if args[0].kind.s in store then store[args[0].kind.s] else rt.NULL())
  {
    if |args| != 1 then Fail(ArgumentError)
    else match KeyOf(args[0])
      case None => Fail(TypeError)
      case Some(key) => if key in store then Ok(store[key]) else Ok(rt.NULL())
  }

  /** `[]=`: stores the value under the key and returns the value; no other key changes. */
  function Set(store: map<string, Obj>, args: seq<Obj>): (r: Step)
    ensures |args| != 2 ==> r == Step(Fail(ArgumentError), store)
    ensures |args| == 2 && !IsKeyArg(args[0]) ==> r == Step(Fail(TypeError), store)
    ensures |args| == 2 && IsKeyArg(args[0]) ==>
              && r.reply == Ok(args[1])
              && r.store.Keys == store.Keys + {args[0].kind.s}
              && r.store[args[0].kind.s] == args[1]
              && (forall k :: k in store && k != args[0].kind.s ==> r.store[k] == store[k])
  {
    if |args| != 2 then Step(Fail(ArgumentError), store)
    else match KeyOf(args[0])
      case None => Step(Fail(TypeError), store)
      case Some(key) => Step(Ok(args[1]), store[key := args[1]])
  }

  /** `delete`: removes the key if present; a missing key is not an error. Replies `NULL`. */
  function Delete(rt: Runtime, store: map<string, Obj>, args: seq<Obj>): (r: Step)
    ensures |args| != 1 ==> r == Step(Fail(ArgumentError), store)
    ensures |args| == 1 && !IsKeyArg(args[0]) ==> r == Step(Fail(TypeError), store)
    ensures |args| == 1 && IsKeyArg(args[0]) ==>
              && r.reply == Ok(rt.NULL())
              && r.store.Keys == store.Keys - {args[0].kind.s}
              && (forall k :: k in r.store ==> r.store[k] == store[k])
  {
    if |args| != 1 then Step(Fail(ArgumentError), store)
    else match KeyOf(args[0])
      case None => Step(Fail(TypeError), store)
      case Some(key) => Step(Ok(rt.NULL()), store - {key})
  }

  /** `has_key?`: `TRUE` exactly when the key is stored. */
  function HasKey(rt: Runtime, store: map<string, Obj>, args: seq<Obj>): (r: Reply)
    ensures |args| != 1 ==> r == Fail(ArgumentError)
    ensures |args| == 1 && !IsKeyArg(args[0]) ==> r == Fail(TypeError)
    ensures |args| == 1 && IsKeyArg(args[0]) ==> r == Ok(rt.Bool(args[0].kind.s in store))
  {
    if |args| != 1 then Fail(ArgumentError)
    else match KeyOf(args[0])
      case None => Fail(TypeError)
      case Some(key) => if key in store then Ok(rt.TRUE()) else Ok(rt.FALSE())
  }

  /**
    `each`: after the argument and block checks, yields every pair (the
    yields are not modelled) and replies with the receiver itself.
   */
  function Each(receiver: Obj, args: seq<Obj>, hasBlock: bool): (r: Reply)
    ensures |args| != 0 ==> r == Fail(ArgumentError)
    ensures |args| == 0 && !hasBlock ==> r == Fail(InternalError)
    ensures |args| == 0 && hasBlock ==> r == Ok(receiver)
  {
    if |args| != 0 then Fail(ArgumentError)
    else if !hasBlock then Fail(InternalError)
    else Ok(receiver)
  }

  /** A string object holding `key`, as a Goby program would pass it. */
  function KeyArg(rt: Runtime, id: int, key: string): (r: Obj)
    requires rt.stringClass.name == StringClassName
    ensures IsKeyArg(r) && r.kind.s == key
  {
    rt.NewString(id, key)
  }

  /** After `h[k] = v`, `h[k]` is `v` and `h.has_key?(k)` is true. */
  lemma SetThenGet(rt: Runtime, store: map<string, Obj>, id: int, key: string, value: Obj)
    requires rt.stringClass.name == StringClassName
    ensures var after := Set(store, [KeyArg(rt, id, key), value]).store;
            && Get(rt, after, [KeyArg(rt, id, key)]) == Ok(value)
            && HasKey(rt, after, [KeyArg(rt, id, key)]) == Ok(rt.TRUE())
  {
  }

  /** After `h[k] = v` then `h.delete(k)`, the key is gone: `has_key?` is false and `[]` is `NULL`. */
  lemma SetThenDelete(rt: Runtime, store: map<string, Obj>, id: int, key: string, value: Obj)
    requires rt.stringClass.name == StringClassName
    ensures var k := KeyArg(rt, id, key);
            var after := Delete(rt, Set(store, [k, value]).store, [k]).store;
            && HasKey(rt, after, [k]) == Ok(rt.FALSE())
            && Get(rt, after, [k]) == Ok(rt.NULL())
  {
  }

  /** Deleting a key that is not stored leaves the map as it was. */
  lemma DeleteMissingKeyIsNoop(rt: Runtime, store: map<string, Obj>, id: int, key: string)
    requires rt.stringClass.name == StringClassName
    requires key !in store
    ensures Delete(rt, store, [KeyArg(rt, id, key)]) == Step(Ok(rt.NULL()), store)
  {
    assert store - {key} == store;
  }

  /** Writing or deleting one key is invisible through `[]` on any other key. */
  lemma OtherKeysUnaffected(rt: Runtime, store: map<string, Obj>, id: int, key: string, other: Obj, value: Obj)
    requires rt.stringClass.name == StringClassName
    requires IsKeyArg(other) && other.kind.s != key
    ensures Get(rt, Set(store, [KeyArg(rt, id, key), value]).store, [other]) == Get(rt, store, [other])
    ensures Get(rt, Delete(rt, store, [KeyArg(rt, id, key)]).store, [other]) == Get(rt, store, [other])
  {
  }

  // Textual forms -----------------------------------------------------------

  /** `strings.Join`. */
  function Join(parts: seq<string>, sep: string): string
    decreases |parts|
  {
    if |parts| == 0 then ""
    else if |parts| == 1 then parts[0]
    else Join(parts[..|parts| - 1], sep) + sep + parts[|parts| - 1]
  }

  /** One rendered entry per key of `order`, in that order. */
  function Entries(store: map<string, Obj>, order: seq<string>, render: (string, Obj) -> string): seq<string>
    requires forall i :: 0 <= i < |order| ==> order[i] in store
    decreases |order|
  {
    if |order| == 0 then []
    else Entries(store, order[..|order| - 1], render) + [render(order[|order| - 1], store[order[|order| - 1]])]
  }

  /**
    The loop of `ToString` and `ToJSON`: `Range` over the pairs, appending
    one rendered entry per visited pair.
   */
  method CollectEntries(store: map<string, Obj>, order: seq<string>, render: (string, Obj) -> string)
    returns (parts: seq<string>)
    requires IsEnumeration(order, store.Keys)
    ensures parts == Entries(store, order, render)
  {
    parts := [];
    for i := 0 to |order|
      invariant parts == Entries(store, order[..i], render)
    {
      assert order[..i + 1][..i] == order[..i];
      parts := parts + [render(order[i], store[order[i]])];
    }
    assert order[..|order|] == order;
  }

  /** A sequence without repetitions has as many elements as its set of elements. */
  lemma {:induction false} DistinctCard(order: seq<string>)
    requires forall i, j :: 0 <= i < j < |order| ==> order[i] != order[j]
    ensures |set k | k in order| == |order|
    decreases |order|
  {
    if |order| > 0 {
      var init := order[..|order| - 1];
      var last := order[|order| - 1];
      DistinctCard(init);
      assert (set k | k in order) == (set k | k in init) + {last};
      assert last !in (set k | k in init);
    }
  }

  /** `Entries` lists exactly one entry per stored pair, in visiting order. */
  lemma {:induction false} EntriesOnePerPair(store: map<string, Obj>, order: seq<string>, render: (string, Obj) -> string)
    requires IsEnumeration(order, store.Keys)
    ensures |Entries(store, order, render)| == |order| == |store|
    ensures forall i :: 0 <= i < |order| ==>
              Entries(store, order, render)[i] == render(order[i], store[order[i]])
  {
    DistinctCard(order);
    assert (set k | k in order) == store.Keys;
    EntriesIndexed(store, order, render);
  }

  lemma {:induction false} EntriesIndexed(store: map<string, Obj>, order: seq<string>, render: (string, Obj) -> string)
    requires forall i :: 0 <= i < |order| ==> order[i] in store
    ensures |Entries(store, order, render)| == |order|
    ensures forall i :: 0 <= i < |order| ==>
              Entries(store, order, render)[i] == render(order[i], store[order[i]])
    decreases |order|
  {
    if |order| > 0 {
      EntriesIndexed(store, order[..|order| - 1], render);
    }
  }

  /** `key: value.Inspect()`, as `fmt.Sprintf("%s: %s", ...)` prints it. */
  function PairText(inspect: Obj -> string): (string, Obj) -> string
  {
    (k: string, v: Obj) => k + ": " + inspect(v)
  }

  /** `ToString`: `{ `, the entries joined by `, `, then ` }`. `inspect` is each value's own `Inspect`. */
  function ToString(store: map<string, Obj>, order: seq<string>, inspect: Obj -> string): (r: string)
    requires IsEnumeration(order, store.Keys)
    ensures |r| >= 4 && r[..2] == "{ " && r[|r| - 2..] == " }"
  {
    "{ " + Join(Entries(store, order, PairText(inspect)), ", ") + " }"
  }

  /** `Inspect` delegates to `ToString`. */
  function Inspect(store: map<string, Obj>, order: seq<string>, inspect: Obj -> string): (r: string)
    requires IsEnumeration(order, store.Keys)
    ensures r == ToString(store, order, inspect)
  {
    ToString(store, order, inspect)
  }

  /** `ToJSON`: `{`, the pairs' JSON joined by `,`, then `}`. `pairJSON` is `generateJSONFromPair`. */
  function ToJSON(store: map<string, Obj>, order: seq<string>, pairJSON: (string, Obj) -> string): (r: string)
    requires IsEnumeration(order, store.Keys)
    ensures |r| >= 2 && r[0] == '{' && r[|r| - 1] == '}'
  {
    "{" + Join(Entries(store, order, pairJSON), ",") + "}"
  }

  /** `to_s`: takes no arguments and replies with a new string holding `ToString`. */
  function ToSMethod(rt: Runtime, store: map<string, Obj>, order: seq<string>, inspect: Obj -> string,
                     args: seq<Obj>, newId: int): (r: Reply)
    requires IsEnumeration(order, store.Keys)
    ensures r.Fail? <==> |args| != 0
    ensures r.Fail? ==> r.error == ArgumentError
    ensures r.Ok? ==> r.value.base.cls == rt.stringClass && r.value.base.id == newId
    ensures r.Ok? ==> r.value.kind == Str(ToString(store, order, inspect))
  {
    if |args| != 0 then Fail(ArgumentError)
    else Ok(rt.NewString(newId, ToString(store, order, inspect)))
  }

  /** `to_json`: takes no arguments and replies with a new string holding `ToJSON`. */
  function ToJsonMethod(rt: Runtime, store: map<string, Obj>, order: seq<string>, pairJSON: (string, Obj) -> string,
                        args: seq<Obj>, newId: int): (r: Reply)
    requires IsEnumeration(order, store.Keys)
    ensures r.Fail? <==> |args| != 0
    ensures r.Fail? ==> r.error == ArgumentError
    ensures r.Ok? ==> r.value.base.cls == rt.stringClass && r.value.base.id == newId
    ensures r.Ok? ==> r.value.kind == Str(ToJSON(store, order, pairJSON))
  {
    if |args| != 0 then Fail(ArgumentError)
    else Ok(rt.NewString(newId, ToJSON(store, order, pairJSON)))
  }

  /** The empty map prints as `{  }` and exports as `{}`; `Inspect` agrees with `ToString`. */
  lemma EmptyRendering(order: seq<string>, inspect: Obj -> string, pairJSON: (string, Obj) -> string)
    requires IsEnumeration(order, {})
    ensures ToString(map[], order, inspect) == "{  }"
    ensures Inspect(map[], order, inspect) == "{  }"
    ensures ToJSON(map[], order, pairJSON) == "{}"
  {
    EntriesOnePerPair(map[], order, PairText(inspect));
    EntriesOnePerPair(map[], order, pairJSON);
  }

  /** A one-pair map prints as `{ key: value }` and exports as `{` pair `}`. */
  lemma SinglePairRendering(key: string, value: Obj, order: seq<string>, inspect: Obj -> string, pairJSON: (string, Obj) -> string)
    requires IsEnumeration(order, {key})
    ensures ToString(map[key := value], order, inspect) == "{ " + key + ": " + inspect(value) + " }"
    ensures ToJSON(map[key := value], order, pairJSON) == "{" + pairJSON(key, value) + "}"
  {
    var store := map[key := value];
    EntriesOnePerPair(store, order, PairText(inspect));
    EntriesOnePerPair(store, order, pairJSON);
  }

  /** `Value`: the underlying map. */
  function Value(h: Obj): (r: HostValue)
    requires h.kind.ConcurrentHash?
    ensures r.HostMap? && r.store.Keys == h.kind.store.Keys
    ensures forall k :: k in r.store ==> r.store[k] == h.kind.store[k]
  {
    HostMap(h.kind.store)
  }
}
