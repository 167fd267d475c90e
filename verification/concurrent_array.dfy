/**
  `Concurrent::Array`: a plain array guarded by one reader/writer mutex.
  Each supported method is a forwarding wrapper that takes the lock in the
  mode the static forwarding table gives it, delegates to the plain array's
  method of the same name, releases the same mode, and wraps a plain array
  result into a new concurrent array.

  The plain array's methods are not part of this model: a delegate is any
  function from method name, current elements and arguments to a reply and
  the elements the call leaves behind.
 */
module ConcurrentArrays {
  import opened Optional
  import opened RWLock
  import opened Values

  /** Method name to "needs the write lock". */
  const ForwardingTable: map<string, bool> := map[
    "[]" := false,
    "*" := false,
    "+" := false,
    "[]=" := true,
    "any?" := false,
    "at" := false,
    "clear" := true,
    "concat" := true,
    "count" := false,
    "delete_at" := true,
    "each" := false,
    "each_index" := false,
    "empty?" := false,
    "first" := false,
    "flatten" := false,
    "join" := false,
    "last" := false,
    "length" := false,
    "map" := false,
    "pop" := true,
    "push" := true,
    "reduce" := false,
    "reverse" := false,
    "reverse_each" := false,
    "rotate" := false,
    "select" := false,
    "shift" := true,
    "unshift" := true,
    "values_at" := false
  ]

  /** The methods that mutate the array. */
  const WriteLocked: set<string> := {"[]=", "clear", "concat", "delete_at", "pop", "push", "shift", "unshift"}

  /** The table asks for the write lock on exactly the mutating methods and the read lock on all others. */
  lemma ForwardingTableModes()
    ensures WriteLocked <= ForwardingTable.Keys
    ensures forall n :: n in ForwardingTable ==> (ForwardingTable[n] <==> n in WriteLocked)
  {
  }

  function ModeFor(requireWriteLock: bool): (m: Mode)
    ensures m == Exclusive <==> requireWriteLock
  {
    if requireWriteLock then Exclusive else Shared
  }

  /**
    `initConcurrentArrayClass`: one forwarding method per table entry,
    carrying that entry's lock requirement. `ancestry` is what the class
    hierarchy contributes beyond the own table.
   */
  method InitConcurrentArrayClass(ancestry: map<string, Method>) returns (c: Class)
    ensures c.name == "Array" && c.ancestry == ancestry
    ensures c.methods.Keys == ForwardingTable.Keys
    ensures forall n :: n in c.methods ==> c.methods[n] == Forwarded(n, ForwardingTable[n])
  {
    var methods: map<string, Method> := map[];
    var rest := ForwardingTable.Keys;
    while rest != {}
      invariant rest <= ForwardingTable.Keys
      invariant methods.Keys == ForwardingTable.Keys - rest
      invariant forall n :: n in methods ==> methods[n] == Forwarded(n, ForwardingTable[n])
      decreases rest
    {
      var name :| name in rest;
      methods := methods[name := Forwarded(name, ForwardingTable[name])];
      rest := rest - {name};
    }
    c := Class("Array", methods, ancestry);
  }

  /** `initConcurrentArrayObject`: a fresh, unlocked wrapper around the given elements. */
  function InitConcurrentArrayObject(rt: Runtime, elements: seq<Obj>, newId: int): (a: Obj)
    ensures a.kind.ConcurrentArray? && a.kind.internal == elements && a.kind.lock == Unlocked
    ensures a.base.id == newId && a.base.cls == rt.concurrentArrayClass
  {
    NewObject(newId, rt.concurrentArrayClass, ConcurrentArray(elements, Unlocked))
  }

  /** `Concurrent::Array.new`: empty, or wrapping the elements of one `Array` argument. */
  function New(rt: Runtime, args: seq<Obj>, newId: int): (r: Reply)
    ensures |args| == 0 ==> r.Ok? && r.value.kind == ConcurrentArray([], Unlocked)
    ensures |args| == 1 && args[0].kind.Array? ==>
              r.Ok? && r.value.kind == ConcurrentArray(args[0].kind.elements, Unlocked)
    ensures |args| == 1 && !args[0].kind.Array? ==> r == Fail(TypeError)
    ensures |args| >= 2 ==> r == Fail(ArgumentError)
    ensures r.Ok? ==> r.value.base.id == newId && r.value.base.cls == rt.concurrentArrayClass
  {
    if |args| == 0 then Ok(InitConcurrentArrayObject(rt, [], newId))
    else if |args| == 1 then
      (if args[0].kind.Array? then Ok(InitConcurrentArrayObject(rt, args[0].kind.elements, newId))
       else Fail(TypeError))
    else Fail(ArgumentError)
  }

  /** What the plain array's method hands back, and the elements it leaves. */
  datatype Delegated = Delegated(reply: Reply, elements: seq<Obj>)

  /** The result of a forwarded call: it would block, or it returned. */
  datatype Outcome =
    | Blocked
    | Returned(held: Lock, reply: Reply, after: Obj)

  /** A plain array result becomes a new concurrent array; anything else passes through. */
  function Rewrap(rt: Runtime, reply: Reply, newId: int): (r: Reply)
    ensures reply.Ok? && reply.value.kind.Array? ==>
              r == Ok(InitConcurrentArrayObject(rt, reply.value.kind.elements, newId))
    ensures !(reply.Ok? && reply.value.kind.Array?) ==> r == reply
    ensures r.Ok? ==> !r.value.kind.Array?
  {
    if reply.Ok? && reply.value.kind.Array?
    then Ok(InitConcurrentArrayObject(rt, reply.value.kind.elements, newId))
    else reply
  }

  /**
    `DefineForwardedConcurrentArrayMethod(name, requireWriteLock)` applied to
    `receiver`: lock in the chosen mode, delegate, unlock the same mode,
    rewrap. `held` is the lock state while the delegate (and any block it
    yields to) runs.
   */
  function Forward(rt: Runtime, name: string, requireWriteLock: bool, receiver: Obj, args: seq<Obj>,
                   delegate: (string, seq<Obj>, seq<Obj>) -> Delegated, newId: int): (out: Outcome)
    requires receiver.kind.ConcurrentArray?
    ensures out.Blocked? <==> Acquire(receiver.kind.lock, ModeFor(requireWriteLock)).None?
    ensures out.Returned? ==>
              && out.held == Acquire(receiver.kind.lock, ModeFor(requireWriteLock)).value
              && (out.held.writer <==> requireWriteLock)
    ensures out.Returned? ==>
              && out.after.kind.ConcurrentArray?
              && out.after.kind.lock == receiver.kind.lock
              && out.after.kind.internal == delegate(name, receiver.kind.internal, args).elements
              && out.after.base == receiver.base
    ensures out.Returned? ==> out.reply == Rewrap(rt, delegate(name, receiver.kind.internal, args).reply, newId)
  {
    var mode := ModeFor(requireWriteLock);
    match Acquire(receiver.kind.lock, mode)
    case None => Blocked
    case Some(held) =>
      var d := delegate(name, receiver.kind.internal, args);
      ReleaseUndoesAcquire(receiver.kind.lock, mode);
      var released := Release(held, mode);
      Returned(held, Rewrap(rt, d.reply, newId), receiver.(kind := ConcurrentArray(d.elements, released)))
  }

  /** On an array nobody holds, every forwarded call returns and leaves the array unlocked. */
  lemma ForwardOnUnlockedReturns(rt: Runtime, name: string, requireWriteLock: bool, receiver: Obj, args: seq<Obj>,
                                 delegate: (string, seq<Obj>, seq<Obj>) -> Delegated, newId: int)
    requires receiver.kind.ConcurrentArray? && receiver.kind.lock == Unlocked
    ensures var out := Forward(rt, name, requireWriteLock, receiver, args, delegate, newId);
            out.Returned? && out.after.kind.lock == Unlocked
  {
  }

  /**
    Calling a table method through the class takes the write lock exactly for
    the mutating methods, and the read lock (one reader) for all others.
   */
  lemma ForwardedModeMatchesTable(rt: Runtime, ancestry: map<string, Method>, c: Class, name: string, receiver: Obj,
                                  args: seq<Obj>, delegate: (string, seq<Obj>, seq<Obj>) -> Delegated, newId: int)
    requires c.methods.Keys == ForwardingTable.Keys
    requires forall n :: n in c.methods ==> c.methods[n] == Forwarded(n, ForwardingTable[n])
    requires name in c.methods
    requires receiver.kind.ConcurrentArray? && receiver.kind.lock == Unlocked
    ensures var out := Forward(rt, name, c.methods[name].writeLock, receiver, args, delegate, newId);
            && out.Returned?
            && (out.held.writer <==> name in WriteLocked)
            && (name !in WriteLocked ==> out.held == Lock(false, 1))
  {
    ForwardingTableModes();
  }

  /**
    Re-entering the same array from a block that a forwarded call yields to
    (the call then still holds `held`): under a write lock every forwarded
    call blocks; under a read lock every mutating call blocks and reading
    calls proceed. The model is sequential, so the "proceed" half holds only
    while no other goroutine is waiting for the write lock: Go's
    `sync.RWMutex` makes a new `RLock` wait behind a pending `Lock`, which is
    why it forbids recursive read locking.
   */
  lemma ReentrantCallBlocks(rt: Runtime, name: string, requireWriteLock: bool, receiver: Obj, args: seq<Obj>,
                            delegate: (string, seq<Obj>, seq<Obj>) -> Delegated, newId: int,
                            name2: string, requireWriteLock2: bool, args2: seq<Obj>)
    requires receiver.kind.ConcurrentArray?
    requires Forward(rt, name, requireWriteLock, receiver, args, delegate, newId).Returned?
    ensures var held := Forward(rt, name, requireWriteLock, receiver, args, delegate, newId).held;
            var inside := receiver.(kind := ConcurrentArray(receiver.kind.internal, held));
            (Forward(rt, name2, requireWriteLock2, inside, args2, delegate, newId).Blocked?
             <==> requireWriteLock || requireWriteLock2)
  {
  }

  /** Element-wise equality of two element lists under the elements' own `equalTo`. */
  predicate Elementwise(xs: seq<Obj>, ys: seq<Obj>, eq: (Obj, Obj) -> bool)
  {
    |xs| == |ys| && forall i :: 0 <= i < |xs| ==> eq(xs[i], ys[i])
  }

  /**
    `equalTo`: false unless the other value is a concurrent array; otherwise
    the two internal arrays are compared element by element. Identity and
    lock state play no part.
   */
  method EqualTo(a: Obj, b: Obj, eq: (Obj, Obj) -> bool) returns (r: bool)
    requires a.kind.ConcurrentArray?
    ensures !b.kind.ConcurrentArray? ==> !r
    ensures b.kind.ConcurrentArray? ==>
              (r <==> |a.kind.internal| == |b.kind.internal|
                      && forall i :: 0 <= i < |a.kind.internal| ==> eq(a.kind.internal[i], b.kind.internal[i]))
  {
    if !b.kind.ConcurrentArray? {
      return false;
    }
    var xs, ys := a.kind.internal, b.kind.internal;
    if |xs| != |ys| {
      return false;
    }
    r := true;
    var i := 0;
    while i < |xs|
      invariant 0 <= i <= |xs|
      invariant r <==> forall j :: 0 <= j < i ==> eq(xs[j], ys[j])
    {
      r := r && eq(xs[i], ys[i]);
      i := i + 1;
    }
  }

  /** `ToString`: the internal array's `Inspect`. */
  function ToString(a: Obj, arrayInspect: seq<Obj> -> string): (r: string)
    requires a.kind.ConcurrentArray?
    ensures r == arrayInspect(a.kind.internal)
  {
    arrayInspect(a.kind.internal)
  }

  /** `Inspect` delegates to `ToString`. */
  function Inspect(a: Obj, arrayInspect: seq<Obj> -> string): (r: string)
    requires a.kind.ConcurrentArray?
    ensures r == arrayInspect(a.kind.internal)
  {
    ToString(a, arrayInspect)
  }

  /** `ToJSON`: the internal array's `ToJSON`. */
  function ToJSON(a: Obj, arrayJSON: seq<Obj> -> string): (r: string)
    requires a.kind.ConcurrentArray?
    ensures r == arrayJSON(a.kind.internal)
  {
    arrayJSON(a.kind.internal)
  }

  /** `Value`: the internal elements. */
  function Value(a: Obj): (r: HostValue)
    requires a.kind.ConcurrentArray?
    ensures r.HostElements? && r.elements == a.kind.internal
  {
    HostElements(a.kind.internal)
  }

  /**
    The textual forms of a concurrent array are those of the plain array it
    wraps, so two wrappers holding the same elements print alike whatever
    their identities and lock states.
   */
  lemma FormsFollowElements(a: Obj, b: Obj, arrayInspect: seq<Obj> -> string, arrayJSON: seq<Obj> -> string)
    requires a.kind.ConcurrentArray? && b.kind.ConcurrentArray?
    requires a.kind.internal == b.kind.internal
    ensures Inspect(a, arrayInspect) == ToString(a, arrayInspect) == arrayInspect(a.kind.internal)
    ensures ToString(a, arrayInspect) == ToString(b, arrayInspect)
    ensures ToJSON(a, arrayJSON) == ToJSON(b, arrayJSON) == arrayJSON(a.kind.internal)
    ensures Value(a) == Value(b)
  {
  }
}
