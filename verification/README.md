# Goby VM value layer in Dafny

This project models the value layer of the Goby virtual machine. It covers four parts:

- **Base object protocol** (`vm/object.go`). Every value embeds a `BaseObj`: an identity, an owner class, an optional singleton class and an instance-variable environment. The model covers instance-variable get and set, and the two-step method lookup `findMethod` (singleton class, then owner class). It covers the three-step `method_missing` fallback `findMethodMissing`, default truthiness and equality, and the string forms of user objects (`RObject`).
- **`nil`** (`vm/null.go`). It has fixed string, inspect and JSON forms, is falsy, and equals only itself. The builtins of the `Null` class check their argument counts.
- **`Concurrent::Hash`** (`vm/concurrent_hash.go`). Taken one call at a time, it is a string-keyed map with `new`, `[]`, `[]=`, `delete`, `has_key?` and `each`. Each has its argument-count and argument-type errors. The model also gives the text and JSON renderings.
- **`Concurrent::Array`** (`vm/concurrent_array.go`). A static forwarding table gives every method a lock mode. Each forwarded call takes the reader/writer lock in that mode, delegates to the plain array and releases the same mode. A plain-array result comes back wrapped in a new concurrent array. The model also covers the constructor and element-wise equality.

Modules, one per concern:

| file | module | contents |
|---|---|---|
| `optional.dfy` | `Optional` | `Option`, for possibly-nil pointers |
| `rwlock.dfy` | `RWLock` | `sync.RWMutex` as a state machine: writer flag and reader count; acquiring a mode the state does not admit would block (`None`) |
| `decimal.dfy` | `Decimal` | `fmt.Sprint` of an `int`, with a parser as its partner |
| `values.dfy` | `Values` | `Obj = Obj(Base, Kind)`, classes, methods, error kinds, replies, the VM singletons (`Runtime`) |
| `object.dfy` | `Objects` | `BaseObj` and `RObject` |
| `null.dfy` | `Nulls` | `NullObject` and its builtins |
| `concurrent_hash.dfy` | `ConcurrentHashes` | `ConcurrentHashObject` |
| `concurrent_array.dfy` | `ConcurrentArrays` | `ConcurrentArrayObject`, the forwarding table and the wrapper |
| `user_json.dfy` | `UserJson` | `RObject.ToJSON`: the code as written, and the intended behaviour (see Findings) |

Modelling choices:

- Values are immutable. An operation that mutates in Go returns the updated value (`InstanceVariableSet`, `ConcurrentHashes.Set`/`Delete`, the `after` object of `ConcurrentArrays.Forward`).
- Identities come from pointer addresses in the VM. Here they are opaque integers passed in by the caller (`newId`). They are fixed at construction.
- A builtin that returns an error object returns `Fail(kind)` in the model. The kinds are `ArgumentError`, `TypeError`, `InternalError` and `NoMethodError`. Messages and source lines are not modelled.
- `RClass.lookupMethod` walks the class hierarchy. Here it looks in the class's own table first, then in `ancestry`, a map that stands for whatever the ancestor walk would find.
- Calls whose implementation lives elsewhere are parameters:
  - each value's own `ToString`/`Inspect`;
  - the plain array's `Inspect`, `ToJSON` and methods (`delegate`);
  - `generateJSONFromPair`;
  - element `equalTo`;
  - `reflect.DeepEqual`;
  - running a user-defined `to_json`.
- `sync.Map.Range` and `environment.names()` visit keys in an unspecified order. That order is a parameter (`order`). Where the model needs each key exactly once, it requires `IsEnumeration`.
- Behaviour of the code that the model keeps as it is:
  - The concurrent hash's `[]`, `[]=`, `delete` and `has_key?` return `ArgumentError` on a wrong argument count. They return `TypeError` when the key's class is not named `String` (vm/concurrent_hash.go:77-85).
  - A forwarded array method releases its lock only when the delegate returns normally. Nothing is deferred (vm/concurrent_array.go:158-171).
  - The doc comment of `each` promises sorted key order, but the code iterates with `Range` (vm/concurrent_hash.go:160). The model promises no order.

## Model

| member | source | states |
|---|---|---|
| RWLock.Acquire | vm/concurrent_array.go:158-162 | `Lock` succeeds only when nobody holds the mutex and `RLock` only when no writer does. Success records the writer or one more reader. |
| RWLock.Release | vm/concurrent_array.go:166-170 | `Unlock` clears the writer flag and `RUnlock` drops one reader. Nothing else changes. |
| RWLock.ReleaseUndoesAcquire | vm/concurrent_array.go:158-171 | Releasing the mode just acquired restores the exact prior lock state. |
| RWLock.TransitionsPreserveValid | vm/concurrent_array.go:53-58 | Acquire and release never produce a state with both a writer and readers. |
| RWLock.HeldLockBlocks | vm/concurrent_array.go:158-162 | While a writer holds the lock both modes block. While readers hold it, only the write mode blocks. |
| Decimal.ShowNat | vm/object.go:177 | The printed id is a non-empty run of digits with no leading zero. |
| Decimal.Show | vm/object.go:177 | `fmt.Sprint` of an int is digits, with a leading `-` exactly for negatives. |
| Decimal.ParseShowNat | vm/object.go:177 | Reading the digits back gives the natural number that was printed. |
| Decimal.ParseShow | vm/object.go:177 | Parsing the printed form of any int gives that int back. |
| Decimal.ShowInjective | vm/object.go:177 | Distinct ids print as distinct strings. |
| Values.NewObject | vm/object.go:41-55 | A new object has the given identity and owner class, no singleton class and no instance variables. |
| Objects.ClassOf | vm/object.go:60-66 | Definition: the owner class the object was created with. |
| Objects.SingletonClassOf | vm/object.go:69-71 | Definition: the singleton class, absent until one is set. |
| Objects.ID | vm/object.go:135-137 | Definition: the identity fixed at creation. |
| Objects.SetSingletonClass | vm/object.go:69-76 | After setting, `SingletonClass()` returns the new class. The owner class, id, variables and kind are unchanged. |
| Objects.SetSingletonClassLastWins | vm/object.go:74-76 | Two settings in a row equal the second alone. |
| Objects.InstanceVariableGet | vm/object.go:79-87 | `found` holds iff the name is set. When found, the value is the stored one; otherwise it is `NULL`. |
| Objects.InstanceVariableSet | vm/object.go:90-94 | Returns the given value. A later get of that name returns `(value, true)`, and every other name reads as before. |
| Objects.InstanceVariableSetIdempotent | vm/object.go:90-94 | Storing the value a variable already holds leaves the object unchanged. |
| Objects.LookupMethod | vm/object.go:106-110 | The class's own table answers first; the lookup finds nothing iff neither the own table nor the ancestor walk has the name. |
| Objects.FindMethod | vm/object.go:104-114 | If the singleton class's lookup finds the name, that method is returned. Otherwise the owner class's lookup decides. |
| Objects.FindMethodIsFirstHit | vm/object.go:104-114 | `findMethod` equals the first successful lookup along the chain [singleton class, owner class]. |
| Objects.SingletonOverrideWins | vm/object.go:104-108 | A singleton class defining the name wins over the owner class. |
| Objects.RemovingSingletonFallsBack | vm/object.go:109-113 | With the singleton class cleared, dispatch is the owner class's lookup. |
| Objects.FindMethodMissing | vm/object.go:116-132 | Checks the singleton's own `method_missing`, then the owner class's own entry, then full lookup only when `searchAncestor` is true. |
| Objects.MethodMissingOwnTablesOnly | vm/object.go:116-126 | Without the ancestor search, a hook is found iff one of the two own tables has `method_missing`. |
| Objects.MethodMissingSearchMonotone | vm/object.go:127-129 | When a hook is found without the ancestor search, the search returns the same hook. |
| Objects.MethodMissingAgreesWithLookup | vm/object.go:116-132 | With the ancestor search, a hook exists iff ordinary lookup of `method_missing` finds one. |
| Objects.BaseIsTruthy | vm/object.go:139-141 | Every base object is truthy. |
| Objects.BaseEqualTo | vm/object.go:143-151 | Equal only if the class names agree and the deep comparison succeeds. Different class names are never equal. |
| Objects.UserToString | vm/object.go:176-178 | The printed form is `#<`, the class name and `:`, then text that parses back to the object's id, then ` >`. |
| Objects.UserToStringDistinguishesIds | vm/object.go:176-178 | Two objects of one class with the same `#<Class:id >` form have the same id. |
| Objects.IvarTextAppend | vm/object.go:183-186 | The variable part of `Inspect` is the concatenation of one `name=value ` entry per name. |
| Objects.UserInspect | vm/object.go:181-188 | `Inspect` is `#<`, class, `:`, id, a space, one `name=value ` entry per variable in enumeration order, then `>`. |
| Objects.UserInspectOfBareObject | vm/object.go:176-188 | An object without instance variables inspects exactly as it prints. |
| Objects.UserValue | vm/object.go:205-207 | `Value` is exactly the string that `ToString` prints, framed by `#<` and ` >`. |
| Nulls.ToString | vm/null.go:143-145 | `nil` prints as the empty string. |
| Nulls.Inspect | vm/null.go:153-155 | `nil` inspects as `nil`, which differs from its printed form. |
| Nulls.ToJSON | vm/null.go:148-150 | `nil` exports to JSON as `null`, which differs from both its printed and inspected forms. |
| Nulls.IsTruthy | vm/null.go:157-159 | `nil` is falsy. |
| Nulls.Value | vm/null.go:138-140 | `Value` is Go's nil. |
| Nulls.EqualTo | vm/null.go:161-163 | Definition: pointer identity with the one `NULL` object; anything equal is a null value with `NULL`'s id. |
| Nulls.EqualToIsIdentity | vm/null.go:161-163 | `nil` equals itself and no value that is not null. Anything equal to it has its identity. |
| Nulls.ClassNew | vm/null.go:24-27 | `Null.new` always returns a `NoMethodError`. |
| Nulls.Not | vm/null.go:42-46 | `!` returns `TRUE` whatever the arguments. |
| Nulls.ToI | vm/null.go:50-57 | `to_i` fails with `ArgumentError` iff given arguments. Otherwise it returns the integer 0. |
| Nulls.ToS | vm/null.go:62-69 | `to_s` fails with `ArgumentError` iff given arguments. Otherwise it returns the empty string. |
| Nulls.InspectMethod | vm/null.go:74-81 | `inspect` fails with `ArgumentError` iff given arguments. Otherwise it returns the string `nil`. |
| Nulls.NotEqual | vm/null.go:92-102 | `!=` fails with `ArgumentError` unless given exactly one argument. It returns `TRUE` iff that argument is not null, `FALSE` otherwise. |
| Nulls.NotEqualNegatesEqualTo | vm/null.go:92-102 | With `NULL` as the only null value, `nil != x` is the negation of `nil.equalTo(x)`. |
| Nulls.IsNil | vm/null.go:113-118 | `nil?` fails with `ArgumentError` iff given arguments. Otherwise it returns `TRUE`. |
| Nulls.CallInstanceMethod | vm/null.go:32-121 | The table answers exactly the names `!`, `to_i`, `to_s`, `inspect`, `!=` and `nil?`. |
| Nulls.InstanceMethodArity | vm/null.go:32-121 | Across the table: `!` takes anything and `!=` needs exactly one argument. Every other builtin rejects any argument, always with `ArgumentError`. |
| ConcurrentHashes.KeyOf | vm/concurrent_hash.go:81-89 | A key is accepted only when its class is named `String`, and then iff it carries a string; the key is that string. |
| ConcurrentHashes.InitConcurrentHashObject | vm/concurrent_hash.go:286-299 | Copying the pairs one `Store` at a time yields exactly the given map, in a new `Concurrent::Hash` object. |
| ConcurrentHashes.New | vm/concurrent_hash.go:39-56 | More than one argument gives `ArgumentError`, none gives an empty map, and a non-Hash gives `TypeError`. A Hash gives a map with exactly its pairs. |
| ConcurrentHashes.Get | vm/concurrent_hash.go:76-96 | Returns the stored value, or `NULL` for an absent key. `ArgumentError` unless there is one argument; `TypeError` for a key whose class is not `String`. |
| ConcurrentHashes.Set | vm/concurrent_hash.go:111-128 | Stores the value under the key and returns it. Other keys are unchanged. `ArgumentError` unless there are two arguments. |
| ConcurrentHashes.Delete | vm/concurrent_hash.go:142-156 | Removes the key if present and leaves the other pairs. Returns `NULL` on success. |
| ConcurrentHashes.HasKey | vm/concurrent_hash.go:219-235 | Returns `TRUE` iff the key is stored, with the same argument errors as `[]`. |
| ConcurrentHashes.Each | vm/concurrent_hash.go:176-205 | Any argument gives `ArgumentError` and no block gives `InternalError`. Otherwise it returns the receiver itself. |
| ConcurrentHashes.SetThenGet | vm/concurrent_hash.go:110-129 | After `h[k] = v`, `h[k]` is `v` and `has_key?(k)` is `TRUE`. |
| ConcurrentHashes.SetThenDelete | vm/concurrent_hash.go:141-157 | After `h[k] = v` then `delete(k)`, `has_key?(k)` is `FALSE` and `h[k]` is `NULL`. |
| ConcurrentHashes.DeleteMissingKeyIsNoop | vm/concurrent_hash.go:153-155 | Deleting an absent key returns `NULL` and leaves the map unchanged. |
| ConcurrentHashes.OtherKeysUnaffected | vm/concurrent_hash.go:124-125 | Writing or deleting one key does not change what `[]` returns for any other key. |
| ConcurrentHashes.CollectEntries | vm/concurrent_hash.go:323-328 | The `Range` loop appends one rendered entry per visited pair, in visiting order. |
| ConcurrentHashes.DistinctCard | vm/concurrent_hash.go:328 | A visiting order with no repeats has exactly as many entries as keys visited. |
| ConcurrentHashes.EntriesOnePerPair | vm/concurrent_hash.go:323-328 | The rendering has exactly one entry per stored pair. The i-th entry renders the i-th visited key with its value. |
| ConcurrentHashes.EmptyRendering | vm/concurrent_hash.go:319-358 | An empty hash prints and inspects as `{  }` and exports as `{}`. |
| ConcurrentHashes.SinglePairRendering | vm/concurrent_hash.go:319-358 | A one-pair hash prints as `{ key: value.Inspect() }` and exports as `{` pair JSON `}`. |
| ConcurrentHashes.ToString | vm/concurrent_hash.go:319-335 | Definition: `{ `, one `key: value.Inspect()` entry per pair joined by `, `, then ` }`; the result is framed by `{ ` and ` }`. |
| ConcurrentHashes.Inspect | vm/concurrent_hash.go:338-340 | Definition: the same string as `ToString`. |
| ConcurrentHashes.ToJSON | vm/concurrent_hash.go:343-358 | Definition: `{`, the pairs' JSON joined by `,`, then `}`; the result is framed by braces. |
| ConcurrentHashes.ToSMethod | vm/concurrent_hash.go:269-278 | `to_s` fails with `ArgumentError` iff given arguments. Otherwise it returns a new string object holding `ToString`. |
| ConcurrentHashes.ToJsonMethod | vm/concurrent_hash.go:248-257 | `to_json` fails with `ArgumentError` iff given arguments. Otherwise it returns a new string object holding `ToJSON`. |
| ConcurrentHashes.Value | vm/concurrent_hash.go:314-316 | `Value` is the underlying map, with the same keys and values. |
| ConcurrentArrays.ForwardingTableModes | vm/concurrent_array.go:14-44 | The write-lock methods are exactly `[]=`, `clear`, `concat`, `delete_at`, `pop`, `push`, `shift` and `unshift`. Every other table entry is read. |
| ConcurrentArrays.ModeFor | vm/concurrent_array.go:158-162 | The exclusive mode is chosen iff the entry requires the write lock. |
| ConcurrentArrays.InitConcurrentArrayClass | vm/concurrent_array.go:100-115 | The class gets one forwarding method per table entry, carrying that entry's lock flag, and no others. |
| ConcurrentArrays.InitConcurrentArrayObject | vm/concurrent_array.go:91-98 | A new wrapper holds the given elements and is unlocked. |
| ConcurrentArrays.New | vm/concurrent_array.go:64-82 | No arguments gives an empty array, one Array argument gives its elements, and one non-Array gives `TypeError`. Two or more give `ArgumentError`. |
| ConcurrentArrays.Rewrap | vm/concurrent_array.go:173-179 | A plain array result becomes a new concurrent array with the same elements; other results pass unchanged. A plain array is never returned. |
| ConcurrentArrays.Forward | vm/concurrent_array.go:152-181 | Takes the mode the flag asks for and blocks iff the lock state does not admit it. On return, the lock is back where it was and the elements are what the delegate left. The reply is the rewrapped delegate reply. |
| ConcurrentArrays.ForwardOnUnlockedReturns | vm/concurrent_array.go:158-171 | On an unlocked array every forwarded call returns and leaves the array unlocked. |
| ConcurrentArrays.ForwardedModeMatchesTable | vm/concurrent_array.go:152-171 | Calling a table method through the class holds the write lock iff the method is a mutating one. Otherwise it holds one read lock. |
| ConcurrentArrays.ReentrantCallBlocks | vm/concurrent_array.go:158-171 | With no other goroutine waiting for the write lock, a forwarded call made from inside another on the same array blocks iff either call needs the write lock. |
| ConcurrentArrays.EqualTo | vm/concurrent_array.go:139-147 | False when the other value is not a concurrent array. Otherwise true iff the internal arrays have equal length and are element-wise equal. |
| ConcurrentArrays.ToString | vm/concurrent_array.go:125-127 | Definition: the internal array's `Inspect`. |
| ConcurrentArrays.Inspect | vm/concurrent_array.go:130-132 | Definition: delegates to `ToString`, so it is also the internal array's `Inspect`. |
| ConcurrentArrays.ToJSON | vm/concurrent_array.go:120-122 | Definition: the internal array's `ToJSON`. |
| ConcurrentArrays.Value | vm/concurrent_array.go:135-137 | `Value` is the internal elements. |
| ConcurrentArrays.FormsFollowElements | vm/concurrent_array.go:120-137 | `ToString` is the internal array's `Inspect` and `Inspect` equals `ToString`. `ToJSON` is the internal array's `ToJSON`. All forms depend only on the elements. |
| UserJson.ToJsonAsWritten | vm/object.go:191-202 | As written: a compiled `to_json` is run; any other lookup result panics. |
| UserJson.AsWrittenNeverFallsBack | vm/object.go:194-201 | As written, the `ToString` fallback is unreachable. A missing `to_json` panics. |
| UserJson.AsWrittenPanicsOnPlainObject | vm/object.go:191-202 | For a `Point` object with no `to_json` anywhere, the code as written panics where the fallback gives `#<Point:1 >`. |
| UserJson.ToJson | vm/object.go:191-202 | Intended: a compiled `to_json` decides; otherwise the printed form `#<Class:id >` is used. |
| UserJson.ToJsonRefinesAsWritten | vm/object.go:191-202 | The intended behaviour never panics and agrees with the code as written wherever that does not panic. |

## Left out

- Objects.BaseEqualTo: the `reflect.DeepEqual` half is an abstract predicate passed in, so the contract says nothing about what counts as deep equality.
- ConcurrentArrays.Forward: only a normally returning delegate is modelled. The code does not release the lock when the delegate panics, and the model makes no claim about that path.
- ConcurrentArrays.EqualTo: `ArrayObject.equalTo` is not part of this model. It is taken to be the length check plus element-wise `equalTo`, with the element comparison passed in.
- ConcurrentArrays.New: `elements[:]` shares the argument's backing slice. In Go, the new wrapper and the original array can therefore alias until one of them grows. Immutable sequences cannot express this aliasing.
- ConcurrentHashes.KeyOf: an object whose class is named `String` but which carries no string would make `Value().(string)` panic in Go. The model answers `TypeError` for it instead.
- ConcurrentArrays.Rewrap: `elements[:]` shares the delegate result's backing slice (vm/concurrent_array.go:96, 173-175). In Go the new wrapper and the plain array can alias until one of them grows. Immutable sequences cannot express this aliasing.
- ConcurrentArrays.ReentrantCallBlocks: the model is sequential. In Go a new `RLock` waits behind a goroutine blocked in `Lock`, so a re-entrant read call can block too; the model promises nothing about that case.
- ConcurrentHashes.Each: only the argument and block checks and the reply are modelled. The yields to the block and the call-frame pops belong to the evaluator.
- `Class()` panicking on a nil class: a class is a value here and cannot be missing.
- Identity allocation from `fmt.Sprintf("%p")` and its uniqueness among live objects: ids are parameters.
- `RObject.InitializeMethod`, `instanceVariables`/`setInstanceVariables` and the `Pointer` slot type: the protocol above does not use them.
- `RClass.lookupMethod` and the class hierarchy: reduced to the own table plus the `ancestry` map.
- `initNullClass`, `initConcurrentHashClass` and the `Concurrent` namespace constants: class registration belongs to the VM's start-up.
- Thread interleavings and the internals of `sync.Map` and `sync.RWMutex`: the model is sequential. Blocking is reported as `Blocked` and is never resolved by another thread.
- `vm/http_client.go`, `native/plugin/plugin.go`, `cmd/binder/main.go` and `compiler/compiler.go`: network, file-system, plugin and code-generation plumbing outside the value layer.

## Findings

| source | as written | input that shows it | evidently intended | confidence | as-written member | corrected member |
|---|---|---|---|---|---|---|
| vm/object.go:191-202 | `ro.findMethod("to_json").(*MethodObject)` is a single-result type assertion. It panics when lookup finds nothing or finds a builtin, so the following `!= nil` check and its `ToString` fallback can never run. | A user object whose class and ancestors define no `to_json` (`UserJson.PlainPoint`): the assertion panics. | Use a compiled `to_json` when there is one, otherwise return `ToString()` (`#<Point:1 >`). | medium, not executed | UserJson.ToJsonAsWritten | UserJson.ToJson |
